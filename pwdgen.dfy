/** Version 2.0.1 of the generator (`pwdgen.py`): the two argument
    validators, the pool builder, the sampler and the output layout. */
module PwdGen {
  import opened Common
  import opened Text
  import opened Charsets
  import opened Sampling

  /** The value of each `PasswordType` member in this version. */
  function Value(t: PasswordType): (r: int)
    ensures 1 <= r <= 4
  {
    match t
    case Numeric => 1
    case Lowercase => 2
    case Uppercase => 3
    case Standard => 4
  }

  /** `Enum` members with equal values are aliases of one member; the four
      members of `PasswordType` are distinct because their values are. */
  lemma ValuesDistinct(t: PasswordType, u: PasswordType)
    ensures Value(t) == Value(u) <==> t == u
  {
  }

  // ---------------------------------------------------------------------
  // Argument validators

  const POSITIVE_MESSAGE: string := "should be a positive number"
  const TYPE_MESSAGE: string := "unsupported password type"

  /** `_positive_num(value)` as written, with `parsed` the outcome of
      `int(value)` (None when it raised `ValueError`). As in the previous
      version, the `ValueError` branch builds the exception without raising
      it, so unparsable text comes back unchanged. */
  function PositiveNum(value: string, parsed: Option<int>): (r: Result<Converted>)
    ensures r.Err? <==> parsed.Some? && parsed.value <= 0
    ensures r.Err? ==> r.error == ArgumentTypeError(POSITIVE_MESSAGE)
    ensures r.Ok? && r.value.Number? ==> parsed == Some(r.value.n) && r.value.n > 0
    ensures parsed.Some? && parsed.value > 0 ==> r == Ok(Number(parsed.value))
    ensures parsed.None? ==> r == Ok(Unconverted(value))
  {
    match parsed
    case None => Ok(Unconverted(value))
    case Some(n) => if n <= 0 then Err(ArgumentTypeError(POSITIVE_MESSAGE)) else Ok(Number(n))
  }

  /** `_positive_num` as evidently intended: text that is not a number is
      rejected like a number at most zero. */
  function PositiveNumChecked(value: string, parsed: Option<int>): (r: Result<int>)
    ensures r.Ok? <==> parsed.Some? && parsed.value > 0
    ensures r.Ok? ==> r.value > 0 && parsed == Some(r.value)
    ensures r.Err? ==> r.error == ArgumentTypeError(POSITIVE_MESSAGE)
  {
    if parsed.Some? && parsed.value > 0 then Ok(parsed.value)
    else Err(ArgumentTypeError(POSITIVE_MESSAGE))
  }

  /** `-l abc` passes validation as the text "abc" and only fails later,
      inside `random.choices`, with an unhandled TypeError. */
  lemma PositiveNumLetsTextThrough()
    ensures PositiveNum("abc", None) == Ok(Unconverted("abc"))
    ensures PositiveNumChecked("abc", None) == Err(ArgumentTypeError(POSITIVE_MESSAGE))
  {
  }

  /** `_VALID_PASS_TYPES`, now a module-level dictionary. */
  const VALID_PASS_TYPES: map<string, PasswordType> := map[
    "num" := Numeric, "numeric" := Numeric,
    "low" := Lowercase, "lowercase" := Lowercase,
    "upp" := Uppercase, "uppercase" := Uppercase,
    "std" := Standard, "standard" := Standard
  ]

  /** `_pass_type(value)`: look the lower-cased string up in
      `_VALID_PASS_TYPES`; a non-string or an unknown name raises. */
  function PassType(value: PyObject): (r: Result<PasswordType>)
  {
    if !value.PyStr? || Lower(value.s) !in VALID_PASS_TYPES then
      Err(ArgumentTypeError(TYPE_MESSAGE))
    else
      Ok(VALID_PASS_TYPES[Lower(value.s)])
  }

  lemma AliasKeys(w: string)
    ensures w in VALID_PASS_TYPES <==> exists u :: w == ShortAlias(u) || w == LongAlias(u)
    ensures forall u :: w == ShortAlias(u) || w == LongAlias(u) ==>
      w in VALID_PASS_TYPES && VALID_PASS_TYPES[w] == u
  {
    if w in VALID_PASS_TYPES {
      var u := VALID_PASS_TYPES[w];
      assert w == ShortAlias(u) || w == LongAlias(u);
    }
  }

  /** `_pass_type` accepts a string for type `t` exactly when it spells
      `t`'s short or long alias in any mixture of cases; anything else,
      non-strings included, raises `ArgumentTypeError`. */
  lemma PassTypeAccepts(s: string, t: PasswordType)
    ensures PassType(PyStr(s)) == Ok(t) <==>
      EqualsIgnoringCase(s, ShortAlias(t)) || EqualsIgnoringCase(s, LongAlias(t))
    ensures PassType(PyStr(s)) == Err(ArgumentTypeError(TYPE_MESSAGE)) <==>
      forall u :: !EqualsIgnoringCase(s, ShortAlias(u)) && !EqualsIgnoringCase(s, LongAlias(u))
    ensures PassType(PyOther) == Err(ArgumentTypeError(TYPE_MESSAGE))
  {
    forall u: PasswordType
      ensures Lower(s) == ShortAlias(u) <==> EqualsIgnoringCase(s, ShortAlias(u))
      ensures Lower(s) == LongAlias(u) <==> EqualsIgnoringCase(s, LongAlias(u))
    {
      LowerIsWord(s, ShortAlias(u));
      LowerIsWord(s, LongAlias(u));
    }
    AliasKeys(Lower(s));
  }

  /** The default type string of the command line, `'std'`, goes through
      `_pass_type` like any other argument and selects STANDARD. */
  lemma DefaultPassType()
    ensures PassType(PyStr("std")) == Ok(Standard)
  {
    LowerIsWord("std", "std");
    AliasKeys("std");
  }

  // ---------------------------------------------------------------------
  // Pool builder

  /** `get_character_pool`: the digits, then the lowercase, uppercase and
      special groups as the type and flags select. */
  method GetCharacterPool(passType: PasswordType, specialCharacters: bool := false, safeMode: bool := false)
    returns (characterPool: string)
    ensures characterPool == Pool(passType, specialCharacters, safeMode)
    ensures Distinct(characterPool) && |characterPool| >= 9
    ensures 'q' !in characterPool && 'Q' !in characterPool
    ensures safeMode ==> LookAlikesAbsent(characterPool)
  {
    characterPool := if safeMode then NUMBERS_SAFE else NUMBERS;
    assert characterPool == DigitGroup(safeMode);

    if passType in {Standard, Lowercase} {
      characterPool := characterPool + if safeMode then LOWERCASE_SAFE else LOWERCASE;
    }
    assert characterPool == DigitGroup(safeMode) + LowerGroup(passType, safeMode);

    if passType in {Standard, Uppercase} {
      characterPool := characterPool + if safeMode then UPPERCASE_SAFE else UPPERCASE;
    }
    assert characterPool == DigitGroup(safeMode) + LowerGroup(passType, safeMode) + UpperGroup(passType, safeMode);

    if specialCharacters {
      characterPool := characterPool + SPECIAL;
    }

    PoolDistinct(passType, specialCharacters, safeMode);
    PoolSize(passType, specialCharacters, safeMode);
    PoolExclusions(passType, specialCharacters, safeMode);
  }

  // ---------------------------------------------------------------------
  // Sampler

  /** `generate_passwords`: seed once and build the list with a
      comprehension; if the entropy source raises `NotImplementedError`
      the empty list is returned. */
  function GeneratePasswords(characterPool: string, passSize: nat, passCount: nat, entropy: Entropy)
    : (r: seq<string>)
    requires entropy.Seeded? ==> Covers(entropy.draws, characterPool, passSize, passCount)
    ensures entropy.Unavailable? ==> r == []
    ensures entropy.Seeded? ==> |r| == passCount
    ensures forall i :: 0 <= i < |r| ==> |r[i]| == passSize && AllIn(r[i], characterPool)
  {
    match entropy
    case Unavailable(_) => []
    case Seeded(draws) =>
      BatchShape(characterPool, draws, passSize, passCount);
      Batch(characterPool, draws, passSize, passCount)
  }

  // ---------------------------------------------------------------------
  // Output layout

  function Min(a: int, b: int): int { if a < b then a else b }

  /** The lines `print_results` prints without compact mode: the first
      three passwords joined by four spaces and a newline, then the rest
      the same way. */
  function Lines(passwords: seq<string>): string
    decreases |passwords|
  {
    if |passwords| == 0 then ""
    else
      var m := Min(3, |passwords|);
      Join(passwords[..m], "    ") + "\n" + Lines(passwords[m..])
  }

  /** The text `print_results` writes. In compact mode one `print` call
      writes the passwords joined by single spaces and a newline. */
  function ResultsText(passwords: seq<string>, compact: bool): string
  {
    if compact then Join(passwords, " ") + "\n" else Lines(passwords)
  }

  /** `print_results`, with the printed text returned. */
  method PrintResults(passwords: seq<string>, compact: bool := false) returns (out: string)
    ensures out == ResultsText(passwords, compact)
  {
    out := "";
    if !compact {
      var n := |passwords|;
      var i := 0;
      while i < n
        invariant 0 <= i
        invariant out + Lines(passwords[Min(i, n)..]) == Lines(passwords)
        decreases n - i
      {
        LinesFrom(passwords, i);
        out := out + Join(passwords[i..Min(i + 3, n)], "    ") + "\n";
        i := i + 3;
      }
      assert passwords[n..] == [];
    } else {
      out := Join(passwords, " ") + "\n";
    }
  }

  /** The lines from password `i` on start with the chunk
      `passwords[i:i + 3]`. */
  lemma LinesFrom(passwords: seq<string>, i: nat)
    requires i < |passwords|
    ensures Lines(passwords[i..]) ==
      Join(passwords[i..Min(i + 3, |passwords|)], "    ") + "\n" + Lines(passwords[Min(i + 3, |passwords|)..])
  {
    var m := Min(3, |passwords| - i);
    assert passwords[i..][..m] == passwords[i..Min(i + 3, |passwords|)];
    assert passwords[i..][m..] == passwords[Min(i + 3, |passwords|)..];
  }

  /** The number of lines: `ceil(n / 3)`. */
  function LineCount(n: nat): nat { (n + 2) / 3 }

  /** Line `k` of the layout: `passwords[3k:3k + 3]` joined by four
      spaces. */
  function Line(passwords: seq<string>, k: nat): string
    requires k < LineCount(|passwords|)
  {
    Join(passwords[3 * k..Min(3 * k + 3, |passwords|)], "    ")
  }

  /** Without compact mode the text is `ceil(n / 3)` lines, line `k`
      holding passwords `3k` to `3k + 2` (fewer on the last line) joined by
      four spaces, and every line ends in a newline. */
  lemma {:induction false} LinesAreChunks(passwords: seq<string>)
    ensures Lines(passwords) ==
      Concat(seq(LineCount(|passwords|), k requires 0 <= k < LineCount(|passwords|) =>
        Line(passwords, k) + "\n"))
  {
    var n := |passwords|;
    var lines := seq(LineCount(n), k requires 0 <= k < LineCount(n) => Line(passwords, k) + "\n");
    if n > 0 {
      var m := Min(3, n);
      var rest := passwords[m..];
      LinesAreChunks(rest);
      var restLines := seq(LineCount(|rest|), k requires 0 <= k < LineCount(|rest|) => Line(rest, k) + "\n");
      assert LineCount(n) == LineCount(|rest|) + 1;
      assert lines[1..] == restLines by {
        forall k | 0 <= k < |restLines| ensures lines[1..][k] == restLines[k] {
          LineOfRest(passwords, k);
        }
      }
      assert passwords[0..m] == passwords[..m];
      assert lines[0] == Join(passwords[..m], "    ") + "\n";
    }
  }

  /** Line `k` of what follows the first line is line `k + 1` of the
      whole layout. */
  lemma LineOfRest(passwords: seq<string>, k: nat)
    requires |passwords| > 3 && k < LineCount(|passwords| - 3)
    ensures k + 1 < LineCount(|passwords|)
    ensures Line(passwords[3..], k) == Line(passwords, k + 1)
  {
    var n := |passwords|;
    assert Min(3 * k + 3, n - 3) + 3 == Min(3 * (k + 1) + 3, n);
    assert passwords[3..][3 * k..Min(3 * k + 3, n - 3)] == passwords[3 * (k + 1)..Min(3 * (k + 1) + 3, n)];
  }

  /** A join of newline-free strings with a newline-free separator holds
      no newline. */
  lemma JoinHasNoNewline(parts: seq<string>, sep: string)
    requires NoNewlines(parts) && '\n' !in sep
    ensures Count(Join(parts, sep), '\n') == 0
  {
    JoinCount(parts, sep, '\n');
    SumCountNone(parts, '\n');
  }

  /** Without compact mode a list of newline-free passwords prints as
      `ceil(n / 3)` newline-terminated lines; an empty list prints
      nothing. In compact mode it prints exactly one line. */
  lemma {:induction false} NewlineCount(passwords: seq<string>, compact: bool)
    requires NoNewlines(passwords)
    ensures Count(ResultsText(passwords, compact), '\n') == if compact then 1 else LineCount(|passwords|)
    ensures passwords == [] ==> ResultsText(passwords, false) == ""
    ensures compact || passwords != [] ==> EndsInNewline(ResultsText(passwords, compact))
  {
    var n := |passwords|;
    if compact {
      var line := Join(passwords, " ");
      assert ResultsText(passwords, compact) == line + "\n";
      JoinHasNoNewline(passwords, " ");
      CountAppend(line, "\n", '\n');
    } else if n > 0 {
      var m := Min(3, n);
      var first, rest := passwords[..m], passwords[m..];
      assert NoNewlines(first) && NoNewlines(rest) by {
        forall i | 0 <= i < |first| ensures first[i] == passwords[i] { }
        forall i | 0 <= i < |rest| ensures rest[i] == passwords[m + i] { }
      }
      NewlineCount(rest, false);
      JoinHasNoNewline(first, "    ");
      var line, tail := Join(first, "    "), Lines(rest);
      assert Lines(passwords) == line + "\n" + tail;
      CountAppend(line, "\n", '\n');
      CountAppend(line + "\n", tail, '\n');
      assert LineCount(n) == LineCount(|rest|) + 1;
      assert EndsInNewline(line + "\n" + tail) by {
        if rest != [] {
          assert (line + "\n" + tail)[|line + "\n" + tail| - 1] == tail[|tail| - 1];
        }
      }
    }
  }

  predicate EndsInNewline(text: string) { |text| > 0 && text[|text| - 1] == '\n' }

  /** In compact mode the passwords are separated by one space each, with
      no separator after the last one. */
  lemma CompactLine(passwords: seq<string>)
    requires |passwords| > 0
    ensures var n := |passwords|;
      ResultsText(passwords, true) ==
        (if n == 1 then "" else Join(passwords[..n - 1], " ") + " ") + passwords[n - 1] + "\n"
  {
    var n := |passwords|;
    if n > 1 {
      assert passwords == passwords[..n - 1] + [passwords[n - 1]];
      JoinSnoc(passwords[..n - 1], " ", passwords[n - 1]);
    }
  }
}
