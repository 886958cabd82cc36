/** Version 1.3.2 of the generator (`genpasswd.py`): the two argument
    validators, the pool builder, the sampler and the output layout. */
module GenPasswd {
  import opened Common
  import opened Text
  import opened Charsets
  import opened Sampling

  /** The value of each `PasswordType` member in this version: its short
      alias (`NUMERIC = 'num'` and so on). */
  function Value(t: PasswordType): string
  {
    ShortAlias(t)
  }

  // ---------------------------------------------------------------------
  // Argument validators

  const POSITIVE_MESSAGE: string := "value should be a positive number"
  const TYPE_MESSAGE: string := "unsupported password type"

  /** `_positive(value)` as written. `parsed` is the outcome of
      `int(value)` (None when it raised `ValueError`). A number at most zero
      is rejected; a positive number is returned; on `ValueError` the
      exception object is built but never raised, so the text comes back
      unchanged. */
  function Positive(value: string, parsed: Option<int>): (r: Result<Converted>)
    ensures r.Err? <==> parsed.Some? && parsed.value <= 0
    ensures r.Err? ==> r.error == ArgumentTypeError(POSITIVE_MESSAGE)
    ensures r.Ok? && r.value.Number? ==> parsed == Some(r.value.n) && r.value.n > 0
    ensures parsed.Some? && parsed.value > 0 ==> r == Ok(Number(parsed.value))
    ensures parsed.None? ==> r == Ok(Unconverted(value))
  {
    match parsed
    case None => Ok(Unconverted(value))
    case Some(n) => if n <= 0 then Err(ArgumentTypeError(POSITIVE_MESSAGE)) else Ok(Number(n))
  }

  /** `_positive` as evidently intended: text that is not a number is
      rejected with the same error as a number at most zero. */
  function PositiveChecked(value: string, parsed: Option<int>): (r: Result<int>)
    ensures r.Ok? <==> parsed.Some? && parsed.value > 0
    ensures r.Ok? ==> r.value > 0 && parsed == Some(r.value)
    ensures r.Err? ==> r.error == ArgumentTypeError(POSITIVE_MESSAGE)
  {
    if parsed.Some? && parsed.value > 0 then Ok(parsed.value)
    else Err(ArgumentTypeError(POSITIVE_MESSAGE))
  }

  /** The two agree on every argument that `int()` accepts; they differ
      exactly on text `int()` rejects, which `Positive` lets through. */
  lemma PositiveAgreesWhenParsed(value: string, parsed: Option<int>)
    ensures parsed.Some? ==>
      (Positive(value, parsed).Ok? <==> PositiveChecked(value, parsed).Ok?)
      && (PositiveChecked(value, parsed).Ok? ==>
            Positive(value, parsed).value == Number(PositiveChecked(value, parsed).value))
    ensures parsed.None? ==> Positive(value, parsed).Ok? && PositiveChecked(value, parsed).Err?
  {
  }

  /** `-c abc` passes validation and reaches the generator as the text
      "abc", where `random.choices(pool, k="abc")` fails with a TypeError
      outside argparse's handling. */
  lemma PositiveLetsTextThrough()
    ensures Positive("abc", None) == Ok(Unconverted("abc"))
    ensures PositiveChecked("abc", None) == Err(ArgumentTypeError(POSITIVE_MESSAGE))
  {
  }

  /** The dictionary `_pass_type` builds on every call. */
  const VALID_TYPES: map<string, PasswordType> := map[
    "num" := Numeric, "numeric" := Numeric,
    "low" := Lowercase, "lowercase" := Lowercase,
    "upp" := Uppercase, "uppercase" := Uppercase,
    "std" := Standard, "standard" := Standard
  ]

  /** `_pass_type(value)`: a string whose lower-case form is a key of the
      dictionary selects that key's type; anything else raises. */
  function PassType(value: PyObject): (r: Result<PasswordType>)
  {
    if !value.PyStr? || Lower(value.s) !in VALID_TYPES then
      Err(ArgumentTypeError(TYPE_MESSAGE))
    else
      Ok(VALID_TYPES[Lower(value.s)])
  }

  /** `_pass_type` accepts a string for type `t` exactly when it spells
      `t`'s short or long alias in any mixture of cases; anything else,
      non-strings included, raises `ArgumentTypeError`. */
  lemma PassTypeAccepts(s: string, t: PasswordType)
    ensures PassType(PyStr(s)) == Ok(t) <==>
      EqualsIgnoringCase(s, ShortAlias(t)) || EqualsIgnoringCase(s, LongAlias(t))
    ensures PassType(PyStr(s)) == Err(ArgumentTypeError(TYPE_MESSAGE)) <==>
      forall u :: !EqualsIgnoringCase(s, ShortAlias(u)) && !EqualsIgnoringCase(s, LongAlias(u))
    ensures PassType(PyOther) == Err(ArgumentTypeError(TYPE_MESSAGE))
  {
    forall u: PasswordType
      ensures Lower(s) == ShortAlias(u) <==> EqualsIgnoringCase(s, ShortAlias(u))
      ensures Lower(s) == LongAlias(u) <==> EqualsIgnoringCase(s, LongAlias(u))
    {
      LowerIsWord(s, ShortAlias(u));
      LowerIsWord(s, LongAlias(u));
    }
    AliasKeys(Lower(s));
  }

  lemma AliasKeys(w: string)
    ensures w in VALID_TYPES <==> exists u :: w == ShortAlias(u) || w == LongAlias(u)
    ensures forall u :: w == ShortAlias(u) || w == LongAlias(u) ==> w in VALID_TYPES && VALID_TYPES[w] == u
  {
    if w in VALID_TYPES {
      var u := VALID_TYPES[w];
      assert w == ShortAlias(u) || w == LongAlias(u);
    }
  }

  /** Each member's value is one of the names `_pass_type` accepts for it. */
  lemma PassTypeOfValue(t: PasswordType)
    ensures PassType(PyStr(Value(t))) == Ok(t)
  {
    LowerIsWord(Value(t), Value(t));
    AliasKeys(Value(t));
  }

  // ---------------------------------------------------------------------
  // Pool builder

  /** `character_pool_generator`: start from the digits and append the
      lowercase, uppercase and special groups as the type and flags
      select. */
  method CharacterPoolGenerator(passType: PasswordType, specialCharacters: bool := false, safeMode: bool := false)
    returns (characterPool: string)
    ensures characterPool == Pool(passType, specialCharacters, safeMode)
    ensures Distinct(characterPool) && |characterPool| >= 9
    ensures 'q' !in characterPool && 'Q' !in characterPool
    ensures safeMode ==> LookAlikesAbsent(characterPool)
  {
    characterPool := if safeMode then NUMBERS_SAFE else NUMBERS;
    assert characterPool == DigitGroup(safeMode);

    if passType in {Standard, Lowercase} {
      characterPool := characterPool + if safeMode then LOWERCASE_SAFE else LOWERCASE;
    }
    assert characterPool == DigitGroup(safeMode) + LowerGroup(passType, safeMode);

    if passType in {Standard, Uppercase} {
      characterPool := characterPool + if safeMode then UPPERCASE_SAFE else UPPERCASE;
    }
    assert characterPool == DigitGroup(safeMode) + LowerGroup(passType, safeMode) + UpperGroup(passType, safeMode);

    if specialCharacters {
      characterPool := characterPool + SPECIAL;
    }
    PoolDistinct(passType, specialCharacters, safeMode);
    PoolSize(passType, specialCharacters, safeMode);
    PoolExclusions(passType, specialCharacters, safeMode);
  }

  // ---------------------------------------------------------------------
  // Sampler

  /** `passwords_generator`: seed once, then append `passCount` passwords
      of `passSize` characters. When seeding fails the loop never starts and
      the empty list is returned. */
  method PasswordsGenerator(characterPool: string, passSize: nat, passCount: nat, entropy: Entropy)
    returns (passwords: seq<string>)
    requires entropy.Seeded? ==> Covers(entropy.draws, characterPool, passSize, passCount)
    ensures entropy.Unavailable? ==> passwords == []
    ensures entropy.Seeded? ==> passwords == Batch(characterPool, entropy.draws, passSize, passCount)
    ensures entropy.Seeded? ==> |passwords| == passCount
    ensures forall i :: 0 <= i < |passwords| ==>
      |passwords[i]| == passSize && AllIn(passwords[i], characterPool)
  {
    passwords := [];
    if entropy.Unavailable? {
      return;
    }
    var draws := entropy.draws;
    for i := 0 to passCount
      invariant Covers(draws, characterPool, passSize, i)
      invariant passwords == Batch(characterPool, draws, passSize, i)
    {
      BatchSnoc(characterPool, draws, passSize, i);
      passwords := passwords + [Choices(characterPool, draws, i * passSize, passSize)];
    }
    BatchShape(characterPool, draws, passSize, passCount);
  }

  // ---------------------------------------------------------------------
  // Output layout

  /** The `end=` argument `print_passwords` passes after password `i`. */
  function Terminator(i: nat, compact: bool): string
  {
    if compact then " " else if (i + 1) % 3 != 0 then "    " else "\n"
  }

  /** The text `print_passwords` writes: each password followed by its
      terminator. */
  function PasswordsText(passwords: seq<string>, compact: bool): string
  {
    if |passwords| == 0 then ""
    else
      var n := |passwords| - 1;
      PasswordsText(passwords[..n], compact) + passwords[n] + Terminator(n, compact)
  }

  /** `print_passwords`, with the printed text returned. */
  method PrintPasswords(passwords: seq<string>, compact: bool := false) returns (out: string)
    ensures out == PasswordsText(passwords, compact)
  {
    out := "";
    for i := 0 to |passwords|
      invariant out == PasswordsText(passwords[..i], compact)
    {
      assert passwords[..i + 1][..i] == passwords[..i];
      out := out + passwords[i] + Terminator(i, compact);
    }
    assert passwords[..|passwords|] == passwords;
  }

  /** In compact mode every password is followed by one space: the
      passwords joined by spaces, plus a trailing space. */
  lemma {:induction false} CompactText(passwords: seq<string>)
    ensures PasswordsText(passwords, true) ==
      if |passwords| == 0 then "" else Join(passwords, " ") + " "
  {
    var n := |passwords|;
    if n > 1 {
      var init := passwords[..n - 1];
      CompactText(init);
      assert passwords == init + [passwords[n - 1]];
      JoinSnoc(init, " ", passwords[n - 1]);
    } else if n == 1 {
      assert passwords[..0] == [];
    }
  }

  /** Without compact mode a newline follows every third password, so the
      text holds `n / 3` newlines for `n` passwords; in compact mode it
      holds none. */
  lemma {:induction false} NewlineCount(passwords: seq<string>, compact: bool)
    requires NoNewlines(passwords)
    ensures Count(PasswordsText(passwords, compact), '\n') == if compact then 0 else |passwords| / 3
  {
    var n := |passwords|;
    if n > 0 {
      var init, p := passwords[..n - 1], passwords[n - 1];
      var text, t := PasswordsText(init, compact), Terminator(n - 1, compact);
      assert PasswordsText(passwords, compact) == text + p + t;
      assert NoNewlines(init) by {
        forall i | 0 <= i < |init| ensures '\n' !in init[i] {
          assert init[i] == passwords[i];
        }
      }
      NewlineCount(init, compact);
      assert '\n' !in p;
      CountAppend(text, p, '\n');
      CountAppend(text + p, t, '\n');
      TerminatorNewlines(n - 1, compact);
      DivStep(n);
    }
  }

  lemma TerminatorNewlines(i: nat, compact: bool)
    ensures Count(Terminator(i, compact), '\n') == if compact || (i + 1) % 3 != 0 then 0 else 1
  {
  }

  lemma DivStep(n: nat)
    requires n > 0
    ensures n / 3 == (n - 1) / 3 + (if n % 3 == 0 then 1 else 0)
  {
  }

  /** Without compact mode the text ends in a newline exactly when the
      number of passwords is a positive multiple of three: otherwise the
      last line is left unterminated, ending in four spaces. */
  lemma LastLine(passwords: seq<string>)
    requires |passwords| > 0
    ensures var text := PasswordsText(passwords, false);
      |text| >= 1 && (text[|text| - 1] == '\n' <==> |passwords| % 3 == 0)
      && (|passwords| % 3 != 0 ==> |text| >= 4 && text[|text| - 4..] == "    ")
  {
  }
}
