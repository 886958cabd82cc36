/** How version 2.0.1 relates to version 1.3.2. The type validators, the
    pools and the samplers agree; the positivity validators differ only in
    the text of their error message; the output layout changed. */
module Versions {
  import opened Common
  import opened Text
  import GenPasswd
  import PwdGen

  /** The module-level `_VALID_PASS_TYPES` of the new version is the
      dictionary the old `_pass_type` built on every call, so both accept and
      reject the same arguments and raise with the same message. */
  lemma SamePassType(value: PyObject)
    ensures GenPasswd.PassType(value) == PwdGen.PassType(value)
  {
    assert GenPasswd.VALID_TYPES == PwdGen.VALID_PASS_TYPES;
  }

  /** `_positive` and `_positive_num` accept and reject the same
      arguments and return the same values; only the message of the error
      differs ("value should be a positive number" against "should be a
      positive number"). */
  lemma PositiveOnlyMessageDiffers(value: string, parsed: Option<int>)
    ensures GenPasswd.Positive(value, parsed).Ok? <==> PwdGen.PositiveNum(value, parsed).Ok?
    ensures GenPasswd.Positive(value, parsed).Ok? ==>
      GenPasswd.Positive(value, parsed).value == PwdGen.PositiveNum(value, parsed).value
    ensures GenPasswd.Positive(value, parsed).Err? ==>
      GenPasswd.Positive(value, parsed).error.message == "value " + PwdGen.PositiveNum(value, parsed).error.message
  {
    MessagesRelated();
  }

  lemma MessagesRelated()
    ensures GenPasswd.POSITIVE_MESSAGE == "value " + PwdGen.POSITIVE_MESSAGE
  {
    var m := GenPasswd.POSITIVE_MESSAGE;
    assert m[..6] == "value ";
    assert m[6..] == PwdGen.POSITIVE_MESSAGE;
    assert m == m[..6] + m[6..];
  }

  /** Laying out one more password appends it and its terminator. */
  lemma OldTextSnoc(passwords: seq<string>, p: string, compact: bool)
    ensures GenPasswd.PasswordsText(passwords + [p], compact)
      == GenPasswd.PasswordsText(passwords, compact) + p + GenPasswd.Terminator(|passwords|, compact)
  {
    assert (passwords + [p])[..|passwords|] == passwords;
  }

  /** Terminators repeat with period three. */
  lemma TerminatorPeriod(m: nat, i: nat, compact: bool)
    requires m % 3 == 0
    ensures GenPasswd.Terminator(m + i, compact) == GenPasswd.Terminator(i, compact)
  {
    assert (m + i + 1) % 3 == (i + 1) % 3;
  }

  /** The old output restarts its three-password rhythm after every full
      line: laying out a multiple of three passwords and then more is the
      same as laying out the two lists one after the other. */
  lemma {:induction false} OldTextAppend(first: seq<string>, rest: seq<string>, compact: bool)
    requires |first| % 3 == 0
    ensures GenPasswd.PasswordsText(first + rest, compact)
      == GenPasswd.PasswordsText(first, compact) + GenPasswd.PasswordsText(rest, compact)
  {
    if |rest| == 0 {
      assert first + rest == first;
    } else {
      var n := |rest| - 1;
      var init, last := rest[..n], rest[n];
      var a := first + init;
      assert rest == init + [last];
      assert first + rest == a + [last];
      var x, y := GenPasswd.PasswordsText(first, compact), GenPasswd.PasswordsText(init, compact);
      var t := GenPasswd.Terminator(n, compact);
      OldTextAppend(first, init, compact);
      OldTextSnoc(a, last, compact);
      OldTextSnoc(init, last, compact);
      TerminatorPeriod(|first|, n, compact);
      Associative(x, y, last, t);
    }
  }

  lemma Associative(x: string, y: string, z: string, w: string)
    ensures x + y + z + w == x + (y + z + w)
  {
  }

  /** The old layout of one, two and three passwords. */
  lemma OldTextShort(a: string, b: string, c: string)
    ensures GenPasswd.PasswordsText([a], false) == a + "    "
    ensures GenPasswd.PasswordsText([a, b], false) == a + "    " + b + "    "
    ensures GenPasswd.PasswordsText([a, b, c], false) == a + "    " + b + "    " + c + "\n"
  {
    OldTextSnoc([], a, false);
    assert [] + [a] == [a];
    OldTextSnoc([a], b, false);
    assert [a] + [b] == [a, b];
    OldTextSnoc([a, b], c, false);
    assert [a, b] + [c] == [a, b, c];
  }

  /** The new layout of one, two and three passwords: a single line. */
  lemma NewTextShort(a: string, b: string, c: string)
    ensures PwdGen.Lines([a]) == a + "\n"
    ensures PwdGen.Lines([a, b]) == a + "    " + b + "\n"
    ensures PwdGen.Lines([a, b, c]) == a + "    " + b + "    " + c + "\n"
  {
    assert [a][..1] == [a] && [a][1..] == [];
    var two := [a, b];
    assert two[..2] == two && two[2..] == [] && two[1..] == [b];
    assert Join(two, "    ") == a + "    " + b;
    assert PwdGen.Lines(two) == Join(two, "    ") + "\n" + PwdGen.Lines([]);
    var three := [a, b, c];
    assert three[..3] == three && three[3..] == [];
    assert three[1..] == [b, c] && [b, c][1..] == [c];
    assert Join([b, c], "    ") == b + "    " + c;
    assert Join(three, "    ") == a + "    " + (b + "    " + c);
    assert PwdGen.Lines(three) == Join(three, "    ") + "\n" + PwdGen.Lines([]);
  }

  /** How the old text of `n` passwords relates to the new one: equal when
      `n` is a multiple of three, otherwise the new text with its final
      newline replaced by four spaces. */
  predicate Related(oldText: string, newText: string, n: nat)
  {
    if n % 3 == 0 then oldText == newText
    else |newText| > 0 && oldText == newText[..|newText| - 1] + "    "
  }

  /** Without compact mode the two layouts coincide when the number of
      passwords is a multiple of three. Otherwise the old text is the new
      one with its final newline replaced by four spaces: the old version
      leaves the last line unterminated and ends it with a separator. */
  lemma {:induction false} LayoutChange(passwords: seq<string>)
    ensures Related(GenPasswd.PasswordsText(passwords, false), PwdGen.ResultsText(passwords, false), |passwords|)
  {
    var n := |passwords|;
    if 0 < n <= 3 {
      LayoutChangeShort(passwords);
    } else if n > 3 {
      var head, rest := passwords[..3], passwords[3..];
      assert passwords == head + rest;
      LayoutChange(rest);
      LayoutChangeStep(head, rest);
    }
  }

  /** One full line in front of a list whose layouts are already related
      keeps the relation. */
  lemma LayoutChangeStep(head: seq<string>, rest: seq<string>)
    requires |head| == 3
    requires Related(GenPasswd.PasswordsText(rest, false), PwdGen.Lines(rest), |rest|)
    ensures Related(GenPasswd.PasswordsText(head + rest, false), PwdGen.Lines(head + rest), |rest| + 3)
  {
    OldTextAppend(head, rest, false);
    NewTextAppend(head, rest);
    LayoutChangeShort(head);
    RelatedPrepend(PwdGen.Lines(head), GenPasswd.PasswordsText(rest, false), PwdGen.Lines(rest), |rest|);
  }

  lemma LayoutChangeShort(passwords: seq<string>)
    requires 0 < |passwords| <= 3
    ensures Related(GenPasswd.PasswordsText(passwords, false), PwdGen.Lines(passwords), |passwords|)
  {
    if |passwords| == 1 {
      RelatedOne(passwords);
    } else if |passwords| == 2 {
      RelatedTwo(passwords);
    } else {
      RelatedThree(passwords);
    }
  }

  lemma RelatedOne(passwords: seq<string>)
    requires |passwords| == 1
    ensures Related(GenPasswd.PasswordsText(passwords, false), PwdGen.Lines(passwords), 1)
  {
    var a := passwords[0];
    assert passwords == [a];
    OldTextShort(a, a, a);
    NewTextShort(a, a, a);
    ChopNewline(a);
  }

  lemma RelatedTwo(passwords: seq<string>)
    requires |passwords| == 2
    ensures Related(GenPasswd.PasswordsText(passwords, false), PwdGen.Lines(passwords), 2)
  {
    var a, b := passwords[0], passwords[1];
    assert passwords == [a, b];
    OldTextShort(a, b, b);
    NewTextShort(a, b, b);
    ChopNewline(a + "    " + b);
  }

  lemma RelatedThree(passwords: seq<string>)
    requires |passwords| == 3
    ensures Related(GenPasswd.PasswordsText(passwords, false), PwdGen.Lines(passwords), 3)
  {
    var a, b, c := passwords[0], passwords[1], passwords[2];
    assert passwords == [a, b, c];
    OldTextShort(a, b, c);
    NewTextShort(a, b, c);
  }

  lemma ChopNewline(s: string)
    ensures (s + "\n")[..|s|] == s
  {
  }

  /** Putting the same full line in front of both texts keeps them
      related. */
  lemma RelatedPrepend(line: string, oldText: string, newText: string, n: nat)
    requires Related(oldText, newText, n)
    ensures Related(line + oldText, line + newText, n + 3)
  {
    if n % 3 != 0 {
      assert (line + newText)[..|line + newText| - 1] == line + newText[..|newText| - 1];
    }
  }

  /** The new layout prints a full first line and then the rest. */
  lemma NewTextAppend(head: seq<string>, rest: seq<string>)
    requires |head| == 3
    ensures PwdGen.Lines(head + rest) == PwdGen.Lines(head) + PwdGen.Lines(rest)
  {
    assert (head + rest)[..3] == head && (head + rest)[3..] == rest;
    assert head[..3] == head && head[3..] == [];
  }

  /** In compact mode the old version ends the line with a space and no
      newline, the new one with a newline; an empty list prints nothing in
      the old version and an empty line in the new one. */
  lemma CompactChange(passwords: seq<string>)
    ensures var newText := PwdGen.ResultsText(passwords, true);
      |newText| > 0 && newText[|newText| - 1] == '\n'
      && (passwords == [] ==> newText == "\n")
      && GenPasswd.PasswordsText(passwords, true) ==
           (if passwords == [] then "" else newText[..|newText| - 1] + " ")
  {
    GenPasswd.CompactText(passwords);
  }
}
