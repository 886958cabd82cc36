/** Values shared by both versions of the generator: the outcome of an
    argument validator, the objects argparse hands to a validator, and the
    few string operations the validators and the output layout rely on. */
module Common {

  datatype Option<+T> = None | Some(value: T)

  /** `argparse.ArgumentTypeError(message)`, the exception a validator
      raises to reject a command-line value. */
  datatype ArgError = ArgumentTypeError(message: string)

  /** A validator either returns a value or raises `ArgumentTypeError`. */
  datatype Result<+T> = Ok(value: T) | Err(error: ArgError)

  /** What the positivity validators return: the converted number, or the
      argument text itself when `int(value)` raised `ValueError`. */
  datatype Converted = Number(n: int) | Unconverted(raw: string)

  /** The object a validator is called with: a Python `str`, or anything
      else (which `isinstance(value, str)` rejects). */
  datatype PyObject = PyStr(s: string) | PyOther
}

/** String helpers: Python's `str.lower` on ASCII, `str.join`, and
    counting the occurrences of a character. */
module Text {

  predicate IsUpper(c: char) { 'A' <= c <= 'Z' }

  predicate IsLower(c: char) { 'a' <= c <= 'z' }

  /** `c.lower()` for one character: the ASCII case mapping of Python's
      `str.lower`. ASCII capitals map to their small letters; every other
      character is left alone. */
  function LowerChar(c: char): (r: char)
    ensures IsUpper(c) ==> IsLower(r) && r as int == c as int + 32
    ensures !IsUpper(c) ==> r == c
  {
    if IsUpper(c) then (c as int + 32) as char else c
  }

  function UpperChar(c: char): char
    requires IsLower(c)
  {
    (c as int - 32) as char
  }

  /** `s.lower()`: the ASCII case mapping of Python's `str.lower`, applied
      character by character. */
  function Lower(s: string): (r: string)
    ensures |r| == |s|
    ensures forall i :: 0 <= i < |s| ==> r[i] == LowerChar(s[i])
  {
    seq(|s|, i requires 0 <= i < |s| => LowerChar(s[i]))
  }

  /** The characters that `LowerChar` sends to the small letter `d` are
      exactly `d` itself and its capital. */
  lemma LowerCharTo(c: char, d: char)
    requires IsLower(d)
    ensures LowerChar(c) == d <==> c == d || c == UpperChar(d)
  {
  }

  /** `s` spells `w` up to the case of its letters: each character is the
      character of `w` or, for a small letter, its capital. */
  predicate EqualsIgnoringCase(s: string, w: string)
    requires forall i :: 0 <= i < |w| ==> IsLower(w[i])
  {
    |s| == |w| && forall i :: 0 <= i < |s| ==> s[i] == w[i] || s[i] == UpperChar(w[i])
  }

  /** Lowering `s` gives the all-small word `w` exactly when `s` spells `w`
      in some mixture of cases. */
  lemma LowerIsWord(s: string, w: string)
    requires forall i :: 0 <= i < |w| ==> IsLower(w[i])
    ensures Lower(s) == w <==> EqualsIgnoringCase(s, w)
  {
    if Lower(s) == w {
      forall i | 0 <= i < |s| ensures s[i] == w[i] || s[i] == UpperChar(w[i]) {
        LowerCharTo(s[i], w[i]);
      }
    }
    if EqualsIgnoringCase(s, w) {
      forall i | 0 <= i < |s| ensures Lower(s)[i] == w[i] {
        LowerCharTo(s[i], w[i]);
      }
    }
  }

  /** `sep.join(parts)`. */
  function Join(parts: seq<string>, sep: string): (r: string)
  {
    if |parts| == 0 then ""
    else if |parts| == 1 then parts[0]
    else parts[0] + sep + Join(parts[1..], sep)
  }

  /** Joining a list one longer appends the separator and the new part. */
  lemma {:induction false} JoinSnoc(parts: seq<string>, sep: string, p: string)
    requires |parts| > 0
    ensures Join(parts + [p], sep) == Join(parts, sep) + sep + p
  {
    if |parts| == 1 {
      assert (parts + [p])[1..] == [p];
    } else {
      assert (parts + [p])[1..] == parts[1..] + [p];
      JoinSnoc(parts[1..], sep, p);
    }
  }

  /** No string of `parts` holds a newline. */
  predicate NoNewlines(parts: seq<string>)
  {
    forall i :: 0 <= i < |parts| ==> '\n' !in parts[i]
  }

  /** The strings of `parts` one after another: `''.join(parts)`. */
  function Concat(parts: seq<string>): string
  {
    if |parts| == 0 then "" else parts[0] + Concat(parts[1..])
  }

  /** The number of occurrences of `c` in `s`. */
  function Count(s: string, c: char): (r: nat)
    ensures r <= |s|
    ensures r == 0 <==> c !in s
  {
    if |s| == 0 then 0 else (if s[0] == c then 1 else 0) + Count(s[1..], c)
  }

  lemma {:induction false} CountAppend(a: string, b: string, c: char)
    ensures Count(a + b, c) == Count(a, c) + Count(b, c)
  {
    if |a| == 0 {
      assert a + b == b;
    } else {
      assert (a + b)[1..] == a[1..] + b;
      CountAppend(a[1..], b, c);
    }
  }

  /** A join holds `c` only where a part or a separator held it. */
  lemma {:induction false} JoinCount(parts: seq<string>, sep: string, c: char)
    requires c !in sep
    ensures Count(Join(parts, sep), c) == SumCount(parts, c)
  {
    if |parts| > 1 {
      CountAppend(parts[0], sep, c);
      CountAppend(parts[0] + sep, Join(parts[1..], sep), c);
      JoinCount(parts[1..], sep, c);
    }
  }

  /** The number of occurrences of `c` over all of `parts`. */
  function SumCount(parts: seq<string>, c: char): nat
  {
    if |parts| == 0 then 0 else Count(parts[0], c) + SumCount(parts[1..], c)
  }

  lemma {:induction false} SumCountNone(parts: seq<string>, c: char)
    requires forall i :: 0 <= i < |parts| ==> c !in parts[i]
    ensures SumCount(parts, c) == 0
  {
    if |parts| > 0 {
      SumCountNone(parts[1..], c);
    }
  }
}
