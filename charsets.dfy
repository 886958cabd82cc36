/** The character tables and the pool builder. Both versions of the script
    carry the same seven tables and build the pool the same way, so both
    are defined here once; each version's pool-building method is proved to
    return `Pool`. */
module Charsets {
  import opened Text

  /** The four password types. Their Python values differ between the
      versions and are given in each version's module. */
  datatype PasswordType = Numeric | Lowercase | Uppercase | Standard

  // The tables, in the order the source lists them. `q` and `Q` are
  // missing from all of them; the safe tables drop `l`, `I`, `O` and `0`
  // but keep `i`, `o` and `L`.
  const LOWERCASE: string := "abcdefghijklmnoprstuvwxyz"
  const LOWERCASE_SAFE: string := "abcdefghijkmnoprstuvwxyz"
  const UPPERCASE: string := "ABCDEFGHIJKLMNOPRSTUVWXYZ"
  const UPPERCASE_SAFE: string := "ABCDEFGHJKLMNPRSTUVWXYZ"
  const NUMBERS: string := "1234567890"
  const NUMBERS_SAFE: string := "123456789"
  const SPECIAL: string := "!@#$%^&*()"

  /** The short name of each type on the command line. */
  function ShortAlias(t: PasswordType): (r: string)
    ensures |r| == 3 && forall i :: 0 <= i < |r| ==> IsLower(r[i])
  {
    match t
    case Numeric => "num"
    case Lowercase => "low"
    case Uppercase => "upp"
    case Standard => "std"
  }

  /** The long name of each type on the command line. */
  function LongAlias(t: PasswordType): (r: string)
    ensures |r| > 3 && forall i :: 0 <= i < |r| ==> IsLower(r[i])
  {
    match t
    case Numeric => "numeric"
    case Lowercase => "lowercase"
    case Uppercase => "uppercase"
    case Standard => "standard"
  }

  /** `pass_type in (PasswordType.STANDARD, PasswordType.LOWERCASE)` */
  predicate HasLowercase(t: PasswordType) { t == Standard || t == Lowercase }

  /** `pass_type in (PasswordType.STANDARD, PasswordType.UPPERCASE)` */
  predicate HasUppercase(t: PasswordType) { t == Standard || t == Uppercase }

  function DigitGroup(safe: bool): string { if safe then NUMBERS_SAFE else NUMBERS }

  function LowerGroup(t: PasswordType, safe: bool): string
  {
    if !HasLowercase(t) then "" else if safe then LOWERCASE_SAFE else LOWERCASE
  }

  function UpperGroup(t: PasswordType, safe: bool): string
  {
    if !HasUppercase(t) then "" else if safe then UPPERCASE_SAFE else UPPERCASE
  }

  function SpecialGroup(special: bool): string { if special then SPECIAL else "" }

  /** The pool for a password type and the two flags: the digit group, then
      the lowercase group, then the uppercase group, then the specials,
      each present or absent as the type and flags select. */
  function Pool(t: PasswordType, special: bool, safe: bool): string
  {
    DigitGroup(safe) + LowerGroup(t, safe) + UpperGroup(t, safe) + SpecialGroup(special)
  }

  predicate IsDigit(c: char) { '0' <= c <= '9' }

  predicate IsLetter(c: char) { IsLower(c) || IsUpper(c) }

  /** Which characters a pool admits, stated by character class rather
      than by the tables. */
  predicate Admits(t: PasswordType, special: bool, safe: bool, c: char)
  {
    (IsDigit(c) && !(safe && c == '0'))
    || (HasLowercase(t) && IsLower(c) && c != 'q' && !(safe && c == 'l'))
    || (HasUppercase(t) && IsUpper(c) && c != 'Q' && !(safe && (c == 'I' || c == 'O')))
    || (special && c in SPECIAL)
  }

  /** No character occurs twice in `s`. */
  predicate Distinct(s: string)
  {
    forall i, j :: 0 <= i < j < |s| ==> s[i] != s[j]
  }

  // Each table, as a set of characters, is a character class minus the
  // omitted letters.

  lemma DigitGroupMembers(safe: bool, c: char)
    ensures c in DigitGroup(safe) <==> IsDigit(c) && !(safe && c == '0')
  {
  }

  lemma LowerGroupMembers(t: PasswordType, safe: bool, c: char)
    ensures c in LowerGroup(t, safe) <==>
      HasLowercase(t) && IsLower(c) && c != 'q' && !(safe && c == 'l')
  {
  }

  lemma UpperGroupMembers(t: PasswordType, safe: bool, c: char)
    ensures c in UpperGroup(t, safe) <==>
      HasUppercase(t) && IsUpper(c) && c != 'Q' && !(safe && (c == 'I' || c == 'O'))
  {
  }

  /** A character is in the pool exactly when `Admits` says so. */
  lemma PoolMembers(t: PasswordType, special: bool, safe: bool, c: char)
    ensures c in Pool(t, special, safe) <==> Admits(t, special, safe, c)
  {
    DigitGroupMembers(safe, c);
    LowerGroupMembers(t, safe, c);
    UpperGroupMembers(t, safe, c);
  }

  /** The pool size is the sum of the group sizes: 10 or 9 digits, 25 or 24
      lowercase letters, 25 or 23 uppercase letters and 10 specials. So no
      pool is empty; the smallest holds 9 characters. */
  lemma PoolSize(t: PasswordType, special: bool, safe: bool)
    ensures |Pool(t, special, safe)| ==
      (if safe then 9 else 10)
      + (if HasLowercase(t) then (if safe then 24 else 25) else 0)
      + (if HasUppercase(t) then (if safe then 23 else 25) else 0)
      + (if special then 10 else 0)
    ensures 9 <= |Pool(t, special, safe)| <= 70
  {
  }

  /** Concatenating two duplicate-free strings with no character in common
      gives a duplicate-free string. */
  lemma DistinctAppend(a: string, b: string)
    requires Distinct(a) && Distinct(b)
    requires forall c :: c in a ==> c !in b
    ensures Distinct(a + b)
  {
    forall i, j | 0 <= i < j < |a + b| ensures (a + b)[i] != (a + b)[j] {
      if j < |a| {
      } else if i >= |a| {
        assert (a + b)[i] == b[i - |a|] && (a + b)[j] == b[j - |a|];
      } else {
        assert (a + b)[i] == a[i] && (a + b)[j] == b[j - |a|];
        assert a[i] in a;
      }
    }
  }

  /** A strictly increasing string has no duplicates. */
  lemma IncreasingDistinct(s: string)
    requires forall i :: 0 <= i < |s| - 1 ==> s[i] < s[i + 1]
    ensures Distinct(s)
  {
    forall i, j | 0 <= i < j < |s| ensures s[i] < s[j] {
      var k := i;
      while k < j
        invariant i <= k <= j
        invariant s[i] <= s[k]
        invariant k > i ==> s[i] < s[k]
      {
        k := k + 1;
      }
    }
  }

  lemma GroupsDistinct(t: PasswordType, special: bool, safe: bool)
    ensures Distinct(DigitGroup(safe)) && Distinct(LowerGroup(t, safe))
    ensures Distinct(UpperGroup(t, safe)) && Distinct(SpecialGroup(special))
  {
    IncreasingDistinct(NUMBERS_SAFE);
    assert NUMBERS == NUMBERS_SAFE + "0";
    DistinctAppend(NUMBERS_SAFE, "0");
    IncreasingDistinct(LOWERCASE);
    IncreasingDistinct(LOWERCASE_SAFE);
    IncreasingDistinct(UPPERCASE);
    IncreasingDistinct(UPPERCASE_SAFE);
    assert Distinct(SPECIAL);
  }

  /** No character occurs twice in any pool: every group is duplicate-free
      and the four groups lie in disjoint character classes. */
  lemma PoolDistinct(t: PasswordType, special: bool, safe: bool)
    ensures Distinct(Pool(t, special, safe))
  {
    var d, l, u, s := DigitGroup(safe), LowerGroup(t, safe), UpperGroup(t, safe), SpecialGroup(special);
    GroupsDistinct(t, special, safe);
    forall c | c in d ensures c !in l {
      DigitGroupMembers(safe, c);
      LowerGroupMembers(t, safe, c);
    }
    DistinctAppend(d, l);
    forall c | c in d + l ensures c !in u {
      DigitGroupMembers(safe, c);
      LowerGroupMembers(t, safe, c);
      UpperGroupMembers(t, safe, c);
    }
    DistinctAppend(d + l, u);
    forall c | c in d + l + u ensures c !in s {
      DigitGroupMembers(safe, c);
      LowerGroupMembers(t, safe, c);
      UpperGroupMembers(t, safe, c);
    }
    DistinctAppend(d + l + u, s);
  }

  /** The specials are neither digits nor letters. */
  lemma SpecialsAreSymbols(c: char)
    requires c in SPECIAL
    ensures !IsDigit(c) && !IsLetter(c)
  {
  }

  /** No pool holds `q` or `Q`; a safe pool holds none of `0`, `l`, `I`,
      `O`. */
  lemma PoolExclusions(t: PasswordType, special: bool, safe: bool)
    ensures 'q' !in Pool(t, special, safe) && 'Q' !in Pool(t, special, safe)
    ensures safe ==> LookAlikesAbsent(Pool(t, special, safe))
  {
    var p := Pool(t, special, safe);
    forall c | c in p && (c == 'q' || c == 'Q' || (safe && c in "0lIO"))
      ensures false
    {
      PoolMembers(t, special, safe, c);
      if c in SPECIAL {
        SpecialsAreSymbols(c);
      }
    }
  }

  /** None of `0`, `l`, `I`, `O` occurs in `pool`. */
  predicate LookAlikesAbsent(pool: string)
  {
    '0' !in pool && 'l' !in pool && 'I' !in pool && 'O' !in pool
  }

  /** Safe mode keeps the look-alikes `i`, `o` and `L` whenever their group
      is selected. */
  lemma SafeKeepsLookAlikes(t: PasswordType, special: bool)
    ensures HasLowercase(t) ==> 'i' in Pool(t, special, true) && 'o' in Pool(t, special, true)
    ensures HasUppercase(t) ==> 'L' in Pool(t, special, true)
  {
    PoolMembers(t, special, true, 'i');
    PoolMembers(t, special, true, 'o');
    PoolMembers(t, special, true, 'L');
  }

  /** Every pool starts with the digit group: `1`..`9` followed, outside
      safe mode, by `0`. */
  lemma PoolStartsWithDigits(t: PasswordType, special: bool, safe: bool)
    ensures |DigitGroup(safe)| == (if safe then 9 else 10)
    ensures Pool(t, special, safe)[..|DigitGroup(safe)|] == DigitGroup(safe)
    ensures Pool(t, special, safe)[..9] == "123456789"
    ensures !safe ==> Pool(t, special, safe)[9] == '0'
  {
    var d := DigitGroup(safe);
    PrefixOfAppend(d, LowerGroup(t, safe) + UpperGroup(t, safe) + SpecialGroup(special));
    assert NUMBERS == NUMBERS_SAFE + "0";
    assert d[..9] == NUMBERS_SAFE;
  }

  lemma PrefixOfAppend(d: string, rest: string)
    ensures (d + rest)[..|d|] == d
    ensures forall n :: 0 <= n <= |d| ==> (d + rest)[..n] == d[..n]
    ensures forall k :: 0 <= k < |d| ==> (d + rest)[k] == d[k]
  {
  }

  /** A numeric pool holds digits, and specials if requested, but no
      letters. */
  lemma NumericHasNoLetters(special: bool, safe: bool, c: char)
    requires c in Pool(Numeric, special, safe)
    ensures !IsLetter(c)
    ensures IsDigit(c) || c in SPECIAL
  {
    PoolMembers(Numeric, special, safe, c);
  }

  /** Special characters appear only when requested, and then they form
      the last ten characters of the pool. */
  lemma SpecialsLast(t: PasswordType, special: bool, safe: bool)
    ensures special ==>
      |Pool(t, special, safe)| >= 10 && Pool(t, special, safe)[|Pool(t, special, safe)| - 10..] == SPECIAL
    ensures !special ==> forall c :: c in SPECIAL ==> c !in Pool(t, special, safe)
  {
    if !special {
      forall c | c in SPECIAL ensures c !in Pool(t, special, safe) {
        PoolMembers(t, special, safe, c);
      }
    }
  }
}
