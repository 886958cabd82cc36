# Password generator, versions 1.3.2 and 2.0.1

A Dafny model of a small command-line password generator that exists in two
versions: `genpasswd.py` (1.3.2) and `pwdgen.py` (2.0.1). Both versions:

- validate the password type and two counts given on the command line;
- build a character pool from seven fixed tables (digits, lowercase,
  uppercase, their "safe" variants without look-alike characters, and ten
  specials);
- draw `count` passwords of `length` characters from the pool, seeding
  Python's generator from the operating system's entropy source;
- print them, three to a line or all on one line ("compact").

The modules follow that structure:

- `Common` (common.dfy): validator results (`Ok` or `ArgumentTypeError`), the
  objects a validator receives, and what the positivity validators return.
- `Text` (common.dfy): Python's `str.lower` on ASCII, `str.join`, and
  character counting.
- `Charsets` (charsets.dfy): the seven tables, which are identical in both
  versions; the password types; the pool as a function (`Pool`); and what
  is proved about every pool.
- `Sampling` (sampling.dfy): the sampler over an abstract stream of pool
  indices (`Batch`), and its shape and reachability lemmas.
- `GenPasswd` (genpasswd.dfy) and `PwdGen` (pwdgen.dfy): each version's
  validators, pool builder, generator and output layout.
- `Versions` (versions.dfy): what stayed the same between the versions, and
  how the output layout changed.

Randomness is an input. `Sampling.Entropy` is either `Unavailable(message)`,
meaning `os.urandom` raised `NotImplementedError`, or `Seeded(draws)`. In the
second case `draws[k]` is the pool index that the k-th draw of
`random.choices` picks. Password `i` uses draws `i * size` up to
`i * size + size - 1`. The outcome of `int(value)` is an input too, as
`Option<int>`.

`str.lower` is modelled on ASCII only and leaves other characters
unchanged. This does not change which strings the type validator accepts.
Python lowers only two non-ASCII characters into ASCII: U+212A becomes `k`,
and U+0130 becomes `i` followed by U+0307. Neither result can complete an
alias. So `PassTypeAccepts` describes exactly the strings that Python
accepts.

When `os.urandom` raises `NotImplementedError`, both versions print a
message and return an empty list (genpasswd.py:136-139, pwdgen.py:155-159).
The model returns the empty list as well. The positivity validators build an
`ArgumentTypeError` for text that `int()` cannot parse but never raise it
(genpasswd.py:51-53, pwdgen.py:51-53), so such text passes validation; see
Findings.

## Model

| member | source | states |
|---|---|---|
| `Charsets.DigitGroupMembers` | genpasswd.py:35-36 | The digit table holds exactly `0`..`9`; the safe table holds the same digits without `0`. |
| `Charsets.LowerGroupMembers` | genpasswd.py:19-26 | The lowercase group holds exactly `a`..`z` without `q`; the safe group also drops `l`. |
| `Charsets.UpperGroupMembers` | genpasswd.py:27-34 | The uppercase group holds exactly `A`..`Z` without `Q`; the safe group also drops `I` and `O`. |
| `Charsets.GroupsDistinct` | genpasswd.py:19-37 | No table repeats a character. |
| `Charsets.PoolMembers` | genpasswd.py:117-125 | A character is in the pool exactly when `Admits` holds. `Admits` describes the pool by character class, not by table: the allowed digits, plus the allowed lowercase letters if the type selects them, plus the allowed uppercase letters if the type selects them, plus the specials if requested. |
| `Charsets.PoolSize` | genpasswd.py:117-125 | The pool size is 10 or 9 digits, plus 25 or 24 lowercase letters, plus 25 or 23 uppercase letters, plus 10 specials, each group counted only if selected. So every pool holds between 9 and 70 characters. |
| `Charsets.PoolDistinct` | genpasswd.py:117-125 | No character occurs twice in any pool. |
| `Charsets.PoolExclusions` | genpasswd.py:19-37 | No pool contains `q` or `Q`. A safe pool contains none of `0`, `l`, `I`, `O`. |
| `Charsets.SafeKeepsLookAlikes` | genpasswd.py:23-34 | Safe mode still keeps `i`, `o` and `L` when their group is selected. |
| `Charsets.PoolStartsWithDigits` | genpasswd.py:118 | Every pool starts with `123456789`, followed by `0` outside safe mode. |
| `Charsets.NumericHasNoLetters` | genpasswd.py:118-124 | A NUMERIC pool holds only digits and, if requested, specials, and never a letter. |
| `Charsets.SpecialsLast` | genpasswd.py:123-124 | With the special flag, the last ten pool characters are the specials in table order. Without it, the pool holds no special character. |
| `Sampling.Choices` | genpasswd.py:134 | One password has exactly `size` characters, each taken from the pool: character `j` is the pool character at draw `start + j`. |
| `Sampling.BatchShape` | pwdgen.py:151-153 | The generator returns exactly `count` passwords of exactly `size` characters each. Password `i` is the `random.choices` result for draws `i * size` onwards (by `Choices`, character `j` is the pool character at draw `i * size + j`), so every character belongs to the pool. |
| `Sampling.BatchSnoc` | genpasswd.py:132-135 | Building one more password appends one password to the list. |
| `Sampling.BatchReaches` | pwdgen.py:151-153 | Any list of passwords with the right count and length, built from pool characters, is produced by some draw stream. So the sampler rules out no well-formed result. |
| `GenPasswd.Positive` | genpasswd.py:47-53 | `_positive` raises exactly for numbers at most zero, with the message "value should be a positive number". It returns a positive number unchanged. It returns unparsable text unchanged, because the `ValueError` branch never raises. |
| `GenPasswd.PositiveChecked` | genpasswd.py:47-53 | Corrected `_positive`: it accepts exactly the arguments that parse to a positive integer and returns that integer. |
| `GenPasswd.PositiveAgreesWhenParsed` | genpasswd.py:47-53 | `Positive` and `PositiveChecked` agree on every argument that `int()` parses. They disagree on every argument it does not parse. |
| `GenPasswd.PositiveLetsTextThrough` | genpasswd.py:51-53 | `_positive` returns the argument `"abc"` unchanged, while the corrected validator rejects it. |
| `GenPasswd.AliasKeys` | genpasswd.py:57-62 | The dictionary's keys are exactly the eight short and long aliases, and each maps to its own type. |
| `GenPasswd.PassTypeAccepts` | genpasswd.py:56-66 | `_pass_type` returns type `t` exactly for strings that spell `t`'s short or long alias in any mix of cases. It raises "unsupported password type" for every other string and for every non-string. |
| `GenPasswd.PassTypeOfValue` | genpasswd.py:40-44 | Each member's value (`'num'`, `'low'`, `'upp'`, `'std'`) is accepted by `_pass_type` and yields that member. |
| `GenPasswd.CharacterPoolGenerator` | genpasswd.py:117-125 | The pool built step by step equals `Pool`. It has no duplicates, at least 9 characters, no `q` or `Q`, and in safe mode none of `0`, `l`, `I`, `O`. |
| `GenPasswd.PasswordsGenerator` | genpasswd.py:128-139 | If seeding fails, the list is empty. Otherwise the loop yields `Batch`: exactly `pass_count` passwords of `pass_size` pool characters each. |
| `GenPasswd.PrintPasswords` | genpasswd.py:142-147 | The text written by the `enumerate` loop is `PasswordsText`: each password followed by its `end=` terminator. |
| `GenPasswd.CompactText` | genpasswd.py:144-145 | Compact output is the passwords joined by single spaces, plus a trailing space. It is empty for no passwords. |
| `GenPasswd.NewlineCount` | genpasswd.py:142-147 | For newline-free passwords, the output holds `n / 3` newlines (rounded down), or none in compact mode. |
| `GenPasswd.LastLine` | genpasswd.py:147 | For a non-empty list, non-compact output ends in a newline exactly when `n` is a multiple of three. Otherwise the last line is unterminated and ends in four spaces. |
| `PwdGen.ValuesDistinct` | pwdgen.py:40-44 | The members' values 1 to 4 are pairwise distinct, so no member is an alias of another. |
| `PwdGen.PositiveNum` | pwdgen.py:47-53 | `_positive_num` raises exactly for numbers at most zero, with the message "should be a positive number". It returns positive numbers and unparsable text unchanged. |
| `PwdGen.PositiveNumChecked` | pwdgen.py:47-53 | Corrected `_positive_num`: it accepts exactly the arguments that parse to a positive integer. |
| `PwdGen.PositiveNumLetsTextThrough` | pwdgen.py:51-53 | `_positive_num` returns `"abc"` unchanged, while the corrected validator rejects it. |
| `PwdGen.AliasKeys` | pwdgen.py:56-61 | `_VALID_PASS_TYPES` has exactly the eight aliases as keys, and each maps to its own type. |
| `PwdGen.PassTypeAccepts` | pwdgen.py:64-67 | `_pass_type` returns type `t` exactly for strings that spell one of `t`'s aliases in any mix of cases. It raises "unsupported password type" for every other string and for every non-string. |
| `PwdGen.DefaultPassType` | pwdgen.py:83-89 | The default type string `'std'` resolves to STANDARD. |
| `PwdGen.GetCharacterPool` | pwdgen.py:133-145 | The pool equals `Pool`, the same pool the old version builds. It has no duplicates, at least 9 characters, no `q` or `Q`, and in safe mode none of `0`, `l`, `I`, `O`. |
| `PwdGen.GeneratePasswords` | pwdgen.py:148-159 | On `NotImplementedError` the result is the empty list. Otherwise it is exactly `pass_count` passwords of `pass_size` characters, all from the pool. |
| `PwdGen.PrintResults` | pwdgen.py:162-167 | The text written equals `ResultsText`. Non-compact mode prints one line per chunk of three. Compact mode prints the space-joined list and a newline. |
| `PwdGen.LinesFrom` | pwdgen.py:164-165 | The output from password `i` onward starts with `passwords[i:i+3]` joined by four spaces and a newline. |
| `PwdGen.LinesAreChunks` | pwdgen.py:163-165 | Non-compact output is `ceil(n / 3)` lines. Line `k` is `passwords[3k:3k+3]` joined by four spaces and ends in a newline, so no line holds more than three passwords. |
| `PwdGen.NewlineCount` | pwdgen.py:162-167 | For newline-free passwords, non-compact output holds `ceil(n / 3)` newlines and ends in one, unless the list is empty, which prints nothing. Compact output holds exactly one newline, at the end. |
| `PwdGen.CompactLine` | pwdgen.py:166-167 | Compact output separates passwords with single spaces and puts no separator after the last one. |
| `Versions.SamePassType` | pwdgen.py:56-67 | Both versions' `_pass_type` give the same result on every argument. |
| `Versions.PositiveOnlyMessageDiffers` | pwdgen.py:47-53 | `_positive_num` accepts and rejects exactly the arguments `_positive` does and returns the same values; only the error message differs, by the leading word "value". |
| `Versions.OldTextAppend` | genpasswd.py:143-147 | The old layout restarts after every third password: laying out `3m` passwords and then more passwords gives the two texts concatenated. |
| `Versions.OldTextShort` | genpasswd.py:147 | The old layout of one, two and three passwords, spelled out. |
| `Versions.NewTextShort` | pwdgen.py:164-165 | The new layout of one, two and three passwords, spelled out. |
| `Versions.LayoutChange` | pwdgen.py:162-165 | Without compact mode, the old and new texts are equal when `n` is a multiple of three. Otherwise the old text is the new one with its final newline replaced by four spaces. |
| `Versions.CompactChange` | pwdgen.py:166-167 | In compact mode, the old text is the new one with its final newline replaced by a space. For an empty list the old text is empty and the new one is a single newline. |

## Findings

| source | as written | input that shows it | evidently intended | confidence | as-written member | corrected member |
|---|---|---|---|---|---|---|
| genpasswd.py:51-53 | The `except ValueError` branch builds `ArgumentTypeError` without raising it, and `_positive` returns its argument. | `-c abc`: the length `"abc"` passes validation (`GenPasswd.PositiveLetsTextThrough`). `random.choices(pool, k="abc")` then raises an unhandled `TypeError` instead of a usage error. | Raise `ArgumentTypeError`, so that unparsable text is rejected like a non-positive number. | high; not executed | `GenPasswd.Positive` | `GenPasswd.PositiveChecked` |
| pwdgen.py:51-53 | Same missing `raise` in `_positive_num`. | `-l abc`: the length `"abc"` passes validation (`PwdGen.PositiveNumLetsTextThrough`) and fails later inside `random.choices`. | Raise `ArgumentTypeError`. | high; not executed | `PwdGen.PositiveNum` | `PwdGen.PositiveNumChecked` |

The generators take the length and the count as natural numbers. That is the
type the corrected validators guarantee.

## Left out

- `commandmaker` in both versions: argument-parser setup, help and version
  text, and the program name taken from `sys.argv`. This is plumbing over a
  library outside the model. The `script()` glue of 1.3.2 and the
  `__main__` blocks with their `KeyboardInterrupt` handlers are left out
  for the same reason.
- `os.urandom`, `random.seed` and `random.choices`: replaced by the
  `Entropy` input and its stream of pool indices. Nothing is claimed about
  uniformity, independence, or different output across runs.
- The parsing rules of `int()` (whitespace, signs, underscores): its
  outcome is an input.
- Writes to standard output: each print routine returns its text instead.
  The `ERR: could not read /dev/urandom` message that both generators print
  on entropy failure is not part of the returned value.
- `Sampling.Covers`: requires a draw stream long enough for the request,
  with every index inside the pool. With an empty pool, Python's
  `random.choices` raises `IndexError`; the model excludes that case instead
  of modelling it. It cannot arise from the pool builder, whose pools have
  at least 9 characters.
- Non-integer lengths and counts reaching the generators are not modelled.
  They can only arise from the missing `raise` described under Findings.
