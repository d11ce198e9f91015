# Password generators, modelled in Dafny

A model of the password-generation core of the Password Generator Dashboard:
the abstract `PasswordGenerator` with its one operation `generate()`, and its
three implementations.

- `RandomPasswordGenerator` builds a character universe once, at
  construction: the 52 ASCII letters, then the 10 digits if
  `include_numbers`, then the 32 punctuation characters if `include_symbols`.
  `generate()` draws `length` characters from it.
- `PinCodeGenerator.generate()` draws `length` characters from `'0'..'9'`.
- `MemorablePasswordGenerator.generate()` picks `number_of_words` words from
  the vocabulary. With `capitalize` set, each word becomes either its
  capitalized or its lower-case form, by a coin toss. The words are then
  joined with `separator`.

Files:

- `ascii.dfy` (module `Ascii`): `string.ascii_letters`, `string.digits` and
  `string.punctuation` as constant sequences, built from ASCII code ranges
  and proved equal to Python's literal values. Also the ASCII part of
  `str.lower` and `str.capitalize`.
- `strings.dfy` (module `Strings`): `str.join`, and `str.split` on a
  one-character separator as its partner.
- `password_generator.dfy` (module `PasswordGenerators`): the three
  generator classes and the common `generate()` contract.

Randomness is an explicit oracle. `picks[i]` is the index that the i-th call
of `random.choice` returns on a sequence. `coins[i]` is the value the i-th
call of `random.choice([True, False])` returns. Each `Generate` is a loop
that follows the list comprehension of the source. Its contract ties the
result to a specification function of the configuration and the oracle.
Two kinds of lemmas then bracket the possible outputs:

- every output has the promised shape;
- every string of that shape is the output for some oracle
  (`ChoicesReachEvery`, `MemorableReachesEvery`, `OutputsAreAdmissible`).

Configuration fields are `const`: they are assigned in the constructor and
cannot change afterwards. So repeated `generate()` calls draw from the same
universe. The constructors keep the source's default arguments. The
vocabulary is the exception: its default is the nltk word list, which is not
modelled, so it must be passed.

The source leaves these cases unchecked; the model follows what the code
does:

- A non-positive `length` or `number_of_words` is not an error. `range(n)`
  is then empty, and the result is the empty string.
- The empty-vocabulary failure happens only when a word must be picked,
  that is, when `number_of_words > 0`. With `number_of_words <= 0` and an
  empty vocabulary the result is the empty string.

## Model

| member | source | states |
|---|---|---|
| `Ascii.LettersMembership` | src/password_generator.py:71 | a character is in `ascii_letters` iff it is an ASCII lower- or upper-case letter |
| `Ascii.DigitsMembership` | src/password_generator.py:73 | a character is in `digits` iff it is `'0'..'9'` |
| `Ascii.PunctuationMembership` | src/password_generator.py:75 | a character is in `punctuation` iff it is printable ASCII and neither a letter nor a digit |
| `Ascii.ConstantsAsWritten` | src/password_generator.py:71-75 | the three constants have 52, 10 and 32 characters and equal Python's literal values, in Python's order |
| `Ascii.Lower` | src/password_generator.py:53 | `word.lower()`: same length; every upper-case letter becomes its lower-case partner (code + 32); every other character kept; so no upper-case letter is left |
| `Ascii.Capitalize` | src/password_generator.py:53 | `word.capitalize()`: same length, first character not lower case, the rest is the lower-case form; same lower-case form as the word |
| `Ascii.LowerIdempotent` | src/password_generator.py:53 | lower-casing twice is lower-casing once |
| `Ascii.LowerFixedPoint` | src/password_generator.py:53 | a word is its own lower-case form iff it holds no upper-case letter |
| `Ascii.CapitalizeIdempotent` | src/password_generator.py:53 | capitalizing twice is capitalizing once |
| `Ascii.CapitalizeOfLower` | src/password_generator.py:53 | capitalizing ignores the case the word was stored in |
| `Strings.Join` | src/password_generator.py:54 | `separator.join(words)`: no words join to the empty string; a join of n >= 1 words starts with the first word |
| `Strings.JoinEndsWithLast` | src/password_generator.py:54 | a join of n >= 1 words ends with the last word |
| `Strings.JoinLength` | src/password_generator.py:54 | n >= 1 joined words have the sum of the word lengths plus (n-1) separator lengths |
| `Strings.JoinSnoc` | src/password_generator.py:54 | joining one more word appends the separator and the word |
| `Strings.SplitJoin` | src/password_generator.py:54 | splitting a join of n >= 1 words on a one-character separator that no word contains gives back the words |
| `Strings.SplitJoinCount` | src/password_generator.py:54 | such a split yields exactly n pieces |
| `PasswordGenerators.Choices` | src/password_generator.py:51 | repeated `random.choice` on one population yields one element per pick, each from the population |
| `PasswordGenerators.ChoicesReachEvery` | src/password_generator.py:84 | every sequence of `max(n, 0)` population elements is chosen by some in-range picks |
| `PasswordGenerators.Universe` | src/password_generator.py:71-75 | `all_choices` for the two flags: 52 + 10 + 32 characters as flagged, always starting with the 52 letters |
| `PasswordGenerators.UniverseMembership` | src/password_generator.py:70-75 | a character is in `all_choices` iff it is a letter, or a digit with `include_numbers`, or punctuation with `include_symbols` |
| `PasswordGenerators.UniverseClasses` | src/password_generator.py:71-75 | all letters always; all digits iff `include_numbers`, none otherwise; all punctuation iff `include_symbols`, none otherwise |
| `PasswordGenerators.UniverseLayout` | src/password_generator.py:71-75 | the digits right after the letters when included, the punctuation last when included; letters only when both flags are off |
| `PasswordGenerators.FlagsEnlargeUniverse` | src/password_generator.py:72-75 | turning either flag on, whatever the other flag, keeps every character and adds new ones (`'0'` for numbers, `'!'` for symbols) |
| `PasswordGenerators.RandomPasswordGenerator.constructor` | src/password_generator.py:60-75 | `length` as given; `all_choices` built by the conditional appends equals the universe of the two flags |
| `PasswordGenerators.RandomPasswordGenerator.Generate` | src/password_generator.py:78-84 | exactly `max(length, 0)` characters, each in `all_choices`; the join of the picks |
| `PasswordGenerators.PinCodeGenerator.constructor` | src/password_generator.py:88-94 | `length` as given |
| `PasswordGenerators.PinCodeGenerator.Generate` | src/password_generator.py:96-102 | exactly `max(length, 0)` characters, each a decimal digit; a string, so leading zeros stay |
| `PasswordGenerators.Styled` | src/password_generator.py:53 | one word per input word, each its capitalized or its lower-case form |
| `PasswordGenerators.MemorableWords` | src/password_generator.py:51-53 | one word per pick, each a vocabulary entry (or, when capitalizing, its lower-case or capitalized form) |
| `PasswordGenerators.MemorablePassword` | src/password_generator.py:45-54 | fails iff `number_of_words > 0` and the vocabulary is empty; otherwise `max(number_of_words, 0)` admissible words joined by the separator |
| `PasswordGenerators.MemorableReachesEvery` | src/password_generator.py:45-54 | every join of `max(n, 0)` admissible words is produced by some picks and coins |
| `PasswordGenerators.MemorableLength` | src/password_generator.py:51-54 | a memorable password of n >= 1 words has the sum of the word lengths plus (n-1) separator lengths |
| `PasswordGenerators.MemorableSplit` | src/password_generator.py:51-54 | with a one-character separator absent from every admissible form of every vocabulary entry, splitting the password gives back its n >= 1 words |
| `PasswordGenerators.ExampleOutputs` | src/password_generator.py:51-54 | "042918" is a possible six-digit PIN; "cat-dog-sun" a possible three-word password over cat, dog, sun |
| `PasswordGenerators.MemorablePasswordGenerator.constructor` | src/password_generator.py:37-43 | the four configuration fields as given (explicit vocabulary) |
| `PasswordGenerators.MemorablePasswordGenerator.Generate` | src/password_generator.py:45-54 | fails exactly on a pick from an empty vocabulary; otherwise the separator-join of `max(number_of_words, 0)` admissible words |
| `PasswordGenerators.DefaultConfigurations` | src/password_generator.py:25-102 | the default arguments: length 8 with digits and symbols; PIN length 8; 4 words, separator "-", no capitalizing; given only length 12 and no symbols, the digits stay |
| `PasswordGenerators.Output` | src/password_generator.py:14-19 | `generate()` on any variant fails only for the memorable one on an empty vocabulary, and otherwise yields an admissible password |
| `PasswordGenerators.OutputsAreAdmissible` | src/password_generator.py:14-19 | a password is admissible for a generator iff some oracle makes `generate()` return it |
| `PasswordGenerators.Generate` | src/password_generator.py:14-19 | dispatching `generate()` gives that variant's outcome; the failure case and admissibility as for `Output` |
| `PasswordGenerators.GenerateTwice` | src/password_generator.py:37-102 | two calls on one generator both succeed or both fail, and both results are admissible for the same configuration |

## Left out

- `PasswordGenerator` as an open base class: the model has no traits, so the base is the closed datatype `PasswordGenerator` over the three classes, with a dispatching `Generate`. A fourth subclass cannot be added without editing the datatype.
- `nltk.download('words')` and the default vocabulary `nltk.corpus.words.words()` (src/password_generator.py:7, 40-41): disk and network I/O into a foreign library. Only the caller-supplied vocabulary is modelled, so the constructor's `vocabulary` parameter has no default.
- The distribution of `random.choice` (uniform, independent draws): probabilities cannot be stated in these contracts. Each pick is an arbitrary in-range oracle value.
- The exception raised by `random.choice` on an empty list: modelled as the `Failure(EmptyVocabulary)` result, not as an `IndexError`.
- Unicode case mapping of `str.lower` and `str.capitalize`: only ASCII letters change case in the model.
- Vocabulary aliasing: the Python generator keeps a reference to the caller's list, which the caller could still mutate. The model keeps the vocabulary as a value.
- `Strings.SplitJoin`: stated for a one-character separator only. For a longer separator the round trip can fail even when no word contains it. The words "a" and "b" with separator "aa" join to "aaab", which splits into "" and "ab".
- `PasswordGenerators.MemorableSplit`: stated for a one-character separator only, for the same reason as `Strings.SplitJoin`.
- The Streamlit page in src/dashboard.py (sliders for 4–32 characters and 4–10 words, toggles, text input, image, output): user-interface plumbing.
- The commented-out `main` (src/password_generator.py:105-114).
