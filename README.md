# Password generator core, modelled in Dafny

The repository is a Tkinter desktop password generator. Its only logic sits
in the class `PasswordGenerator` of `Password_Generator.py`. This project
models that logic and proves properties of it:

- **Charset** (`Charset.dfy`): the four fixed alphabets (`string.ascii_uppercase`,
  `string.ascii_lowercase`, `string.digits`, the symbol string
  `!@#$%^&*()_+-=[]{}|;:,.<>?`), the ASCII character classes, and the alphabet
  `chars` that the four check boxes build. `CollectChars` repeats the
  `chars += ...` steps.
- **Strength** (`Strength.dfy`): `check_strength` as a pure function. It gives one
  point for each of five criteria, and the score maps to Weak, Medium or
  Strong. `Label` gives the three label texts the source returns.
- **Generation** (`Generation.dfy`): drawing `length` characters from the alphabet
  (`DrawPassword`), and lemmas on what the selection does and does not decide
  about the rating of a drawn password.
- **History** (`History.dfy`): history entries, the list-box view
  `reversed(history[-10:])`, and the list-box lines (timestamp, password and strength label).
- **App** (`App.dfy`): the `PasswordGenerator` object, cut down to the two pieces of
  state its logic updates: the `history` list and the lines of the history list box.
  The lines are the field `listing`. Its methods are `generate_password` and
  `update_history_display`, plus the constructor, which loads the history.

Environment inputs are parameters:
- `random.choice(chars)` is a nondeterministic choice of a position in `[0, |chars|)`.
- The `datetime.now().strftime(...)` text is an opaque `timestamp` string.
- The length spin box and the four check boxes are the `length` and `Selection` arguments.
- What `load_history` read is an `Option` given to the constructor. `None` stands for a missing file.

Behaviour of the code that the model keeps:
- `range(length)` with `length <= 0` draws nothing. The empty password is then
  rated Weak and recorded like any other (`Requested`, `DrawPassword`,
  `EmptyPasswordIsWeak`).
- With no class selected, a warning is shown and the method returns.
  `GeneratePassword` returns `None` and changes no state.
- `Abcdefghijk1` scores 4 points (length, lower, upper, digit) and is Medium
  (`MediumExample`).
- A password drawn with only digits and symbols selected has no letters. It
  scores at most 3 and is never Strong (`DigitsAndSymbolsAtMostMedium`,
  `NoLettersAtMostMedium`).

## Model

| member | source | states |
|---|---|---|
| Charset.Alphabet | Password_Generator.py:94-102 | the alphabet is empty exactly when no check box is set; its length is 26 for each selected letter or symbol class and 10 for digits |
| Charset.CollectChars | Password_Generator.py:94-102 | the `chars +=` steps build exactly the alphabet of the selection |
| Charset.UppercaseMembers | Password_Generator.py:96 | `string.ascii_uppercase` holds exactly the ASCII upper-case letters |
| Charset.LowercaseMembers | Password_Generator.py:98 | `string.ascii_lowercase` holds exactly the ASCII lower-case letters |
| Charset.DigitsMembers | Password_Generator.py:100 | `string.digits` holds exactly the ASCII digits |
| Charset.ClassesDisjoint | Password_Generator.py:127-133 | no character is in two of the classes upper, lower, digit, symbol |
| Charset.AlphabetMembers | Password_Generator.py:94-102 | a character is in the alphabet if and only if it belongs to a selected class |
| Charset.AlphabetInClassOrder | Password_Generator.py:94-102 | for every selection, upper-case letters precede lower-case letters, which precede digits, which precede symbols |
| Strength.Score | Password_Generator.py:124-134 | the score is at most 5, and it is 5 exactly when all five criteria hold |
| Strength.CheckStrength | Password_Generator.py:123-144 | Weak if and only if score ≤ 2, Medium if and only if score is 3 or 4, Strong if and only if all five criteria hold |
| Strength.LabelInjective | Password_Generator.py:136-144 | the three label texts differ, so a recorded label determines the level |
| Strength.LevelMonotone | Password_Generator.py:136-144 | a higher score never gives a lower level |
| Strength.ShortNeverStrong | Password_Generator.py:125-144 | a password shorter than 12 characters is never Strong |
| Strength.NoSymbolNeverStrong | Password_Generator.py:133-144 | a password with no character of the symbol string is never Strong |
| Strength.NoLettersAtMostMedium | Password_Generator.py:127-144 | a password without letters scores at most 3 and is never Strong |
| Strength.EmptyPasswordIsWeak | Password_Generator.py:124-138 | the empty password scores 0 and is Weak |
| Strength.WeakExample | Password_Generator.py:123-144 | `abcdefgh` scores 1 and is Weak |
| Strength.MediumExample | Password_Generator.py:123-144 | `Abcdefghijk1` scores 4 and is Medium |
| Strength.StrongExample | Password_Generator.py:123-144 | `Abcdefghijk1!` scores 5 and is Strong |
| Generation.DrawPassword | Password_Generator.py:108 | for a non-empty alphabet the password has `length` characters (none when `length` ≤ 0), each a member of the alphabet |
| Generation.DrawnClasses | Password_Generator.py:94-108 | a drawn password contains a character of a class only if that class was selected |
| Generation.ScoreBoundedBySelection | Password_Generator.py:94-134 | a drawn password scores at most the length point plus the number of selected classes |
| Generation.StrongNeedsFullSelection | Password_Generator.py:94-144 | a drawn password is Strong only if all four classes were selected and at least 12 characters were drawn |
| Generation.DigitsAndSymbolsAtMostMedium | Password_Generator.py:94-144 | a password drawn with only digits and symbols selected is never Strong |
| Generation.UnluckyDrawIsWeak | Password_Generator.py:108-112 | with all four classes selected, the 12-character draw `AAAAAAAAAAAA` is possible and is Weak: the rating follows the content, not the request |
| Generation.LuckyDrawIsStrong | Password_Generator.py:108-112 | with all four classes selected, the draw `Abcdefghijk1!` is possible and is Strong |
| History.Reverse | Password_Generator.py:161 | `reversed` keeps the length and puts the element at position i at position k-1-i |
| History.LastEntries | Password_Generator.py:161 | `history[-10:]` is the final min(10, k) entries of the history, in order |
| History.RecentShape | Password_Generator.py:161 | the view of a k-entry history has min(10, k) entries; entry i of the view is the i-th most recent entry |
| History.RecentAfterAppend | Password_Generator.py:115-121 | after an append the view starts with the new entry, followed by the previous view without its oldest entry once the view is full |
| History.RecentIgnoresOlder | Password_Generator.py:161 | entries older than the last ten do not affect the view |
| History.Render | Password_Generator.py:161-162 | one list-box line per entry of the view, in order: line i is the formatted line of entry i |
| History.Recent | Password_Generator.py:161 | `reversed(history[-10:])`; its shape is stated by `RecentShape`, its change on append by `RecentAfterAppend` and its independence from older entries by `RecentIgnoresOlder` |
| History.Line | Password_Generator.py:162 | the f-string that joins the timestamp, the password and the strength label with vertical-bar separators; `Render` states that each list-box line is this line of its entry |
| Strength.Label | Password_Generator.py:136-144 | the three label texts returned for Weak, Medium and Strong; `LabelInjective` states that they are distinct |
| Strength.LevelOf | Password_Generator.py:136-144 | the score-to-level branches; `CheckStrength` states the three cases as if-and-only-if |
| Strength.HasLower | Password_Generator.py:127 | `any(c.islower() for c in password)`; `Score` counts it as one point |
| Strength.HasUpper | Password_Generator.py:129 | `any(c.isupper() for c in password)`; `Score` counts it as one point |
| Strength.HasDigit | Password_Generator.py:131 | `any(c.isdigit() for c in password)`; `Score` counts it as one point |
| Strength.HasSymbol | Password_Generator.py:133 | `any(c in symbols for c in password)`; `NoSymbolNeverStrong` states that Strong needs it |
| Charset.IsUpper | Password_Generator.py:129 | `str.isupper` on ASCII; `UppercaseMembers` states that it holds exactly for `string.ascii_uppercase` |
| Charset.IsLower | Password_Generator.py:127 | `str.islower` on ASCII; `LowercaseMembers` states that it holds exactly for `string.ascii_lowercase` |
| Charset.IsDigit | Password_Generator.py:131 | `str.isdigit` on ASCII; `DigitsMembers` states that it holds exactly for `string.digits` |
| Charset.Extend | Password_Generator.py:95-102 | one `chars +=` step guarded by its check box; `CollectChars` states that the four steps build `Alphabet` |
| Generation.Requested | Password_Generator.py:108 | the number of iterations of `range(length)`, 0 for `length <= 0`; `DrawPassword` states that the password has this length |
| App.PasswordGenerator.constructor | Password_Generator.py:19-29 | the history is what was loaded, or empty when the file is missing, and the list box shows its view |
| App.PasswordGenerator.UpdateHistoryDisplay | Password_Generator.py:159-162 | the list box holds exactly the lines of the last ten entries, most recent first, and the history is unchanged |
| App.PasswordGenerator.GeneratePassword | Password_Generator.py:92-121 | with an empty alphabet nothing is produced and no state changes. Otherwise a password of the requested length is drawn only from the alphabet. Exactly one entry (the password, the timestamp, its rating) is appended, earlier entries stay unchanged, and the new entry is shown on the top line. |

## Left out

- Tkinter/ttk widgets, themes, message boxes and label colouring (Password_Generator.py:13-22, 35-90, 105, 109-113, 137-143): these are presentation. The model keeps only the history list-box lines.
- The password entry field and the strength label text (Password_Generator.py:109-113): these are presentation. `GeneratePassword` returns the password instead.
- `copy_to_clipboard` (Password_Generator.py:146-150): a call into `pyperclip`.
- `export_history` (Password_Generator.py:152-157): a file dialog and `pandas` CSV output, which are foreign code and file I/O.
- `load_history` and `save_history` (Password_Generator.py:24-33, 120): JSON file I/O. The loaded value is a constructor parameter. Saving after the append is not modelled. An unreadable file, which raises in the source, is not modelled.
- `random.choice` and `datetime.now` (Password_Generator.py:108, 117): randomness and the clock. They are a nondeterministic choice and a parameter. Uniformity and unpredictability are not modelled.
- `str.islower`, `str.isupper` and `str.isdigit` beyond ASCII: they are modelled as ASCII range checks. Nothing is lost: `check_strength` is called only at Password_Generator.py:112, on a password just drawn from the ASCII alphabet, and loaded entries are never rated.
- History entries hold the level as a `Level` value, and `Label` gives the text the source stores. A loaded entry whose strength text is not one of the three labels cannot be represented.
