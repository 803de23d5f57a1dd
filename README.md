# passgen — a verified model of the password generator

This project models the password generator of `passgen.js` in Dafny. It covers:

- the length checks done by `generate`;
- `generatePassword`, which has two parts:
  - the minimum length implied by the ticked check boxes;
  - the weighted index space: lower-case and upper-case letters get 3 slots per character, digits 2, symbols 1;
- the mapping of a random index to a character;
- the rejection loop, which builds candidates until one passes `checkPassword` and gives up after attempt 101;
- `checkPassword`, the composition check that scans the password's characters by numeric code and sets one flag per character class.

Everything lives in one module, `PassGen` (`passgen.dfy`).

The form's inputs become a `Request`: the length, already parsed, plus the four check boxes. The result of `generate` is an `Outcome`: either the password or one of the four error messages.

`Math.random()` is replaced by an injected stream `rand: nat -> nat`. `rand(k)` stands for the value of `Math.floor(Math.random() * globalLen)` at the k-th call. `ValidSource` requires each draw to lie in `0 .. globalLen - 1`. When `globalLen` is 0, the only possible draw is 0.

The functional specification is made of `Candidate`, `Attempts`, `PasswordOutcome` and `GenerateOutcome`. The imperative methods, which keep the source's loops, are `CheckPassword`, `BuildCandidate`, `GeneratePassword` and `Generate`. Each method is proved equal to its specification function. The lemmas then establish what the generator promises.

Where the code and its stated design disagree, the model follows the code:

- A negative length passes the `=== 0` and `> 1000` tests. It is then refused by `len < minLen` with "Password length too short", not "Invalid length value".
- With no check box ticked, `globalLen` is 0, so every draw is 0 and maps to `SYMBOLS[0]`. The first candidate passes the check, because no class is required. The result is a password of backticks, not an error (`NoClassGivesBackticks`).
- The counter is incremented after each rejection and the loop fails once it exceeds 100. So up to 101 candidates are built before "Too many iterations".
- `checkPassword` sets the symbol flag for every character outside `0-9`, `A-Z` and `a-z`. That is broader than the `SYMBOLS` string.

## Model

| member | source | states |
|---|---|---|
| PassGen.MinLen | passgen.js:71-75 | the minimum length is at most 4 |
| PassGen.MinLenCountsClasses | passgen.js:71-75 | `minLen` equals the number of enabled classes; in particular it is 0 exactly when no class is enabled, and 4 exactly when all are |
| PassGen.EnabledClassesCount | passgen.js:71-75 | the set of enabled classes has as many elements as `minLen` (helper of `MinLenCountsClasses`) |
| PassGen.Classify | passgen.js:138-155 | the flag set for a character is Digit exactly for `0-9`, Upper exactly for `A-Z`, Lower exactly for `a-z`, and Symbol for everything else |
| PassGen.AlphabetsConsistent | passgen.js:1-13 | every character of each generation alphabet is classified as its own class; no alphabet repeats a character; the sizes are 26, 26, 10 and 29 |
| PassGen.SymbolAlphabetConsistent | passgen.js:2 | the 29 symbols are pairwise distinct and none is a letter or a digit |
| PassGen.AlphabetCharUnique | passgen.js:1-13 | a generation character identifies both its class and its position in that class's alphabet |
| PassGen.ComputeBounds | passgen.js:79-90 | the four boundaries are ordered, the class slots are adjacent and cover `0 .. globalLen`, `globalLen <= 205`, and `globalLen` is 0 exactly when no class is enabled |
| PassGen.SlotSizes | passgen.js:79-90 | an enabled class occupies alphabet length × factor slots (78, 78, 20, 29); a disabled class occupies none |
| PassGen.DrawRange | passgen.js:97 | the number of possible draws is at least 1, and it is `globalLen` whenever `globalLen` is positive |
| PassGen.ClassOfIndex | passgen.js:98-107 | defines which branch of the `if` chain an index takes |
| PassGen.IndexToChar | passgen.js:98-109 | defines the character appended for one draw, branch by branch; its properties are `IndexAtPosition`, `IndexInEnabledAlphabet` and `CharPreimages` |
| PassGen.IndexInEnabledAlphabet | passgen.js:97-109 | every index below `globalLen` lies in the slots of an enabled class, maps to a character of that class's alphabet, and `checkPassword` classifies that character as that class |
| PassGen.IndexInEnabledSlots | passgen.js:98-108 | the branch an index takes belongs to an enabled class whose slots contain the index |
| PassGen.IndexAtPosition | passgen.js:98-109 | the character appended is the alphabet entry at (index − class start) / factor, and that position is within the alphabet |
| PassGen.LowerIndexAtPosition | passgen.js:98-99 | helper of `IndexAtPosition` for the first branch: an index below `lowerLastNb` maps to `LOWER_CASE_LETTERS[idx / 3]` within bounds |
| PassGen.UpperIndexAtPosition | passgen.js:100-104 | helper of `IndexAtPosition` for the second branch: an index in the upper-case slots maps to `UPPER_CASE_LETTERS[(idx - lowerLastNb) / 3]` within bounds |
| PassGen.DigitIndexAtPosition | passgen.js:105-106 | helper of `IndexAtPosition` for the third branch: an index in the digit slots maps to `NUMBERS[(idx - upperLastNb) / 2]` within bounds |
| PassGen.SymbolIndexAtPosition | passgen.js:107-108 | helper of `IndexAtPosition` for the last branch: an index in the symbol slots maps to `SYMBOLS[idx - numsLastNb]` within bounds |
| PassGen.EmptySpaceYieldsBacktick | passgen.js:97-108 | with no class enabled the only draw is 0, and it appends a backtick |
| PassGen.DrawAllowed | passgen.js:97-109 | every draw yields a character of an enabled alphabet, or a backtick when none is enabled |
| PassGen.ClassOfSlot | passgen.js:98-107 | an index inside the slots of a class takes that class's branch |
| PassGen.CharPreimages | passgen.js:96-109 | an index produces the j-th character of an enabled alphabet if and only if it is one of the `factor` consecutive indices starting at start + j × factor |
| PassGen.PreimagesInBlock | passgen.js:96-109 | an index is a preimage of the j-th character of an enabled alphabet if and only if it lies in that character's block |
| PassGen.PreimagesAreBlock | passgen.js:96-109 | the set of indices producing the j-th character of an enabled alphabet is exactly that block |
| PassGen.PreimageCount | passgen.js:96 | each letter has exactly 3 preimages, each digit 2 and each symbol 1: the weighting the comment announces |
| PassGen.Compliant | passgen.js:157-169 | defines what `checkPassword` accepts: every enabled class occurs in the password |
| PassGen.CheckPassword | passgen.js:132-170 | the result is true if and only if every enabled class occurs in the password |
| PassGen.Draws | passgen.js:95-97 | attempt k uses `len` draws, all within range |
| PassGen.Candidate | passgen.js:94-110 | a candidate has exactly `len` characters |
| PassGen.CandidateAllowed | passgen.js:94-110 | every character of a candidate is one a draw can produce |
| PassGen.DrawsBeforeIsProduct | passgen.js:93-117 | the first k attempts take k × len draws |
| PassGen.Attempts | passgen.js:93-117 | defines the rejection loop from attempt k on: the candidate if it passes the check, "Too many iterations" once the incremented counter exceeds 100, otherwise the next attempt |
| PassGen.PasswordOutcome | passgen.js:70-118 | defines `generatePassword`: "Password length too short" below `minLen`, otherwise the rejection loop from attempt 0 |
| PassGen.GenerateOutcome | passgen.js:48-57 | defines `generate`: "Invalid length value" for 0, "Length too high" above 1000, otherwise `generatePassword` |
| PassGen.AttemptsSkip | passgen.js:111-116 | a rejected candidate before the last attempt leads to the next attempt |
| PassGen.AttemptsStop | passgen.js:111-113 | an accepted candidate is returned as it is |
| PassGen.AttemptsOutcomes | passgen.js:93-117 | the loop ends either in a password that passes `checkPassword` or in "Too many iterations" |
| PassGen.AttemptsFirstAccepted | passgen.js:93-117 | the loop returns the first accepted candidate |
| PassGen.RejectedBetweenIff | passgen.js:111-116 | helper of the loop lemmas: the recursive definition of a run of rejected attempts agrees with "every attempt in the range is rejected" |
| PassGen.AttemptsPassOver | passgen.js:111-116 | helper of `AttemptsFirstAccepted`: a run of rejected attempts leaves the loop's outcome unchanged |
| PassGen.AttemptsExhausted | passgen.js:114-116 | "Too many iterations" happens if and only if every candidate from attempt k to attempt 100 is rejected |
| PassGen.AttemptsExhaustedRun | passgen.js:114-116 | helper of `AttemptsExhausted`: the loop fails exactly when the run from attempt k to attempt 100 is rejected |
| PassGen.AttemptsAllowed | passgen.js:93-117 | a returned password has the requested length and only drawable characters |
| PassGen.GenerateOutcomeSpec | passgen.js:46-117 | each error happens exactly under its condition: length 0; length above 1000; negative length or below `minLen`; all 101 candidates rejected. On success the password has the requested length (1 to 1000), contains every enabled class and only drawable characters |
| PassGen.DrawsCoverClasses | passgen.js:98-169 | a candidate passes the check if and only if its attempt drew at least one index from the slots of every enabled class; so the wider symbol test never accepts a candidate that drew no symbol slot |
| PassGen.CoverSuffices | passgen.js:98-169 | helper of `DrawsCoverClasses`: a draw from each enabled class's slots is enough for the check to pass |
| PassGen.CoverNeeded | passgen.js:98-169 | helper of `DrawsCoverClasses`: the check passes only if each enabled class got a draw from its slots |
| PassGen.SingleClassFirstAccepted | passgen.js:48-113 | with exactly one class enabled, every valid length (1 to 1000) yields the first candidate |
| PassGen.NoClassGivesBackticks | passgen.js:48-117 | with no class enabled, a valid length yields a password of that many backticks |
| PassGen.MinimumLengthCanSucceed | passgen.js:71-117 | length 4 with all classes and draws 0, 78, 156, 176 yields the password made of `q`, `Q`, `1` and a backtick |
| PassGen.ConstantSourceExhausts | passgen.js:93-116 | a source that always draws 0, with lower and upper case required, ends in "Too many iterations" |
| PassGen.BuildCandidate | passgen.js:94-110 | the `for` loop builds exactly the candidate of its attempt and advances the draw counter by `len` |
| PassGen.GeneratePassword | passgen.js:70-118 | the `while` loop computes `generatePassword`'s outcome. It builds 1 to 101 candidates (exactly 101 on failure), returns the last one built on success, and uses exactly (candidates built) × `len` draws |
| PassGen.Generate | passgen.js:46-57 | computes `generate`'s outcome; the length errors take no draw and build no candidate; the draws used are the candidates built × `len` |

## Left out

- The DOM wiring, the copy button and the clipboard (passgen.js:15-45, 58-61) are user-interface I/O, not generation logic.
- The parsing of the length field (`+lengthInput.value`) and its `NaN` case: the length reaches the model as an integer. A fractional length, which the source would accept, is not modelled.
- The error message strings and the `try`/`catch` that displays them: each is one constructor of `Outcome`.
- `Math.random()` and floating-point rounding: the draws are an injected stream of integers in range. No statement is made about their distribution beyond the preimage counts.
- The characters `checkPassword` reads are Dafny `char`s (Unicode scalar values); the source reads UTF-16 code units. Both classify every character outside the ASCII ranges as a symbol, and the generated characters are ASCII.
- PassGen.Generate: does not state which candidate is returned on success. `GeneratePassword` states it, and `Generate` returns that result unchanged.
