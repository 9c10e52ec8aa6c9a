# Consecutive increasing numbers and the snail matrix, in Dafny

This project models two competitive-programming routines and proves what
they promise.

- `consecutive_increasing.py` decides whether a digit string can be cut into
  at least two numbers, each one greater than the one before. The candidate
  first number's length runs from 1 to `len(ch) - 1`. A prefix of two or
  more characters that starts with `'0'` is skipped. The rest of the string
  is then matched greedily against `str(k)`, `str(k+1)`, and so on
  (`validate_sequence`). A second variant returns the list it found
  (`get_sequence`, `consecutive_increasing_numbers_with_sequence`).
- `snail_matrix.py` lists the entries of an n×n matrix in clockwise spiral
  order. It does this by walking four boundaries (`top`, `bottom`, `left`,
  `right`) inwards, one ring per pass of its loop.

Modules:

- `Decimal` (`decimal.dfy`) holds `str()` and `int()` on non-negative
  integers. They are defined as `NatToDecimal` and `DecimalValue`, and the
  module proves both round trips. The texts `str()` can produce are exactly
  the canonical digit strings: no leading zero unless the text is `"0"`.
- `ConsecutiveIncreasing` (`consecutive_increasing.dfy`) transcribes the four
  Python functions.
  - Each `while` or `for` loop becomes a recursive function over the loop's
    state: `ValidateFrom`, `GetSequenceFrom`, `SearchFrom` and
    `SearchWithSequenceFrom`.
  - A reference definition sits beside them. A *split* of `ch` is at least
    two numbers, each one more than the previous, whose decimal texts
    concatenate to `ch` (`IsSplit`, using `Run` and `Concat`).
  - The lemmas connect each loop to that reference. They also connect the
    two variants to each other.
- `ConsecutiveIncreasingExamples` (`consecutive_increasing_examples.dfy`)
  proves the outcome of every test case listed in the source. It also
  proves `"01"`.
- `Snail` (`snail_matrix.dfy`) transcribes `snail_matrix`.
  - Each inner `for` loop is a method of its own (`TraverseRight`,
    `TraverseDown`, `TraverseLeft`, `TraverseUp`). The body of the outer
    loop is `PeelRing`, and `SnailMatrix` is the whole function.
  - The reference is a ring-by-ring list of grid cells (`Ring`, `Rings`,
    `SpiralCells`), defined independently of the boundary variables.
  - The lemmas show that this list has n² cells and visits every grid cell
    exactly once. The output is therefore a permutation of the matrix
    entries, and it starts with the whole top row.
- `SnailExamples` (`snail_examples.dfy`) proves the expected outputs listed
  in the source.

Python's `list.append` on a growing list is modelled as sequence
concatenation. Integers are unbounded `nat`s, as Python's are, except that
the model does not follow CPython's limit on converting integers of more than
4300 digits to or from text (see "Left out").

## Model

| member | source | states |
|---|---|---|
| Decimal.DecimalValue | consecutive_increasing.py:40 | `int()` on a digit string, read as a base-10 numeral; its round trips with `str()` are stated by `DecimalValueOfNatToDecimal` and `NatToDecimalOfDecimalValue` |
| Decimal.NatToDecimal | consecutive_increasing.py:65 | `str(k)` is a nonempty digit string with no leading zero, and it starts with '0' exactly when `k` is 0 |
| Decimal.DecimalValueOfNatToDecimal | consecutive_increasing.py:40 | `int(str(k)) == k` for every non-negative `k` |
| Decimal.NatToDecimalOfDecimalValue | consecutive_increasing.py:36-40 | `str(int(s)) == s` for every digit string without a leading zero, which is what the leading-zero guard secures for the first number |
| Decimal.CanonicalIffDecimalText | consecutive_increasing.py:20 | the texts `str()` produces are exactly the digit strings with no leading zero other than "0" itself |
| Decimal.NatToDecimalInjective | consecutive_increasing.py:65-68 | different numbers have different decimal texts, so at most one number can match at a position |
| Decimal.NatToDecimalAppendDigit | consecutive_increasing.py:65 | for a positive `k`, the text of `10k + d` is the text of `k` followed by the digit `d` |
| Decimal.LeadingNonzeroIsPositive | consecutive_increasing.py:37-40 | a digit string whose first digit is not '0' has a positive value |
| ConsecutiveIncreasing.MatchesAt | consecutive_increasing.py:68 | the slice comparison at `pos` (also line 128): a text that would run past the end of `ch` never matches; `RunSplitStep` and `MatchesAtSuffix` relate it to runs |
| ConsecutiveIncreasing.ValidateFrom | consecutive_increasing.py:64-76 | an accepting loop state has at least two numbers counted or still to come (`count` plus the characters left is at least 2); its full behaviour is `ValidateFromMirrorsGetSequenceFrom` |
| ConsecutiveIncreasing.ValidateSequence | consecutive_increasing.py:49-76 | only a string of two or more characters is accepted; `ValidateSequenceSpec` characterises it |
| ConsecutiveIncreasing.GetSequenceFrom | consecutive_increasing.py:125-135 | the `get_sequence` loop from a state; `GetSequenceFromStep`, `GetSequenceFromMatch` and `GetSequenceFromNoMatch` state what it returns |
| ConsecutiveIncreasing.GetSequence | consecutive_increasing.py:110-135 | `get_sequence(ch, s)`; `GetSequenceSpec` and `GetSequenceSound` state what it returns |
| ConsecutiveIncreasing.SearchFrom | consecutive_increasing.py:32-46 | it succeeds only from a first length below `len(ch)`; `SearchFromSpec` states exactly when |
| ConsecutiveIncreasing.SearchWithSequenceFrom | consecutive_increasing.py:94-107 | the flag is True exactly when the returned list has two or more numbers, and only from a first length below `len(ch)`; `SearchWithSequenceFromAgrees` and `SearchWithSequenceFromFirst` relate it to the boolean loop |
| ConsecutiveIncreasing.ConsecutiveIncreasingNumbers | consecutive_increasing.py:25-32 | the empty string and any one-character string are rejected |
| ConsecutiveIncreasing.ConsecutiveIncreasingNumbersWithSequence | consecutive_increasing.py:89-90 | the empty string yields `(False, [])` |
| ConsecutiveIncreasing.ValidateSequenceSpec | consecutive_increasing.py:60-76 | `validate_sequence(ch, s)` holds exactly when `ch` is the concatenation of the texts of `s, s+1, ..., s+m-1` for some `m >= 2` |
| ConsecutiveIncreasing.ValidateFromMirrorsGetSequenceFrom | consecutive_increasing.py:64-76 | from any loop state, the `validate_sequence` loop accepts exactly when the `get_sequence` loop from the matching state returns at least two numbers |
| ConsecutiveIncreasing.ValidateAgreesWithGetSequence | consecutive_increasing.py:49-76 | `validate_sequence(ch, s)` holds exactly when `len(get_sequence(ch, s)) >= 2` |
| ConsecutiveIncreasing.GetSequenceSpec | consecutive_increasing.py:121-135 | `get_sequence(ch, s)` returns the run from `s` whose texts spell `ch` when there is one, and `[]` when there is none |
| ConsecutiveIncreasing.GetSequenceSound | consecutive_increasing.py:110-135 | a nonempty result of `get_sequence(ch, s)` starts at `s`, steps by exactly one, and its texts concatenate to `ch` |
| ConsecutiveIncreasing.GetSequenceFromMatch | consecutive_increasing.py:125-131 | when a run from `current_num` spells the rest of `ch` from `pos`, the loop appends exactly that run to what it has collected |
| ConsecutiveIncreasing.GetSequenceFromNoMatch | consecutive_increasing.py:132-133 | when no run from `current_num` spells the rest of `ch`, the loop returns `[]` |
| ConsecutiveIncreasing.GetSequenceFromStep | consecutive_increasing.py:128-131 | a match at `pos` appends `current_num`, moves past its text and goes on with `current_num + 1` |
| ConsecutiveIncreasing.RunSplitAt | consecutive_increasing.py:68 | a run that spells the nonempty rest of `ch` has its first number's text at `pos` |
| ConsecutiveIncreasing.RunJoinAt | consecutive_increasing.py:68-70 | the text of `current_num` at `pos` followed by a run from `current_num + 1` is a run from `current_num` |
| ConsecutiveIncreasing.RunSplitStep | consecutive_increasing.py:68-70 | a nonempty text is spelled by the run from `k` exactly when `str(k)` opens it and the run from `k+1` spells the rest |
| ConsecutiveIncreasing.ConsecutiveIsRun | consecutive_increasing.py:18 | a list steps by exactly one exactly when it is the run from its first element |
| ConsecutiveIncreasing.AdmissiblePrefixRoundTrip | consecutive_increasing.py:34-40 | every first-number prefix the search does not skip has no leading zero, so `str(int(prefix)) == prefix` |
| ConsecutiveIncreasing.AdmissibleRunHasTwo | consecutive_increasing.py:75-76 | from a first length shorter than the string, any run that spells the string has at least two numbers |
| ConsecutiveIncreasing.AdmissibleSequenceHasTwo | consecutive_increasing.py:104 | for every first length tried, a nonempty `get_sequence` result already has at least two numbers |
| ConsecutiveIncreasing.SplitFirstLength | consecutive_increasing.py:32-43 | the first number of any split has a text length the search tries, the prefix of that length is its text, and `validate_sequence` accepts it |
| ConsecutiveIncreasing.SearchFromSpec | consecutive_increasing.py:32-46 | the first-length loop from `first_len` returns True exactly when some first length at or after `first_len` that is not skipped validates |
| ConsecutiveIncreasing.ConsecutiveIncreasingNumbersCorrect | consecutive_increasing.py:6-46 | `consecutive_increasing_numbers(ch)` holds exactly when `ch` has a split into two or more consecutive increasing numbers |
| ConsecutiveIncreasing.SearchWithSequenceFromAgrees | consecutive_increasing.py:94-107 | the sequence variant's loop succeeds exactly when the boolean loop does, and returns `(False, [])` when it fails |
| ConsecutiveIncreasing.SearchWithSequenceFromFirst | consecutive_increasing.py:94-105 | on success the returned list is `get_sequence` for the first first length, in the order tried, that validates |
| ConsecutiveIncreasing.VariantsAgree | consecutive_increasing.py:79-107 | `consecutive_increasing_numbers(ch)` equals the flag of `consecutive_increasing_numbers_with_sequence(ch)` |
| ConsecutiveIncreasing.WithSequenceCorrect | consecutive_increasing.py:79-107 | the sequence variant reports a split exactly when one exists, returns a split when it succeeds, and returns the split with the shortest first number; on failure the list is empty |
| ConsecutiveIncreasing.LeadingZeroStartsAtZero | consecutive_increasing.py:36-38 | a string that starts with '0' can only be accepted with 0 as its first number |
| ConsecutiveIncreasingExamples.MatchStep | consecutive_increasing.py:128-131 | one matching step of the `get_sequence` loop, for any `ch`, with the text of `current_num` given literally (`GetSequenceFromStep` restated for the example proofs) |
| ConsecutiveIncreasingExamples.SkipAtSecond | consecutive_increasing.py:94-107 | a first number that is not followed by its successor passes both searches on to the next length |
| ConsecutiveIncreasingExamples.AcceptFirstLength | consecutive_increasing.py:101-105 | a first length whose `get_sequence` has two or more numbers ends both searches with that list |
| ConsecutiveIncreasingExamples.EntryPoints | consecutive_increasing.py:25-32 | both entry points start their loop at first length 1 for a nonempty string |
| ConsecutiveIncreasingExamples.Example99100 | consecutive_increasing.py:141 | "99100" is accepted with 99, 100 |
| ConsecutiveIncreasingExamples.Example979899100101 | consecutive_increasing.py:142 | "979899100101" is accepted with 97, 98, 99, 100, 101 |
| ConsecutiveIncreasingExamples.Example12 | consecutive_increasing.py:143 | "12" is accepted with 1, 2 |
| ConsecutiveIncreasingExamples.Example123 | consecutive_increasing.py:144 | "123" is accepted with 1, 2, 3 |
| ConsecutiveIncreasingExamples.Example91011 | consecutive_increasing.py:145 | "91011" is accepted with 9, 10, 11 |
| ConsecutiveIncreasingExamples.Example99991000010001 | consecutive_increasing.py:146 | "99991000010001" is accepted with 9999, 10000, 10001 after the first lengths 1 to 3 fail |
| ConsecutiveIncreasingExamples.Example010 | consecutive_increasing.py:147 | "010" is rejected by both variants |
| ConsecutiveIncreasingExamples.Example111 | consecutive_increasing.py:148 | "111" is rejected by both variants |
| ConsecutiveIncreasingExamples.Example1 | consecutive_increasing.py:149 | "1" is rejected by both variants |
| ConsecutiveIncreasingExamples.Example191011 | consecutive_increasing.py:150 | "191011" is rejected by both variants |
| ConsecutiveIncreasingExamples.Example12345 | consecutive_increasing.py:151 | "12345" is accepted with 1, 2, 3, 4, 5 |
| ConsecutiveIncreasingExamples.Example123456 | consecutive_increasing.py:180 | "123456" is accepted with 1, 2, 3, 4, 5, 6 |
| ConsecutiveIncreasingExamples.Example67891011 | consecutive_increasing.py:152 | "67891011" is accepted with 6, 7, 8, 9, 10, 11 |
| ConsecutiveIncreasingExamples.Example01 | consecutive_increasing.py:20 | "01" is accepted with 0, 1: a single '0' is an admissible first number |
| ConsecutiveIncreasingExamples.ExampleEmpty | consecutive_increasing.py:89-90 | "" is rejected by both variants |
| Snail.TraverseRight | snail_matrix.py:31-32 | appends row `top` from column `left` to `right`, left to right |
| Snail.TraverseDown | snail_matrix.py:36-37 | appends column `right` from row `top` to `bottom`, top to bottom |
| Snail.TraverseLeft | snail_matrix.py:42-43 | appends row `bottom` from column `right` back to `left` |
| Snail.TraverseUp | snail_matrix.py:48-49 | appends column `left` from row `bottom` back to `top` |
| Snail.PeelRing | snail_matrix.py:29-50 | one pass of the loop appends exactly ring `top` of the grid, and the boundaries move to the next ring, or cross after the centre of an odd grid |
| Snail.SnailMatrix | snail_matrix.py:6-52 | an empty matrix gives `[]`; an n×n matrix gives the entries in the ring-by-ring clockwise order, n² of them, a permutation of the matrix entries, starting with the whole first row |
| Snail.RowRightFacts | snail_matrix.py:31 | `range(left, right + 1)` visits each column between the bounds once, in order |
| Snail.ColDownFacts | snail_matrix.py:36 | `range(top, bottom + 1)` visits each row between the bounds once |
| Snail.RowLeftFacts | snail_matrix.py:42 | `range(right, left - 1, -1)` visits each column between the bounds once |
| Snail.ColUpFacts | snail_matrix.py:48 | `range(bottom, top - 1, -1)` visits each row between the bounds once |
| Snail.RingLegValues | snail_matrix.py:30-50 | the values along a ring are the values of its four legs, in the order the loop body appends them |
| Snail.RingsValuesStep | snail_matrix.py:29 | each pass of the loop extends the output with the next ring |
| Snail.RingLength | snail_matrix.py:29-50 | a ring of side `s >= 2` has `4s - 4` cells and the centre of an odd grid has one |
| Snail.RingsLength | snail_matrix.py:29-50 | the first `k` rings hold `n² - (n - 2k)²` cells, and all n² once the loop ends |
| Snail.EmittedCount | snail_matrix.py:26-29 | at the head of the loop, the number of entries emitted is n² minus the size of the block still inside the four boundaries (all n² once the boundaries cross) |
| Snail.DepthIsBorder | snail_matrix.py:26-27 | the cells at distance `t` from the border are the border of the square `[t, n-1-t]²` |
| Snail.RingCells | snail_matrix.py:29-50 | ring `t` visits each cell at distance `t` from the border exactly once, and nothing else |
| Snail.RingsCells | snail_matrix.py:29-50 | the first `k` rings visit each cell at distance less than `k` from the border exactly once |
| Snail.SpiralCellsExactlyOnce | snail_matrix.py:8 | the spiral order has n² cells and visits every cell of the grid exactly once |
| Snail.RowMajorValues | snail_matrix.py:10-11 | the row-major order of the cells reads the matrix row by row |
| Snail.PermutedValues | snail_matrix.py:8 | reordering the cells reorders the values read at them in the same way |
| Snail.SpiralCellsPermuteRowMajor | snail_matrix.py:8 | the spiral order is a reordering of the row-major order of the cells |
| Snail.SpiralEntriesArePermutation | snail_matrix.py:8 | the values in spiral order are a permutation of all the matrix entries |
| Snail.SpiralOrderFacts | snail_matrix.py:6-20 | the spiral values of a square matrix number n², are a permutation of its entries, and start with its first row |
| Snail.RingsStartWithTopRow | snail_matrix.py:30-32 | the cell order of any nonempty set of rings starts with the whole of row 0 |
| Snail.SpiralStartsWithTopRow | snail_matrix.py:30-32 | the first n spiral values are row 0, left to right |
| SnailExamples.Example3x3 | snail_matrix.py:65-74 | the 3×3 matrix 1..9 gives 1, 2, 3, 6, 9, 8, 7, 4, 5 |
| SnailExamples.Example4x4 | snail_matrix.py:78-88 | the 4×4 matrix 1..16 gives 1, 2, 3, 4, 8, 12, 16, 15, 14, 13, 9, 5, 6, 7, 11, 10 |
| SnailExamples.Example1x1 | snail_matrix.py:92-97 | the matrix `[[5]]` gives 5 |
| SnailExamples.ExampleEmpty | snail_matrix.py:19-20 | the empty matrix gives nothing |
| SnailExamples.SnailOfThree | snail_matrix.py:65-74 | `SnailMatrix` on the 3×3 matrix 1..9 returns 1, 2, 3, 6, 9, 8, 7, 4, 5 |
| SnailExamples.SnailOfFour | snail_matrix.py:78-88 | `SnailMatrix` on the 4×4 matrix 1..16 returns 1, 2, 3, 4, 8, 12, 16, 15, 14, 13, 9, 5, 6, 7, 11, 10 |
| SnailExamples.SnailOfOne | snail_matrix.py:92-97 | `SnailMatrix([[5]])` returns `[5]` |
| SnailExamples.SnailOfEmpty | snail_matrix.py:19-20 | `SnailMatrix` returns `[]` both for the empty matrix and for a matrix whose first row is empty |

## Left out

- The `__main__` blocks and `print_matrix` in both files only print; they are I/O. Their listed test vectors appear above as example lemmas.
- Non-digit input: only the two first-length searches (`SearchFrom`, `SearchWithSequenceFrom`) and the two entry points require `IsDigits(ch)`, because they apply `int()` (`DecimalValue`) to a prefix. `MatchesAt`, `ValidateFrom`, `ValidateSequence`, `GetSequenceFrom` and `GetSequence` accept any string, as their Python counterparts do. Python's `int()` would raise on most non-digit input, but it also accepts forms such as `"+1"` or `"1_0"`. The callers are documented to pass only digits.
- ConsecutiveIncreasing.SearchFrom: conversions are unbounded. CPython 3.11 and later raise `ValueError` when `int()` (line 40) or `str()` (line 65) handles more than 4300 digits. For example, on `"9"*4300 + "1" + "0"*4300`, `str(10**4300)` at line 65 raises, while the model returns True. The same holds for `ConsecutiveIncreasingNumbers`.
- ConsecutiveIncreasing.SearchWithSequenceFrom: the same 4300-digit limit applies at lines 101 and 126. On the same input, the source raises where the model returns `(True, [10**4300 - 1, 10**4300])`. The same holds for `ConsecutiveIncreasingNumbersWithSequence`.
- Snail.SnailMatrix requires an empty matrix, an empty first row, or a square matrix. The source documents an n×n input. On a ragged or rectangular matrix, it either raises `IndexError` or skips entries, because it takes both bounds from `len(matrix)`.
- Snail.At returns 0 outside the grid. Every cell the model reads lies inside the grid, so this fallback never shows in a result.
- The 5×5 case in `snail_matrix.py` lists no expected output, so there is no example lemma for it.
- Time and space complexity claims in the docstrings are not modelled.
- The source builds each result by appending to a Python list in place. The model returns new sequences instead, so there is no aliasing to model.

## Notes on the source

- The docstring of `consecutive_increasing_numbers` asks for "positive integers", but the code accepts 0 as a first number: `"01"` gives `(True, [0, 1])` (`Example01`). The model follows the code. `LeadingZeroStartsAtZero` shows this is the only way zero enters a split.
- The test case `"010"` is described as "Leading zeros not allowed". In the code, the first length 1 fails because `"0"` is not followed by `"2"` after `0, 1`. Only the first length 2 is skipped for its leading zero (`Example010`).
- The comment on the first-length loop says the first number is at most half the string. The loop actually tries every length up to `len(ch) - 1`. The model follows the loop.
- The description of the test `"12345"` mentions "123, 124, 125", which is not a split of that string. It is printed only for inputs that fail, so it does not affect any result.
- On a square matrix, the `if top <= bottom` and `if left <= right` guards in `snail_matrix` are false only in the last pass for the centre of an odd grid. `PeelRing` models both branches.
