# Swift playground core, modelled in Dafny

The repository is one Swift playground script (`MyPlayground.playground/section-1.swift`).
Most of it shows language syntax. Three pieces compute something, and this project models and proves them:

- **Running-maximum scan** (`maxscan.dfy`, module `MaxScan`). An accumulator `largest` starts at 0. It is folded over the flat list `numArr`. It is then carried into a fold over every inner list of the dictionary `numDict`. It is replaced only when `largest < num`. The fold is `ScanMax`. Its nested forms are `ScanLists`, over an ordered sequence of lists, and `ScanDict`, over a dictionary visited in a given key order. `ScanLoop` and `FindLargest` are the imperative loops.
  - `FindLargest` chooses keys non-deterministically. This matches Swift, which leaves dictionary order unspecified.
  - `FindLargest` is proved equal to `ScanDict` for every possible key order.
  - The 0 baseline is kept exactly as written. For input with no positive element it acts as a floor.
- **Team score** (`teamscore.dfy`, module `Scores`). Each score strictly above 50 adds 3 and every other score adds 1. The fold is `TeamScore` and the loop is `ComputeTeamScore`. `CountAbove` is the independent count used for the closed form.
- **Vegetable comment** (`vegetable.dfy`, module `Vegetable`). A first-match `switch` over a string:
  - "celery" gives "ok";
  - "cucumber" or "watercress" gives "so so";
  - any other string ending in "pepper" gives "good";
  - anything else gives "no".

  The Swift code binds the comment to a local constant and never uses it. Here `Comment` returns it.

Swift's `Int` is modelled as the unbounded `int`.
The scan only compares values, so no width matters there.
The team score adds at most 3 per element, so it cannot reach 64-bit overflow for any list that fits in memory.

## Model

| member | source | states |
|---|---|---|
| MaxScan.ScanMax | MyPlayground.playground/section-1.swift:79-84 | the fold result is at least the start and every element, and it equals the start or one of the scanned elements |
| MaxScan.ScanMaxUnchanged | MyPlayground.playground/section-1.swift:80-84 | the result equals the start iff no element is larger than the start, so elements equal to the start leave the value at the start; strictness itself is pinned down by `MaxScan.ScanLoop` |
| MaxScan.ZeroFloor | MyPlayground.playground/section-1.swift:79-84 | from the baseline 0, a list with no positive element yields 0, and a list with a positive element yields a positive result |
| MaxScan.StepIsMax | MyPlayground.playground/section-1.swift:81-83 | the strict update yields the maximum of the accumulator and the element |
| MaxScan.ScanMaxAppend | MyPlayground.playground/section-1.swift:79-99 | scanning a concatenation equals scanning the second part from the value the first part left; `MaxScan.FindLargest` uses it to show that the two loops form one scan |
| MaxScan.ScanMaxFromMax | MyPlayground.playground/section-1.swift:93-99 | scanning from the larger of two start values equals the larger of one start value and the scan from the other |
| MaxScan.ScanLoop | MyPlayground.playground/section-1.swift:80-84 | the loop computes the fold; a ghost output reports the held element index, which is -1 iff no element exceeds the start; a held element is the first occurrence of the maximum, because strict comparison lets no later equal element replace it |
| MaxScan.ScanLists | MyPlayground.playground/section-1.swift:93-99 | scanning lists one after another yields at least the start and every element of every list, and equals the start or an element of some list |
| MaxScan.ScanListsIsFlatScan | MyPlayground.playground/section-1.swift:93-99 | scanning the lists one after another, carrying the value, equals one scan over all their elements in the same order |
| MaxScan.ScanTwoListsCommute | MyPlayground.playground/section-1.swift:93-99 | two lists scanned in either order give the same result, namely the larger of the two single-list scans |
| MaxScan.ScanDict | MyPlayground.playground/section-1.swift:93-99 | for any enumeration of the keys, the dictionary scan is at least the carried value and every element of every value list, and equals the carried value or one of those elements |
| MaxScan.ScanDictOrderIndependent | MyPlayground.playground/section-1.swift:93-99 | the dictionary scan gives the same result for every order in which the keys are visited |
| MaxScan.FindLargest | MyPlayground.playground/section-1.swift:78-100 | the flat loop from 0 yields the flat fold; the dictionary loop with arbitrary key choice yields the order-free dictionary maximum, which equals the scan for every visiting order; the final value equals a single scan from 0 over `numArr` followed by all value lists, in any key order |
| MaxScan.PlaygroundValues | MyPlayground.playground/section-1.swift:78-100 | on the playground data the flat scan yields 88, and the dictionary scan carried on from 88 yields 903 in every key order |
| Scores.TeamScore | MyPlayground.playground/section-1.swift:39-47 | for n scores the team score lies between n and 3n |
| Scores.TeamScoreClosedForm | MyPlayground.playground/section-1.swift:41-46 | the team score equals n plus twice the number of scores strictly above 50 |
| Scores.TeamScoreExtremes | MyPlayground.playground/section-1.swift:41-46 | the score is n iff no score is above 50, and 3n iff every score is |
| Scores.ComputeTeamScore | MyPlayground.playground/section-1.swift:39-47 | the loop computes the fold and its closed form |
| Scores.PlaygroundTeamScore | MyPlayground.playground/section-1.swift:39-48 | the scores [75,43,103,87,12] give 11 |
| Vegetable.HasSuffixIff | MyPlayground.playground/section-1.swift:70 | the suffix test holds iff some prefix concatenated with the suffix gives the string |
| Vegetable.Comment | MyPlayground.playground/section-1.swift:63-75 | every vegetable gets exactly one of the four comments "ok", "so so", "good" or "no" |
| Vegetable.NamedAreNotPeppers | MyPlayground.playground/section-1.swift:64-70 | none of "celery", "cucumber" or "watercress" ends with "pepper" |
| Vegetable.CommentClassification | MyPlayground.playground/section-1.swift:63-75 | each comment is given iff its own case condition holds; the cases do not overlap, so first-match order does not change the outcome |
| Vegetable.RedPepperIsGood | MyPlayground.playground/section-1.swift:62-75 | the playground's "red pepper" is "good" |

## Left out

- `import Cocoa`, the `CGFloat` constant and the `NSInteger` type (lines 3, 13, 35): framework types with no behaviour of their own.
- `println(dict)` (line 32): console output.
- String concatenation and interpolation (lines 16-24): formatting with nothing to prove.
- Variable reassignment, the array element write, the dictionary update and the empty collections (lines 5-10, 27-35): syntax demonstrations without a contract.
- The optional-binding demo (lines 51-59): it only shows `if let`.
- Vegetable.Comment: compares strings as sequences of characters. Swift's `String` equality and `hasSuffix` use Unicode canonical equivalence, which is not modelled.
- Scores.TeamScore: does not model the overflow trap of Swift's `+=` on `Int`. It needs more than 2^61 scores, so no list that fits in memory reaches it.
- MaxScan.FindLargest: iterates over the dictionary's key set, one arbitrarily chosen key at a time. The Swift runtime's hash-table layout, which fixes the actual order, is not modelled.
