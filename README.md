# 1mal1 arithmetic drill — verified model of the drill engine

This project models the question engine of the 1mal1 times-table trainer (`app.js`, class
`MathTrainingApp`) in Dafny and proves what it promises. The UI is not modelled. The engine has five parts:

- **Facts and questions.** Multiplication facts `${s}x${i}`, division facts `${s*i}/${s}` and
  square-root facts `√${sq}`, for operands 1..12 and the twelve perfect squares 1..144. Keys are the
  datatype `Keys.Key`. `KeyText` renders the source's string for a key and `ParseKey` reads it back,
  so distinct facts are always stored under distinct strings.
- **Leitner weighting and weighted sampling without replacement** (test mode). Every fact gets a
  weight (10, 8, 4, 2 or 1) from its success record. Each round draws `r = u * totalWeight` for a
  `Math.random()` result `u`, walks the pool subtracting weights, and splices out the pick.
- **Distractors.** A rejection loop grows a set from the correct answer to 4 or 5 values using
  offsets -5..+4. The result is then shuffled.
- **Per-fact statistics.** A map from key to `{correct, total}`. A read creates a missing record.
- **Quiz progression and the statistics screen.** The question list and its index, the counter and
  progress display, and the six colour bands of a success rate.

Modules:

- `Wrappers` (wrappers.dfy)
- `Keys` (keys.dfy)
- `Stats` (stats.dfy)
- `Leitner` (leitner.dfy): weights and colour bands
- `Questions` (questions.dfy): single questions and training mode
- `FactUniverse` (universe.dfy): the test-mode universe
- `Sampling` (sampling.dfy)
- `Distractors` (distractors.dfy)
- `Quiz` (quiz.dfy): the class `MathTrainingApp` with fields `stats`, `settings`, `selectedSeries`,
  `currentMode`, `currentQuestions`, `currentQuestionIndex` and `questionCount`

Randomness enters as parameters:

- **Training mode and `generateQuestion`:** already-floored indexes (`TrainingDraw`), each with a
  range precondition.
- **Weighted selection:** unit reals in [0, 1), one per requested question.
- **Distractors:** offset draws in 0..9, a size draw in [0, 1), and the permutation the shuffle
  produces.

Success-rate thresholds are exact rational comparisons. For example, `rate < 0.95` is written
`20*correct < 19*total`. `Leitner.RateBelowIsExact` proves each one equal to the comparison of the
real quotient.

Where the code and its description differ, the model follows the code:

- **Offset range.** The offset is `floor(random*10) - 5`, which is -5..+4, not the "-5 to +5" of the
  comment at app.js:419. Every distractor lies in `[c-5, c+4]`.
- **Reset.** `resetStats` empties the map, but it then redraws the statistics screen. That redraw
  reads the 121 grid keys through `getQuestionStats`, so the in-memory map afterwards holds 121 fresh
  `{0,0}` records, not nothing. Every lookup still observes `{0,0}`. The constructor's
  `updateStatistics` call has the same side effect.
- **Test mode reads.** Test mode reads every universe key through `getQuestionStats`, which adds
  fresh records for facts never seen. The model states this side effect.
- **Malformed storage.** The code has no fallback for malformed stored data: `JSON.parse` would
  throw. Storage is not modelled.

## Model

| member | source | states |
|---|---|---|
| Keys.KeyTextRoundTrip | app.js:224-266 | reading back the text `${s}x${i}`, `${d}/${s}` or `√${sq}` of a key gives the key |
| Keys.KeyTextInjective | app.js:224-266 | two keys have the same stored string exactly when they are the same fact |
| Keys.ParseNatText | app.js:228 | decimal text of a number reads back as that number |
| Stats.Touch | app.js:494-499 | a read adds a `{0,0}` record for a missing key and changes no existing record; the record the read returns is the one the map then holds |
| Stats.TouchKeeps | app.js:494-499 | a read changes no lookup and keeps `correct <= total` |
| Stats.TouchAllSpec | app.js:494-499 | reading a list of keys adds exactly the missing ones as `{0,0}`, keeps every record and every lookup, keeps `correct <= total` |
| Stats.TouchAllKeepsConsistent | app.js:494-499 | reading any list of keys keeps `correct <= total` |
| Stats.TouchAllConcat | app.js:494-499 | reading two lists of keys one after the other is reading their concatenation |
| Stats.Record | app.js:501-506 | an answer adds 1 to `total` of its key, and 1 to `correct` exactly when correct; no other key changes |
| Stats.RecordKeepsConsistent | app.js:501-506 | recording an answer keeps `0 <= correct <= total` for every key |
| Stats.RecordAccumulates | app.js:501-506 | repeated answers accumulate rather than overwrite |
| Leitner.RateBelowIsExact | app.js:271 | the integer comparison `q*correct < p*total` is exactly `correct/total < p/q` |
| Leitner.Weight | app.js:274-285 | every weight is one of 10, 8, 4, 2, 1, hence positive; it is 10 exactly for a never-attempted fact |
| Leitner.WeightByRate | app.js:274-285 | weight 8 iff rate < 0.5, 4 iff 0.5 <= rate < 0.8, 2 iff 0.8 <= rate < 0.95, 1 iff rate >= 0.95 |
| Leitner.WeightAntitone | app.js:274-285 | a better success rate never gives a larger weight |
| Leitner.FreshWeighsMost | app.js:276 | no record weighs more than a never-attempted one |
| Leitner.WeightExamples | app.js:274-285 | 0 of 0 weighs 10, 10 of 10 weighs 1, 3 of 10 weighs 8 |
| Leitner.BandByRate | app.js:536-562 | unknown iff total = 0; danger iff rate < 0.5; orange iff [0.5,0.65); yellow iff [0.65,0.8); light success iff [0.8,0.9); success iff >= 0.9 (exhaustive and disjoint) |
| Leitner.BandMonotone | app.js:544-562 | a better success rate never shows a worse colour |
| Leitner.BandAgreesWithWeight | app.js:544-549 | the screen shows unknown exactly for weight 10 and danger exactly for weight 8 |
| Questions.IntRoot | app.js:346 | the integer square root `r` satisfies `r*r <= n < (r+1)*(r+1)` |
| Questions.IntRootOfSquare | app.js:255 | the root of `k*k` is `k`, as `Math.sqrt` gives on a perfect square |
| Questions.ValidSquares | app.js:339-342 | the filter keeps exactly the listed values whose integer root is in 1..12 (the source's filter on perfect squares, the only values it is applied to) |
| Questions.AllSquaresValid | app.js:339-344 | the filter keeps all twelve squares, so the null branch is never taken |
| Questions.GenerateQuestion | app.js:311-358 | never null; multiplication `s×(m)` has answer `s·m`, m in 1..12; division has `dividend = s·divisor`, answer = divisor; square root has `answer² = square`, square in {1,…,144} |
| Questions.EnabledTypes | app.js:199-201 | multiplication is always enabled; division and square root exactly when their setting is on |
| Questions.TrainingDeck | app.js:207-213 | training mode builds exactly `questionCount` questions, one per draw, each well formed, of an enabled type and of a selected series |
| Questions.TrainingQuestions | app.js:208-213 | the push loop builds that list |
| FactUniverse.BuildUniverse | app.js:224-266 | the push loops enumerate the universe in source order |
| FactUniverse.UniverseSize | app.js:224-266 | `|universe| = 12·|series|·(division ? 2 : 1) + (sqrt ? 12 : 0)` |
| FactUniverse.SqrtFactsAll | app.js:251-265 | square root contributes the twelve facts `√1 … √144` once, whatever the series |
| FactUniverse.UniverseContents | app.js:224-266 | every fact is well formed, of an enabled type, and of a selected series unless it is a square root |
| FactUniverse.UniverseKeysDistinct | app.js:224-266 | with distinct series each at least 1, all keys of the universe are pairwise distinct |
| Sampling.Pick | app.js:295-302 | the pick of a non-empty pool is an index of it |
| Sampling.PickIsFirstReaching | app.js:295-302 | for a draw in [0, total) the pick is the first index whose running weight sum reaches the draw |
| Sampling.PickInterval | app.js:293-302 | entry j is picked exactly for draws in (Prefix(j), Prefix(j)+w[j]], an interval as long as its weight |
| Sampling.PickOfZero | app.js:295 | a draw of 0 picks index 0 |
| Sampling.SelectIndex | app.js:295-302 | the subtract-until-non-positive loop computes the pick |
| Sampling.ScaledBelowTotal | app.js:292-293 | `Math.random() * totalWeight` lies in [0, totalWeight) |
| Sampling.SampleLength | app.js:291-306 | the selection returns `min(count, |pool|)` items |
| Sampling.SampleFromPool | app.js:291-306 | every selected item comes from the pool |
| Sampling.RemoveMultiset | app.js:305 | the splice removes exactly one copy of the picked item |
| Sampling.SampleWithoutReplacement | app.js:291-306 | the selection is a sub-multiset of the pool: no item is selected more often than it occurs |
| Sampling.PositiveTotal | app.js:292 | a pool of positive weights weighs at least its length, so a non-empty pool has a positive total |
| Sampling.RoundLands | app.js:292-302 | one round over a non-empty pool of positive weights draws in [0, total) and picks the first entry reaching the draw |
| Sampling.RemoveKeepsPositive | app.js:305 | the splice keeps every remaining weight positive |
| Sampling.SampleRoundsLand | app.js:291-306 | with positive weights and draws in [0, 1), every round on every remaining sub-pool draws in [0, total) and picks the first entry whose running sum reaches the draw, never the fallback |
| Sampling.SampleDistinct | app.js:291-306 | the pick is spliced out, so with distinct keys in the pool no key is selected twice |
| Sampling.SampleLoop | app.js:291-306 | the selection loop returns the items in draw order, as the specification function |
| Distractors.TargetSize | app.js:415 | the target size is 4 or 5 |
| Distractors.StepKeeps | app.js:418-425 | one round keeps `c` first, all values distinct, every other value a positive distractor in [c-5, c+4] |
| Distractors.FillKeeps | app.js:417-426 | the loop keeps that invariant and never exceeds the target |
| Distractors.Progress | app.js:417-426 | while short of the target, some draw (one of the offsets +1..+4) adds a value, so each round makes progress with probability at least 1/10 |
| Distractors.Completion | app.js:417-426 | from every reachable state, `target - |set|` suitable draws complete the set; with `Progress` the loop ends with probability 1 for every `c >= 0` |
| Distractors.RejectedDrawsStall | app.js:417-426 | for `c <= 5`, any number of rounds with offset -5 leaves the set unchanged: the loop does not end on every run of draws |
| Distractors.StraightDraws | app.js:419-425 | offsets +1, +2, +3, +4 always fill the set from the start |
| Distractors.GenerateAnswerOptions | app.js:413-430 | the result is a permutation of the loop's set: 4 or 5 distinct values containing `c`, every other value positive, not `c`, within [c-5, c+4] |
| Quiz.WeightedPool | app.js:269-288 | each fact of the universe gets the weight of its record; every weight is positive |
| Quiz.WeightedPoolTotal | app.js:269-292 | the pool's total weight is at least the number of facts, so a non-empty pool has a positive `totalWeight` |
| Quiz.TestRoundsLand | app.js:269-306 | in test mode every round, on the pool left by the earlier picks, picks the first fact whose running weight reaches `Math.random() * totalWeight` |
| Quiz.TestQuestionsSpec | app.js:219-309 | test mode asks `min(questionCount, |universe|)` well-formed questions of enabled types, all from the universe |
| Quiz.TestQuestionsDistinct | app.js:219-309 | with distinct series each at least 1, test mode never asks the same fact twice |
| Quiz.SingleSeriesUniverse | app.js:224-249 | with division and square root off, one series' universe is exactly s×1 … s×12 |
| Quiz.MulFactsOfSeries | app.js:226-234 | a series contributes 12 multiplication facts, all of that series |
| Quiz.SingleSeriesExample | app.js:219-309 | series {7}, no division or roots, 5 questions: 5 distinct multiplication facts of the 7 series |
| Quiz.ScreenAt | app.js:380-394 | the quiz ends exactly when index >= length; otherwise it shows question `index` with counter `index+1` of `length` and progress exactly `index/length * 100`, which lies in [0, 100) percent |
| Quiz.StatsRowUnread | app.js:533-571 | reading records through `getQuestionStats` never changes the colours a row shows |
| Quiz.GridKeysCover | app.js:520-535 | the statistics screen reads exactly the 121 keys `${s}x${i}` for s, i in 2..12 |
| Quiz.MathTrainingApp.constructor | app.js:5-23 | stored settings or the defaults; stored statistics plus fresh records for the grid keys; empty quiz, index 0, 10 questions; `correct <= total` holds when it held in storage |
| Quiz.MathTrainingApp.GetQuestionStats | app.js:494-499 | returns the observed record and inserts `{0,0}` for a missing key only; `correct <= total` is preserved |
| Quiz.MathTrainingApp.UpdateQuestionStats | app.js:501-506 | the map becomes `Record(old, key, isCorrect)`; `correct <= total` is preserved |
| Quiz.MathTrainingApp.ResetStats | app.js:508-513 | afterwards every lookup sees `{0,0}`; the map holds fresh records for exactly the grid keys, so `correct <= total` holds |
| Quiz.MathTrainingApp.UpdateStatistics | app.js:515-576 | returns the 11×11 grid of colour bands of the old records, and inserts fresh records for the grid keys; `correct <= total` is preserved |
| Quiz.MathTrainingApp.UpdateSeriesStatistics | app.js:533-571 | one row of that grid; `correct <= total` is preserved |
| Quiz.MathTrainingApp.GenerateSpacedRepetitionQuestions | app.js:219-309 | returns the weighted selection over the universe in draw order; the map gains fresh records for the universe keys; `correct <= total` is preserved |
| Quiz.MathTrainingApp.WeighFacts | app.js:269-288 | the `map` of the universe builds the weighted pool of the old records and inserts fresh records for the universe keys; `correct <= total` is preserved |
| Quiz.MathTrainingApp.GenerateQuestions | app.js:197-217 | test mode takes the weighted selection, any other mode the training list; the index restarts at 0; `correct <= total` is preserved |
| Quiz.MathTrainingApp.StartTraining | app.js:174-179 | training over the one series; `questionCount` questions, index 0; `correct <= total` is preserved |
| Quiz.MathTrainingApp.StartTest | app.js:181-195 | with no series checked it stops before regenerating questions (mode and selection already set); otherwise the weighted selection, index 0; `correct <= total` is preserved |
| Quiz.MathTrainingApp.HandleAnswer | app.js:432-437 | the answer is correct iff it equals the stored answer; the outcome is recorded; `correct <= total` is preserved |
| Quiz.MathTrainingApp.Advance | app.js:450-453 | each answer's delayed callback advances the index by exactly 1 |
| Quiz.MathTrainingApp.SetEnableDivision | app.js:57-60 | only the division flag changes |
| Quiz.MathTrainingApp.SetEnableSqrt | app.js:62-65 | only the square-root flag changes |
| Quiz.MathTrainingApp.SetQuestionCount | app.js:80-86 | the chosen count is stored |

## Left out

- DOM work is not modelled: event binding, view switching, modals, buttons, CSS classes, page titles,
  and the end-of-quiz view (app.js:26-171, 360-378, 397-410, 439-447, 456-465, 516-575). The model
  keeps only the state these handlers change and the data they display (`Quiz.ScreenAt`, the colour grid).
- Persistence (`localStorage`, `JSON.parse`/`JSON.stringify`, app.js:468-487 and the `saveStats`
  calls) is left out. The constructor takes the stored values as `Option` parameters.
- Timers, `alert` and `confirm` (app.js:50, 151, 189, 450-453, 461-464, 512) are dialog and timing
  side effects. The delayed index advance is the plain method `Advance`.
- `Math.random` itself is left out; every draw is a parameter. The models say nothing about the
  distribution of the random-comparator shuffle beyond the fact that it yields a permutation (supplied
  as input).
- Floating point is left out. `Math.sqrt` is the integer square root of the fixed perfect squares. Rates
  are exact rationals. The rounding in `random -= weight`, whose only defined fallback is index 0, is
  not modelled. The thresholds agree with IEEE division as long as totals stay far below 2^50.
- Question display text (`${s} × ${i} = ?` and so on) is a rendering of the key and is not modelled.
- Series are modelled as non-negative integers. The buttons and checkboxes that offer 2..12 live in
  HTML, which is not part of this model.
- Distractors.GenerateAnswerOptions: weaker than the source's loop, which runs until the set is full
  however long that takes. The model consumes a finite list of offset draws and returns `None` if they
  run out first. The source's loop does not end on every run of draws (`RejectedDrawsStall`). It ends
  with probability 1: `Progress` shows that every round can make progress, and `Completion` shows
  that for every `c >= 0` a few draws finish the set. Neither gives a bound on the loop's length.
- Training mode with an empty selection is not modelled. The series-index draws must be in range, so
  such a call cannot be expressed. The source's only training caller, `startTraining`, always passes
  one series.
