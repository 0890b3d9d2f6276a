# Emotion scorer and branching-lesson navigator

A Dafny model of the two pieces of logic in this training application that
are more than UI and camera glue.

**The blendshape-to-emotion scorer.** The training screen
(`src/app/training/emotion.tsx`) and the test screen (`src/app/test/page.tsx`)
each hold a copy. Each frame runs four steps:

- The face-landmarker result is read into a `name -> score` dictionary:
  - the training screen reads only `faceBlendshapes[0].categories`;
  - the test screen tries a bare array, then a `categories` array, then a flat object.
- A hand-tuned weight table gives every emotion a weighted linear score.
  Absent signals count as 0, and every score is clamped at 0.
- `neutral` is derived from the total:
  `1 - min(1, total / max(0.0001, 7))`.
  The test screen wraps this in one more `max(0, ...)`.
- All seven scores are divided by their sum. The top emotion is the head of
  a stable descending sort.

The training screen's loop step publishes the result into a shared slot.
It does so only when the loop is running, the video is ready and detection
succeeds.

**The branching-lesson navigator.** `types/types.tsx` defines choices,
narration lessons, user (choice) lessons and modules. `Lessons.tsx` shows a
lesson by speaker: a narration advances on a click, and a user lesson adds
the chosen answer's `next` to `cur` on submit. `training/page.tsx` drives the
screens over `(module, cur, finished)`: module selection, Start, the lesson
view, the finished screen and the way back.

Files and modules:

| file | module | contents |
|---|---|---|
| `js_values.dfy` | `JsValues` | `Option` (`??`), insertion-ordered records (JS objects with string keys), dictionaries, sums, scaling |
| `weight_tables.dfy` | `WeightTables` | the two weight tables, exactly as written, and their well-formedness |
| `scoring.dfy` | `Scoring` | `computeEmotionScores` in both variants, and its properties |
| `top_pick.dfy` | `TopPick` | the stable descending sort, the top pick and its fallback |
| `blendshapes.dfy` | `Blendshapes` | both blendshape readers |
| `estimation_loop.dfy` | `EstimationLoop` | per-frame estimates, the loop step and the shared slot |
| `lesson_types.dfy` | `LessonTypes` | `Choice`, `Lesson`, `Module`, `Modules` and the record encoding of lessons |
| `lessons.dfy` | `Lessons` | the speaker dispatch, `handleClick` and `handleSubmit` |
| `training_page.dfy` | `TrainingPage` | the screen state machine and its range invariant |

Modelling choices:

- Scores are `real`, so sum-to-one holds exactly. A record of scores is a
  sequence of `(key, value)` pairs in insertion order, because JavaScript
  object key order decides ties in the sort. Blendshape dictionaries are
  maps, since only lookups matter.
- The two copies of `computeEmotionScores` differ in the outer `max`
  around `neutral` (and a `console.table` call). A `NeutralRule` parameter selects the copy, and
  `Scoring.RulesAgree` proves the two copies equal.
- `Array.prototype.sort` is stable. Its result is therefore the unique
  stable descending order, which `TopPick.SortDescending` computes as an
  insertion sort.
- Detection, the camera and `requestAnimationFrame` are inputs. A frame
  carries its flags and the detection outcome (a result or a thrown
  error). A run of the loop is a sequence of frames. The step is generic
  in the estimator, and the training screen's estimator is
  `EstimationLoop.TrainingEstimate`.
- Rendering a lesson can fail in the source:
  - a lesson past the end of `module.lessons` makes `question` undefined;
  - a `"user"` lesson without two choices makes `choices[0]` or
    `choices[1]` undefined.

  These failures are the screen `TrainingPage.Crashed` and the view
  `Lessons.RenderError`. They are not preconditions.

Where the code differs from its own names and comments, the model follows
the code:

- `Choice.next` is commented as "the index of the next lesson"
  (`types/types.tsx:6`). `handleSubmit` (`Lessons.tsx:35,38`) adds it to
  `cur`, so it is an offset.
- The category count in the neutral formula is
  `Object.keys(emotionWeights).length`. That is 7, and it includes
  `neutral` itself.
- `handleSubmit` and the choice form read only `choices[0]` and
  `choices[1]`. They ignore further choices and fail with fewer.
- `renderLoop` checks `running` only before the `await` at
  `emotion.tsx:152` (see "Left out").
- The training screen's reader accepts only `categories`. It reads a bare
  array or a flat object as "no signals" (`Blendshapes.ReadersCompared`).

## Model

| member | source | states |
|---|---|---|
| JsValues.Put | src/app/training/emotion.tsx:139-140 | writing `scores["neutral"]` overwrites the existing key in place and keeps length and key order, or appends a new key at the end; distinct keys stay distinct |
| JsValues.PutLast | src/app/training/emotion.tsx:139-140 | writing the key of the last entry, held by no earlier entry, replaces that entry in place and leaves the rest as it was |
| JsValues.Get | src/app/training/emotion.tsx:136-143 | reading `scores[k]` from a record with distinct keys returns the value stored under `k`, and `None` exactly when `k` is absent; it is the read in which `scores[topEmotion] == topScore` is stated |
| JsValues.SumScale | src/app/training/emotion.tsx:143 | dividing every score by `d` divides their sum by `d` |
| JsValues.ScaleBySumIsDistribution | src/app/training/emotion.tsx:142-143 | dividing non-negative scores with a positive sum by that sum gives values in [0,1] that sum to 1 |
| JsValues.SumBoundsEach | src/app/training/emotion.tsx:142 | the sum of non-negative scores is non-negative and at least each score |
| WeightTables.TablesAreValid | src/app/training/emotion.tsx:53-121 | both tables have seven categories with distinct names, and `neutral` is last with no weights (test table: src/app/test/page.tsx:58-96) |
| WeightTables.TestWeightsNonNegative | src/app/test/page.tsx:58-96 | the test screen's table has no negative weight |
| WeightTables.TrainingAngryInhibitedBySmile | src/app/training/emotion.tsx:79-92 | `angry` carries `mouthSmileLeft: -1.0`, and `angry` is inhibited by both smile signals and by `eyeWideLeft`, while `happy` is excited by `mouthSmileLeft` |
| Scoring.CategoryScores | src/app/training/emotion.tsx:124-137 | every table category gets exactly one score, in table order, under its own name, and no score is negative |
| Scoring.Divisor | src/app/training/emotion.tsx:142 | the divisor (the sum, or 1 when the sum is 0) is never 0 and equals the sum whenever the sum is not 0 |
| Scoring.RawOfEmpty | src/app/training/emotion.tsx:131-134 | with no signals, every weighted sum is 0 |
| Scoring.RawCongruent | src/app/training/emotion.tsx:132 | the weighted sum depends only on the values read with default 0 |
| Scoring.RawMonotone | src/app/training/emotion.tsx:131-134 | raising a signal never lowers the raw score of a category that weights it non-negatively, and never raises the raw score of one that weights it non-positively |
| Scoring.ClampedMonotone | src/app/training/emotion.tsx:131-135 | the same monotonicity holds for the clamped per-category score |
| Scoring.RawNonNegative | src/app/test/page.tsx:104-112 | non-negative weights on non-negative signals give a non-negative sum, which the clamp leaves unchanged |
| Scoring.NeutralFacts | src/app/training/emotion.tsx:139-140 | for a non-negative total and a count of at least 1, neutral lies in [0,1], is 1 exactly when the total is 0, and is 0 exactly when the total reaches the count; below that it is `1 - total/count`; the test screen's outer `max` changes nothing |
| Scoring.NeutralCompletes | src/app/training/emotion.tsx:139-142 | for a non-negative total, neutral lies in [0,1] and total plus neutral is positive |
| Scoring.NeutralRulesAgree | src/app/test/page.tsx:117-120 | for a non-negative total, the outer `max(0, ...)` of the test copy leaves neutral unchanged |
| Scoring.NeutralDecreasing | src/app/test/page.tsx:116-120 | neutral never grows as the total grows, and strictly falls while the total is below the count |
| Scoring.CategoryScoresSplit | src/app/training/emotion.tsx:128-137 | the per-category loop yields the evidence of the six emotions followed by `neutral` with score 0, and `total` is the sum of that evidence |
| Scoring.UnnormalisedForm | src/app/training/emotion.tsx:139-140 | before division, the scores are the six emotions' evidence followed by the derived neutral, in both variants |
| Scoring.ScoresClosedForm | src/app/training/emotion.tsx:124-143 | `sumAll` equals the total plus neutral and is positive, so the fallback to 1 is never taken; the result is each of those scores divided by `sumAll` |
| Scoring.ScoresAreDistribution | src/app/training/emotion.tsx:142-143 | every valid table gives one score per category in table order, each in [0,1], summing to 1 (also src/app/test/page.tsx:122-123) |
| Scoring.ScaledEvidenceIsDistribution | src/app/training/emotion.tsx:142-143 | the six emotions' evidence followed by neutral, divided by their positive sum, keeps its keys and is a distribution: each value in [0,1], summing to 1 |
| Scoring.RulesAgree | src/app/test/page.tsx:116-120 | the test screen's formula, with the outer `max`, gives the same scores as the training screen's formula |
| Scoring.ScoresCongruent | src/app/training/emotion.tsx:132 | dictionaries that read alike under the default of 0 give the same scores |
| Scoring.AbsentSignalIsZero | src/app/test/page.tsx:108 | adding an absent signal with value 0 changes no score |
| Scoring.EmptySignalsAreNeutral | src/app/training/emotion.tsx:128-143 | with no signals, `neutral` scores 1 and every other category scores 0 |
| Scoring.NormaliseIdempotent | src/app/training/emotion.tsx:142-143 | normalising scores that already sum to 1 changes nothing |
| Scoring.TestTableNeedsNoClamp | src/app/test/page.tsx:112 | for non-negative signals, the clamp never changes a score of the test screen's table |
| TopPick.Insert | src/app/training/emotion.tsx:167 | inserting after every entry with a score at least as high keeps all entries (as a multiset) and puts the new entry first only when it beats the current head |
| TopPick.SortDescending | src/app/training/emotion.tsx:167 | the sort is a permutation of the entries |
| TopPick.InsertKeepsDescending | src/app/training/emotion.tsx:167 | insertion keeps a descending record descending |
| TopPick.SortIsDescending | src/app/training/emotion.tsx:167 | the sorted record is in descending order of score |
| TopPick.FirstMaxIndex | src/app/training/emotion.tsx:167-168 | the first entry holding the maximal score: no entry scores higher, and every earlier entry scores strictly lower |
| TopPick.TopIsFirstMax | src/app/training/emotion.tsx:167-168 | the top pick is the first entry with the maximal score, so a tie goes to the category earliest in table order |
| TopPick.TopSpec | src/app/training/emotion.tsx:168 | the `["neutral", 0]` fallback is taken exactly for an empty record; otherwise the top score is at least every score |
| TopPick.TopScoreIsStored | src/app/training/emotion.tsx:167-168 | for a record with distinct keys, `scores[topEmotion] == topScore` |
| Blendshapes.CollectKeys | src/app/training/emotion.tsx:161-162 | the dictionary's keys are exactly the category names of the entries |
| Blendshapes.CollectLastWins | src/app/test/page.tsx:175-178 | each name holds the score of its last entry, with a missing score read as 0, so a later duplicate overwrites an earlier one (also src/app/training/emotion.tsx:161-162) |
| Blendshapes.NoFaceIsEmpty | src/app/test/page.tsx:171 | a missing or empty `faceBlendshapes` gives the empty dictionary in both readers (also src/app/training/emotion.tsx:158) |
| Blendshapes.ReadersCompared | src/app/test/page.tsx:170-182 | a bare array is collected, a `categories` array is collected exactly as the training reader does, and a flat object is copied as is; the training reader reads the other shapes as no signals (src/app/training/emotion.tsx:157-164) |
| EstimationLoop.EstimateFacts | src/app/training/emotion.tsx:166-174 | the published result has one score per category, the scores sum to 1, each score lies between 0 and `topScore`, and `scores[topEmotion] == topScore` |
| EstimationLoop.TestScreenFacts | src/app/test/page.tsx:184-188 | the test screen's scores sum to 1, and the emotion shown is stored with the score shown, which is at least every score |
| EstimationLoop.NoSignalsTopIsNeutral | src/app/training/emotion.tsx:166-168 | with no signals, the top pick is `neutral` with score 1 in both variants |
| EstimationLoop.NoFaceEstimatesNeutral | src/app/test/page.tsx:184-186 | with no face, both screens estimate `neutral` with score 1 (also src/app/training/emotion.tsx:157-168) |
| EstimationLoop.Step | src/app/training/emotion.tsx:147-181 | the slot changes only when the loop is running, the video is ready and detection succeeds, and then it holds that frame's estimate; the step reschedules exactly when the loop is running with a landmarker and a video |
| EstimationLoop.StepIsPublished | src/app/training/emotion.tsx:148-180 | a step leaves the slot holding the frame's published estimate if there is one and the previous value otherwise; the video not being ready and a thrown error both keep the slot and reschedule |
| EstimationLoop.RunIsLatestPublished | src/app/training/emotion.tsx:170-180 | while the loop keeps running, the slot holds the estimate of the latest frame that published one: results are superseded, never merged |
| EstimationLoop.NoWriteAfterTeardown | src/app/training/emotion.tsx:185-186 | once a step finds `running` false the loop stops, and no later frame changes the slot (src/app/training/emotion.tsx:148) |
| EstimationLoop.NothingPublishedKeepsSlot | src/app/training/page.tsx:14 | frames that publish nothing leave the slot unchanged, so it stays `null` from the start until the first successful detection |
| LessonTypes.ToRecord | types/types.tsx:13-29 | a lesson's record has `choices` exactly for a user lesson and `end` only for a standard lesson, and a user lesson's speaker is `"user"` |
| LessonTypes.RecordRoundTrip | types/types.tsx:31-37 | every lesson reads back from its record as itself, and a record that reads as a lesson is exactly that lesson's record: the union is disjoint and decided by whether `choices` is present |
| LessonTypes.MalformedRecords | types/types.tsx:24-28 | a record with choices and any speaker other than `"user"`, or with both choices and an `end` field, is not a lesson |
| Lessons.ViewOf | src/app/training/Lessons.tsx:42-113 | speaker `"user"` shows the first two choices when there are at least two and fails to render otherwise; the four narrator speakers show a clickable narration carrying the `end` flag; any other speaker shows nothing |
| Lessons.ClickSpec | src/app/training/Lessons.tsx:23-27 | clicking a narration without `end` sets `cur := cur + 1` and keeps `finished`; with `end` it sets `finished` and keeps `cur`; a narration has no submit |
| Lessons.SubmitSpec | src/app/training/Lessons.tsx:29-40 | submitting `choices[1].message` sets `cur := cur + choices[1].next` even when it equals `choices[0].message`; `choices[0].message` alone sets `cur := cur + choices[0].next`; no answer, or any other answer, changes nothing; submit never sets `finished` |
| Lessons.NoHandlerWithoutView | src/app/training/Lessons.tsx:42-113 | a lesson that is neither a narration nor a user lesson with two choices handles no event |
| TrainingPage.ScreenOf | src/app/training/page.tsx:16-97 | no module shows selection whatever `cur` and `finished` are; with a module, `finished` takes precedence; then `cur == -1` shows Start; otherwise an in-range `cur` shows `module.lessons[cur]` and an out-of-range `cur` crashes, since there is no bounds check |
| TrainingPage.ScreenTransitions | src/app/training/page.tsx:10-86 | the initial state shows selection; selecting a module sets it and nothing else; going back restores exactly the initial state; Start sets `cur := 0`; selection is not offered once a module is set |
| TrainingPage.ValidNeverCrashes | src/app/training/page.tsx:88-89 | in a valid state the lesson index is in range and the lesson shown can be rendered |
| TrainingPage.NextPreservesValid | src/app/training/page.tsx:77-89 | over well-formed modules, every click, submit, Start, selection and go-back keeps `cur` between -1 and the last lesson index (src/app/training/Lessons.tsx:23-39) |
| TrainingPage.ReachableNeverCrashes | src/app/training/page.tsx:88-89 | from a valid state, no sequence of events over well-formed modules reaches an out-of-range lesson |

## Left out

- `src/app/chat/route.tsx` is not part of this model. It only forwards a request to a chat-completion server.
- MediaPipe loading, `detectForVideo` itself, `getUserMedia`, stopping the stream and `close()` are left out. They are foreign calls and device I/O, so a frame carries the detection outcome as an input.
- `requestAnimationFrame` scheduling and the `await` are not modelled as concurrency. A run is a sequence of whole frames, each step checking `running` at its start. The source does not re-check `running` after the `await` at `src/app/training/emotion.tsx:152`, so a frame already waiting on detection at teardown can still write the slot. `EstimationLoop.NoWriteAfterTeardown` covers only frames that start after teardown.
- The test screen's loop step (`setEmotionText`, `drawResults`, its early reschedule when the video is not ready) is left out. It only displays text. Its normaliser, scorer and top pick are modelled (`EstimationLoop.EstimateTestScreen`).
- `drawResults`, all JSX layout and the canvas are left out, because they only render.
- `getTime` and `handleLogging` in `Lessons.tsx` are left out: they format a timestamp and write to the console.
- All console output is left out, because it changes no state. This covers `console.table(blendshapes)` (`src/app/test/page.tsx:101`), `console.error` in both catch blocks (`src/app/training/emotion.tsx:176`, `src/app/test/page.tsx:192`), `console.log(cur)` (`src/app/training/Lessons.tsx:7`), and `console.log(modules[key])` and the log of the slot on the selection screen (`src/app/training/page.tsx:25,31`).
- IEEE-754 rounding is left out. Scores are exact reals, so sum-to-one is exact in the model and only approximate in the source.
- The content of `modules.json` is not part of this model. Modules are a parameter, and the navigator's invariant assumes they are well formed (`TrainingPage.WellFormedModule`).
- `Object.assign` of a flat object is modelled as a `name -> number` map. Non-numeric values are not modelled.
- Scoring.RawMonotone: monotonicity is stated per signal, for a category whose every weight on that signal has one sign (`Excites` or `Inhibits`). A table listing one signal twice with opposite signs is outside it. Both tables list each signal once.
