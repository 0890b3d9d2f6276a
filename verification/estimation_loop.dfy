/** The per-frame estimation pipelines and the training screen's render
    loop, which publishes each estimate into a single shared result slot.

    Detection itself (the face-landmarker call) is not modelled: a frame
    carries its outcome, either a result or a thrown error. Scheduling by
    `requestAnimationFrame` is modelled by the step reporting whether it
    reschedules itself, and a run as a sequence of frames.
 */
module EstimationLoop {
  import opened JsValues
  import opened WeightTables
  import opened Scoring
  import opened TopPick
  import opened Blendshapes

  /** `{ topEmotion, topScore, scores }` */
  datatype EstimationResult = EstimationResult(topEmotion: string, topScore: real, scores: Record)

  /** Scores and top pick of one training-screen frame, for weight table
      `t` (the screen uses `TrainingWeights`). */
  function Estimate(t: WeightTable, r: DetectionResult): EstimationResult {
    var scores := ComputeScores(Unclamped, t, ExtractCategories(r));
    var top := Top(scores);
    EstimationResult(top.0, top.1, scores)
  }

  /** What the training screen publishes is a distribution with one entry
      per category, whose top entry is stored under its own name and is at
      least every score; the `["neutral", 0]` fallback is never taken. */
  lemma EstimateFacts(t: WeightTable, r: DetectionResult)
    requires ValidTable(t)
    ensures var e := Estimate(t, r);
            && |e.scores| == |t| && SumValues(e.scores) == 1.0
            && (forall i :: 0 <= i < |e.scores| ==> e.scores[i].0 == t[i].0)
            && (forall i :: 0 <= i < |e.scores| ==> 0.0 <= e.scores[i].1 <= e.topScore)
            && Get(e.scores, e.topEmotion) == Some(e.topScore)
  {
    var scores := ComputeScores(Unclamped, t, ExtractCategories(r));
    ScoresAreDistribution(Unclamped, t, ExtractCategories(r));
    TopSpec(scores);
    TopScoreIsStored(scores);
  }

  /** How a frame's detector result becomes an estimate. */
  type Estimator = DetectionResult -> EstimationResult

  /** The estimator of the training screen. */
  function TrainingEstimate(r: DetectionResult): EstimationResult {
    Estimate(TrainingWeights, r)
  }

  /** The test screen's frame: three-way normaliser, floored neutral, its
      own table; it yields the text shown, `topEmotion (topScore)`. */
  function EstimateTestScreen(r: DetectionResult): (string, real) {
    Top(ComputeScores(ClampedAtZero, TestWeights, NormaliseThreeWay(r)))
  }

  /** The test screen shows a score stored under the emotion shown, at least
      every score of its distribution. */
  lemma TestScreenFacts(r: DetectionResult)
    ensures var scores := ComputeScores(ClampedAtZero, TestWeights, NormaliseThreeWay(r));
            && SumValues(scores) == 1.0
            && Get(scores, EstimateTestScreen(r).0) == Some(EstimateTestScreen(r).1)
            && forall i :: 0 <= i < |scores| ==> 0.0 <= scores[i].1 <= EstimateTestScreen(r).1
  {
    TablesAreValid();
    var scores := ComputeScores(ClampedAtZero, TestWeights, NormaliseThreeWay(r));
    ScoresAreDistribution(ClampedAtZero, TestWeights, NormaliseThreeWay(r));
    TopSpec(scores);
    TopScoreIsStored(scores);
  }

  /** With no face the top emotion is `neutral` with score 1, whichever
      copy of the formula and whichever valid table is used. */
  lemma NoSignalsTopIsNeutral(rule: NeutralRule, t: WeightTable)
    requires ValidTable(t)
    ensures Top(ComputeScores(rule, t, map[])) == ("neutral", 1.0)
  {
    var r := ComputeScores(rule, t, map[]);
    EmptySignalsAreNeutral(rule, t);
    TopIsFirstMax(r);
    var i := FirstMaxIndex(r);
    assert r[|t| - 1].1 <= r[i].1;
  }

  /** No face on either screen: `neutral`, with score 1. */
  lemma NoFaceEstimatesNeutral(r: DetectionResult)
    requires r.faceBlendshapes.None? || r.faceBlendshapes == Some([])
    ensures TrainingEstimate(r).topEmotion == "neutral" && TrainingEstimate(r).topScore == 1.0
    ensures EstimateTestScreen(r) == ("neutral", 1.0)
  {
    NoFaceIsEmpty(r);
    TablesAreValid();
    NoSignalsTopIsNeutral(Unclamped, TrainingWeights);
    NoSignalsTopIsNeutral(ClampedAtZero, TestWeights);
  }

  /** What one frame of the training screen's loop finds. */
  datatype Detection = Detected(result: DetectionResult) | Threw

  datatype Frame = Frame(
    running: bool,          // the effect has not been torn down
    landmarkerLoaded: bool, // `faceLandmarker` is set
    videoMounted: bool,     // `videoRef.current` is set
    readyState: int,        // `videoRef.current.readyState`
    detection: Detection)   // outcome of `detectForVideo`, if it is called

  datatype StepOutcome = StepOutcome(slot: Option<EstimationResult>, rescheduled: bool)

  /** One call of `renderLoop`. */
  function Step(estimate: Estimator, slot: Option<EstimationResult>, f: Frame): (o: StepOutcome)
    ensures o.slot != slot ==> f.running && f.readyState >= 2 && f.detection.Detected?
    ensures o.slot == slot || o.slot == Some(estimate(f.detection.result))
    ensures o.rescheduled <==> f.running && f.landmarkerLoaded && f.videoMounted
  {
    if !f.running || !f.landmarkerLoaded || !f.videoMounted then StepOutcome(slot, false)
    else if f.readyState >= 2 then
      match f.detection
      case Detected(r) => StepOutcome(Some(estimate(r)), true)
      case Threw => StepOutcome(slot, true)
    else StepOutcome(slot, true)
  }

  /** The estimate a frame publishes, if any. */
  function Published(estimate: Estimator, f: Frame): Option<EstimationResult> {
    if f.running && f.landmarkerLoaded && f.videoMounted && f.readyState >= 2 && f.detection.Detected?
    then Some(estimate(f.detection.result))
    else None
  }

  /** The loop driven over a sequence of frames until a step does not
      reschedule; the slot as it is left. */
  function Run(estimate: Estimator, slot: Option<EstimationResult>, frames: seq<Frame>): Option<EstimationResult>
    decreases |frames|
  {
    if |frames| == 0 then slot
    else
      var o := Step(estimate, slot, frames[0]);
      if o.rescheduled then Run(estimate, o.slot, frames[1..]) else o.slot
  }

  /** The slot read by the training page before any frame is published. */
  const InitialSlot: Option<EstimationResult> := None

  /** Last write wins: the slot holds the estimate of the latest frame that
      published one, or what it held before when none did. */
  function LatestPublished(estimate: Estimator, slot: Option<EstimationResult>, frames: seq<Frame>): Option<EstimationResult> {
    if |frames| == 0 then slot
    else match Published(estimate, frames[|frames| - 1])
      case Some(e) => Some(e)
      case None => LatestPublished(estimate, slot, frames[..|frames| - 1])
  }

  predicate KeepsRunning(f: Frame) {
    f.running && f.landmarkerLoaded && f.videoMounted
  }

  lemma StepIsPublished(estimate: Estimator, slot: Option<EstimationResult>, f: Frame)
    ensures Step(estimate, slot, f).slot == (if Published(estimate, f).Some? then Published(estimate, f) else slot)
    ensures Step(estimate, slot, f).rescheduled == KeepsRunning(f)
  {
  }

  lemma {:induction false} LatestPublishedAppend(estimate: Estimator, slot: Option<EstimationResult>, frames: seq<Frame>, f: Frame)
    ensures LatestPublished(estimate, slot, [f] + frames) == LatestPublished(estimate, Step(estimate, slot, f).slot, frames)
  {
    StepIsPublished(estimate, slot, f);
    if |frames| > 0 {
      var q := frames[..|frames| - 1];
      assert ([f] + frames)[..|frames|] == [f] + q;
      assert ([f] + frames)[|frames|] == frames[|frames| - 1];
      LatestPublishedAppend(estimate, slot, q, f);
    }
  }

  /** While every frame keeps the loop alive, the slot after the run is the
      latest published estimate. */
  lemma {:induction false} RunIsLatestPublished(estimate: Estimator, slot: Option<EstimationResult>, frames: seq<Frame>)
    requires forall i :: 0 <= i < |frames| ==> KeepsRunning(frames[i])
    ensures Run(estimate, slot, frames) == LatestPublished(estimate, slot, frames)
    decreases |frames|
  {
    if |frames| > 0 {
      var rest := frames[1..];
      StepIsPublished(estimate, slot, frames[0]);
      RunIsLatestPublished(estimate, Step(estimate, slot, frames[0]).slot, rest);
      LatestPublishedAppend(estimate, slot, rest, frames[0]);
      assert [frames[0]] + rest == frames;
    }
  }

  /** After teardown nothing is written: a frame that finds `running` false
      ends the loop, and no later frame changes the slot. */
  lemma {:induction false} NoWriteAfterTeardown(estimate: Estimator, slot: Option<EstimationResult>, before: seq<Frame>, f: Frame, after: seq<Frame>)
    requires !f.running
    ensures Run(estimate, slot, before + [f] + after) == Run(estimate, slot, before)
    decreases |before|
  {
    if |before| == 0 {
      assert before + [f] + after == [f] + after;
    } else {
      var o := Step(estimate, slot, before[0]);
      assert (before + [f] + after)[1..] == before[1..] + [f] + after;
      if o.rescheduled {
        NoWriteAfterTeardown(estimate, o.slot, before[1..], f, after);
      }
    }
  }

  /** A run that never publishes leaves the slot as it was; from the
      initial slot it stays empty. */
  lemma {:induction false} NothingPublishedKeepsSlot(estimate: Estimator, slot: Option<EstimationResult>, frames: seq<Frame>)
    requires forall i :: 0 <= i < |frames| ==> Published(estimate, frames[i]).None?
    ensures Run(estimate, slot, frames) == slot
    decreases |frames|
  {
    if |frames| > 0 {
      StepIsPublished(estimate, slot, frames[0]);
      NothingPublishedKeepsSlot(estimate, slot, frames[1..]);
    }
  }
}
