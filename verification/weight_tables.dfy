/** The two hand-tuned blendshape-to-emotion weight tables, as ordered data.

    Key order is kept because it is observable: the scores record inherits
    it, and the stable sort that picks the top emotion breaks ties by it.
 */
module WeightTables {

  /** Signal name to signed weight, in declaration order. */
  type Weights = seq<(string, real)>

  /** Emotion category to its weights, in declaration order. */
  type WeightTable = seq<(string, Weights)>

  predicate DistinctNames(t: WeightTable) {
    forall i, j :: 0 <= i < j < |t| ==> t[i].0 != t[j].0
  }

  /** The shape both tables have: distinct category names (as the keys of
      an object literal are) and a weightless `neutral` category last. */
  predicate ValidTable(t: WeightTable) {
    && |t| > 0
    && DistinctNames(t)
    && t[|t| - 1] == ("neutral", [])
  }

  predicate NonNegativeWeights(w: Weights) {
    forall i :: 0 <= i < |w| ==> 0.0 <= w[i].1
  }

  /** Every entry for signal `k` in `w` pushes the score up (or `k` is not
      listed at all). */
  predicate Excites(w: Weights, k: string) {
    forall i :: 0 <= i < |w| && w[i].0 == k ==> 0.0 <= w[i].1
  }

  /** Every entry for signal `k` in `w` pushes the score down (or `k` is not
      listed at all). */
  predicate Inhibits(w: Weights, k: string) {
    forall i :: 0 <= i < |w| && w[i].0 == k ==> w[i].1 <= 0.0
  }

  /** The training screen's table (src/app/training/emotion.tsx). */
  const TrainingWeights: WeightTable := [
    ("happy", [
      ("mouthSmileLeft", 1.3), ("mouthSmileRight", 1.3),
      ("eyeSquintLeft", 0.9), ("eyeSquintRight", 0.9),
      ("mouthPressLeft", 0.8), ("mouthPressRight", 0.8),
      ("browOuterUpLeft", 0.7), ("browOuterUpRight", 0.7),
      ("mouthDimpleLeft", 0.5), ("mouthDimpleRight", 0.5)]),
    ("sad", [
      ("mouthShrugLower", 1.3), ("mouthShrugUpper", 1.0),
      ("browInnerUp", 0.7),
      ("browDownLeft", 0.6), ("browDownRight", 0.6),
      ("eyeSquintLeft", 0.8), ("eyeSquintRight", 0.8),
      ("mouthPressLeft", 0.7), ("mouthPressRight", 0.5),
      ("mouthFrownLeft", 0.3), ("mouthFrownRight", 0.3)]),
    ("angry", [
      ("mouthPucker", 1.2),
      ("eyeSquintLeft", 0.8), ("eyeSquintRight", 0.8),
      ("browDownLeft", 0.7), ("browDownRight", 0.7),
      ("jawForward", 0.6),
      ("noseSneerLeft", 0.3), ("noseSneerRight", 0.3),
      ("eyeWideLeft", -0.7), ("eyeWideRight", -0.7),
      ("mouthSmileLeft", -1.0), ("mouthSmileRight", -1.0)]),
    ("surprised", [
      ("eyeWideLeft", 1.0), ("eyeWideRight", 1.0),
      ("browInnerUp", 0.8),
      ("browOuterUpLeft", 0.5), ("browOuterUpRight", 0.5),
      ("jawOpen", 0.8),
      ("mouthPucker", -0.6)]),
    ("disgusted", [
      ("noseSneerLeft", 1.0), ("noseSneerRight", 1.0),
      ("upperLipRaiseLeft", 0.7), ("upperLipRaiseRight", 0.7),
      ("mouthPucker", 0.3),
      ("eyeSquintLeft", 0.3), ("eyeSquintRight", 0.3)]),
    ("fearful", [
      ("eyeWideLeft", 0.9), ("eyeWideRight", 0.9),
      ("browInnerUp", 0.7),
      ("mouthStretchLeft", 0.5), ("mouthStretchRight", 0.5),
      ("jawOpen", 0.5),
      ("mouthPucker", 0.2)]),
    ("neutral", [])
  ]

  /** The test screen's table (src/app/test/page.tsx): no negative weights. */
  const TestWeights: WeightTable := [
    ("happy", [("mouthSmileLeft", 1.0), ("mouthSmileRight", 1.0), ("mouthOpen", 0.2)]),
    ("sad", [("mouthFrownLeft", 0.9), ("mouthFrownRight", 0.9), ("browInnerUp", 0.4)]),
    ("angry", [
      ("browDownLeft", 0.9), ("browDownRight", 0.9),
      ("noseSneerLeft", 0.3), ("noseSneerRight", 0.3)]),
    ("surprised", [("eyesWideLeft", 0.9), ("eyesWideRight", 0.9), ("mouthOpen", 0.8)]),
    ("disgusted", [("noseSneerLeft", 0.9), ("noseSneerRight", 0.9), ("mouthFunnel", 0.2)]),
    ("fearful", [
      ("eyesWideLeft", 0.6), ("eyesWideRight", 0.6),
      ("browInnerUp", 0.6), ("mouthOpen", 0.4)]),
    ("neutral", [])
  ]

  /** Both tables have seven categories, distinct, with `neutral` last and
      weightless. */
  lemma TablesAreValid()
    ensures ValidTable(TrainingWeights) && |TrainingWeights| == 7
    ensures ValidTable(TestWeights) && |TestWeights| == 7
  {
  }

  /** Every weight of the test table is non-negative. */
  lemma TestWeightsNonNegative()
    ensures forall i :: 0 <= i < |TestWeights| ==> NonNegativeWeights(TestWeights[i].1)
  {
  }

  /** The training table does carry inhibitory weights: a smile counts
      against `angry`, and so does each wide-open eye. */
  lemma TrainingAngryInhibitedBySmile()
    ensures TrainingWeights[2].0 == "angry"
    ensures TrainingWeights[2].1[10] == ("mouthSmileLeft", -1.0)
    ensures Inhibits(TrainingWeights[2].1, "mouthSmileLeft")
    ensures Inhibits(TrainingWeights[2].1, "mouthSmileRight")
    ensures Inhibits(TrainingWeights[2].1, "eyeWideLeft")
    ensures Excites(TrainingWeights[0].1, "mouthSmileLeft")
  {
  }
}
