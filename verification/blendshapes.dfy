/** Turning a face-landmarker result into a `name -> score` dictionary.

    The training screen reads only `faceBlendshapes[0].categories`; the test
    screen tries three shapes of `faceBlendshapes[0]` in turn. Both treat a
    missing or empty `faceBlendshapes` as "no signals", never as an error.
 */
module Blendshapes {
  import opened JsValues

  /** `{ categoryName, score? }` */
  datatype Category = Category(categoryName: string, score: Option<real>)

  /** The shapes `faceBlendshapes[0]` may take. */
  datatype FaceBlendshapes =
    | CategoryList(entries: seq<Category>)      // a bare array of entries
    | WithCategories(categories: seq<Category>) // an object whose `categories` is an array
    | FlatObject(fields: Dict)                  // any other object, read as name -> score

  /** A detector result; `None` when `faceBlendshapes` is missing. */
  datatype DetectionResult = DetectionResult(faceBlendshapes: Option<seq<FaceBlendshapes>>)

  /** `b.score ?? 0` */
  function ScoreOf(c: Category): real { c.score.GetOr(0.0) }

  /** No entry after position `i` carries the same name as entry `i`. */
  predicate LastWithName(cs: seq<Category>, i: int)
    requires 0 <= i < |cs|
  {
    forall j :: i < j < |cs| ==> cs[j].categoryName != cs[i].categoryName
  }

  /** `for (const b of cs) dict[b.categoryName] = b.score ?? 0`, starting
      from an empty dictionary. */
  function Collect(cs: seq<Category>): Dict {
    if |cs| == 0 then map[]
    else Collect(cs[..|cs| - 1])[cs[|cs| - 1].categoryName := ScoreOf(cs[|cs| - 1])]
  }

  /** The keys collected are exactly the names seen. */
  lemma {:induction false} CollectKeys(cs: seq<Category>)
    ensures forall k :: k in Collect(cs) <==> exists i :: 0 <= i < |cs| && cs[i].categoryName == k
  {
    if |cs| > 0 {
      var p := cs[..|cs| - 1];
      CollectKeys(p);
      forall k | k in Collect(cs) && k != cs[|cs| - 1].categoryName
        ensures exists i :: 0 <= i < |cs| && cs[i].categoryName == k
      {
        assert k in Collect(p);
        var i :| 0 <= i < |p| && p[i].categoryName == k;
        assert cs[i] == p[i];
      }
      forall i | 0 <= i < |p| ensures cs[i].categoryName in Collect(cs) {
        assert cs[i] == p[i];
      }
    }
  }

  /** Each name holds the score of its last entry: a later duplicate
      overwrites an earlier one, and a missing score reads as 0. */
  lemma {:induction false} CollectLastWins(cs: seq<Category>, i: nat)
    requires i < |cs| && LastWithName(cs, i)
    ensures cs[i].categoryName in Collect(cs)
    ensures Collect(cs)[cs[i].categoryName] == ScoreOf(cs[i])
  {
    var p, last := cs[..|cs| - 1], cs[|cs| - 1];
    if i < |cs| - 1 {
      assert cs[i] == p[i];
      assert LastWithName(p, i) by {
        forall j | i < j < |p| ensures p[j].categoryName != p[i].categoryName {
          assert p[j] == cs[j];
        }
      }
      CollectLastWins(p, i);
      assert last.categoryName != cs[i].categoryName;
    }
  }

  /** The training screen's extraction: only `faceBlendshapes[0].categories`. */
  function ExtractCategories(r: DetectionResult): Dict {
    match r.faceBlendshapes
    case Some(faces) =>
      if |faces| > 0 && faces[0].WithCategories? then Collect(faces[0].categories) else map[]
    case None => map[]
  }

  /** The test screen's normaliser: a bare array, then a `categories` array,
      then a flat object copied as is. */
  function NormaliseThreeWay(r: DetectionResult): Dict {
    match r.faceBlendshapes
    case Some(faces) =>
      if |faces| == 0 then map[]
      else (match faces[0]
        case CategoryList(entries) => Collect(entries)
        case WithCategories(categories) => Collect(categories)
        case FlatObject(fields) => fields)
    case None => map[]
  }

  /** No face: both readers yield the empty dictionary. */
  lemma NoFaceIsEmpty(r: DetectionResult)
    requires r.faceBlendshapes.None? || r.faceBlendshapes == Some([])
    ensures ExtractCategories(r) == map[] && NormaliseThreeWay(r) == map[]
  {
  }

  /** The two readers agree exactly on the shape the training screen
      understands, and the training screen reads every other shape as
      "no signals" however much the face carries. */
  lemma ReadersCompared(r: DetectionResult)
    requires r.faceBlendshapes.Some? && |r.faceBlendshapes.value| > 0
    ensures r.faceBlendshapes.value[0].WithCategories? ==>
      ExtractCategories(r) == NormaliseThreeWay(r)
    ensures !r.faceBlendshapes.value[0].WithCategories? ==> ExtractCategories(r) == map[]
    ensures r.faceBlendshapes.value[0].FlatObject? ==>
      NormaliseThreeWay(r) == r.faceBlendshapes.value[0].fields
    ensures r.faceBlendshapes.value[0].CategoryList? ==>
      NormaliseThreeWay(r) == Collect(r.faceBlendshapes.value[0].entries)
  {
  }

}
