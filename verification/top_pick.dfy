/** Picking the top emotion:
    `Object.entries(scores).sort((a, b) => b[1] - a[1])[0] ?? ["neutral", 0]`.

    `Array.prototype.sort` is stable, and a stable sort by a given order has
    exactly one possible result, so it is modelled here by a stable
    insertion sort: each entry is placed after every earlier entry whose
    score is at least its own.
 */
module TopPick {
  import opened JsValues

  predicate Descending(r: Record) {
    forall i, j :: 0 <= i < j < |r| ==> r[j].1 <= r[i].1
  }

  /** Places `x` after every entry of `sorted` scoring at least `x.1`. */
  function Insert(sorted: Record, x: (string, real)): (r: Record)
    ensures |r| == |sorted| + 1
    ensures multiset(r) == multiset(sorted) + multiset{x}
    ensures |sorted| > 0 && x.1 <= sorted[0].1 ==> r[0] == sorted[0]
    ensures |sorted| == 0 || sorted[0].1 < x.1 ==> r[0] == x
  {
    if |sorted| == 0 then [x]
    else if sorted[0].1 < x.1 then [x] + sorted
    else
      assert sorted == [sorted[0]] + sorted[1..];
      [sorted[0]] + Insert(sorted[1..], x)
  }

  /** `Object.entries(scores).sort((a, b) => b[1] - a[1])` */
  function SortDescending(r: Record): (s: Record)
    ensures |s| == |r|
    ensures multiset(s) == multiset(r)
  {
    if |r| == 0 then []
    else
      assert r == r[..|r| - 1] + [r[|r| - 1]];
      Insert(SortDescending(r[..|r| - 1]), r[|r| - 1])
  }

  lemma {:induction false} InsertKeepsDescending(sorted: Record, x: (string, real))
    requires Descending(sorted)
    ensures Descending(Insert(sorted, x))
  {
    if |sorted| > 0 && x.1 <= sorted[0].1 {
      InsertKeepsDescending(sorted[1..], x);
      var r := Insert(sorted, x);
      var tail := Insert(sorted[1..], x);
      assert r == [sorted[0]] + tail;
      forall j | 0 < j < |r| ensures r[j].1 <= r[0].1 {
        assert r[j] in multiset(tail);
        assert r[j] in multiset(sorted[1..]) + multiset{x};
        if r[j] != x {
          assert r[j] in sorted[1..];
        }
      }
    }
  }

  /** The sort's output is ordered by descending score (and, by its
      contract, a permutation of its input). */
  lemma {:induction false} SortIsDescending(r: Record)
    ensures Descending(SortDescending(r))
  {
    if |r| > 0 {
      SortIsDescending(r[..|r| - 1]);
      InsertKeepsDescending(SortDescending(r[..|r| - 1]), r[|r| - 1]);
    }
  }

  /** The first position holding the highest score, found by a left-to-right
      scan that only moves on a strictly higher score. */
  function FirstMaxIndex(r: Record): (i: nat)
    requires |r| > 0
    ensures i < |r|
    ensures forall j :: 0 <= j < |r| ==> r[j].1 <= r[i].1
    ensures forall j :: 0 <= j < i ==> r[j].1 < r[i].1
  {
    if |r| == 1 then 0
    else
      var p := r[..|r| - 1];
      var i := FirstMaxIndex(p);
      assert forall j :: 0 <= j < |p| ==> p[j] == r[j];
      if r[i].1 < r[|r| - 1].1 then |r| - 1 else i
  }

  /** `sorted[0] ?? ["neutral", 0]` */
  function Top(r: Record): (string, real) {
    var sorted := SortDescending(r);
    if |sorted| > 0 then sorted[0] else ("neutral", 0.0)
  }

  /** Tie-breaking: the stable sort puts first the earliest entry holding
      the maximal score, so among equal scores table order decides. */
  lemma {:induction false} TopIsFirstMax(r: Record)
    requires |r| > 0
    ensures Top(r) == r[FirstMaxIndex(r)]
  {
    if |r| > 1 {
      var p := r[..|r| - 1];
      TopIsFirstMax(p);
      assert p[FirstMaxIndex(p)] == r[FirstMaxIndex(p)];
    }
  }

  /** The pick is an entry of the record, scores at least as much as every
      entry, and beats every entry before it strictly; the
      `["neutral", 0]` fallback is taken only for an empty record. */
  lemma TopSpec(r: Record)
    ensures |r| == 0 ==> Top(r) == ("neutral", 0.0)
    ensures |r| > 0 ==>
      exists i :: 0 <= i < |r| && Top(r) == r[i] && (forall j :: 0 <= j < i ==> r[j].1 < r[i].1)
    ensures forall j :: 0 <= j < |r| ==> r[j].1 <= Top(r).1
  {
    if |r| > 0 {
      TopIsFirstMax(r);
    }
  }

  /** With distinct keys the top score is what the record stores under the
      top emotion. */
  lemma TopScoreIsStored(r: Record)
    requires |r| > 0 && DistinctKeys(r)
    ensures Get(r, Top(r).0) == Some(Top(r).1)
  {
    TopIsFirstMax(r);
  }
}
