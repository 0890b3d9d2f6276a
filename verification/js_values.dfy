/** The few JavaScript value idioms the emotion scorer is built from:
    optional fields read with `??`, a `Record<string, number>` whose key
    order is observable through `Object.entries`, and a dictionary lookup
    in which a missing key reads as 0.
 */
module JsValues {

  /** A field that may be absent (`undefined` / `null`). */
  datatype Option<+T> = None | Some(value: T) {

    /** `x ?? fallback` */
    function GetOr(fallback: T): T {
      match this
      case Some(v) => v
      case None => fallback
    }
  }

  /** A string-keyed record of numbers in key-insertion order. */
  type Record = seq<(string, real)>

  /** A string-keyed dictionary of numbers read only through lookups. */
  type Dict = map<string, real>

  function Max(a: real, b: real): real { if a >= b then a else b }

  function Min(a: real, b: real): real { if a <= b then a else b }

  /** `d[k] ?? 0` */
  function Lookup(d: Dict, k: string): real {
    if k in d then d[k] else 0.0
  }

  predicate HasKey(r: Record, k: string) {
    exists i :: 0 <= i < |r| && r[i].0 == k
  }

  predicate DistinctKeys(r: Record) {
    forall i, j :: 0 <= i < j < |r| ==> r[i].0 != r[j].0
  }

  /** Position of `k` in `r`, if present: the first one. */
  function IndexOf(r: Record, k: string): (o: Option<nat>)
    ensures o.Some? ==> o.value < |r| && r[o.value].0 == k
    ensures o.Some? ==> forall j :: 0 <= j < o.value ==> r[j].0 != k
    ensures o.None? <==> !HasKey(r, k)
  {
    if |r| == 0 then None
    else if r[0].0 == k then Some(0)
    else match IndexOf(r[1..], k)
      case None =>
        assert forall i :: 1 <= i < |r| ==> r[i] == r[1..][i - 1];
        None
      case Some(i) =>
        assert r[1..][i] == r[i + 1];
        Some(i + 1)
  }

  /** `rec[k] = v`: a present key keeps its place and takes the new value,
      an absent key is appended at the end. */
  function Put(r: Record, k: string, v: real): (r': Record)
    ensures HasKey(r, k) ==> |r'| == |r|
    ensures !HasKey(r, k) ==> r' == r + [(k, v)]
    ensures DistinctKeys(r) && HasKey(r, k) ==>
      forall i :: 0 <= i < |r| ==> r'[i] == (if r[i].0 == k then (k, v) else r[i])
    ensures DistinctKeys(r) ==> DistinctKeys(r')
  {
    match IndexOf(r, k)
    case Some(i) => r[i := (k, v)]
    case None => r + [(k, v)]
  }

  /** Writing the key of the last entry, when no earlier entry has it,
      replaces that entry in place. */
  lemma PutLast(p: Record, k: string, before: real, v: real)
    requires forall i :: 0 <= i < |p| ==> p[i].0 != k
    ensures Put(p + [(k, before)], k, v) == p + [(k, v)]
  {
    var r := p + [(k, before)];
    assert r[|p|].0 == k;
    assert IndexOf(r, k) == Some(|p|);
    assert r[|p| := (k, v)] == p + [(k, v)];
  }

  /** The value stored under `k`: the first entry with that key. */
  function Get(r: Record, k: string): (o: Option<real>)
    ensures o.None? <==> !HasKey(r, k)
    ensures DistinctKeys(r) ==>
      forall i :: 0 <= i < |r| && r[i].0 == k ==> o == Some(r[i].1)
  {
    match IndexOf(r, k)
    case Some(i) => Some(r[i].1)
    case None => None
  }

  /** `Object.values(r).reduce((a, b) => a + b, 0)` */
  function SumValues(r: Record): real {
    if |r| == 0 then 0.0 else SumValues(r[..|r| - 1]) + r[|r| - 1].1
  }

  predicate NonNegative(r: Record) {
    forall i :: 0 <= i < |r| ==> 0.0 <= r[i].1
  }

  /** A sum of non-negative values is non-negative and bounds each of them. */
  lemma {:induction false} SumBoundsEach(r: Record)
    requires NonNegative(r)
    ensures 0.0 <= SumValues(r)
    ensures forall i :: 0 <= i < |r| ==> r[i].1 <= SumValues(r)
  {
    if |r| > 0 {
      var p := r[..|r| - 1];
      assert forall i :: 0 <= i < |p| ==> p[i] == r[i];
      SumBoundsEach(p);
    }
  }

  /** Summing after appending one entry adds its value. */
  lemma SumAppend(r: Record, x: (string, real))
    ensures SumValues(r + [x]) == SumValues(r) + x.1
  {
    assert (r + [x])[..|r|] == r;
  }

  /** Every value divided by `d`, keys and order kept. */
  function Scale(r: Record, d: real): (r': Record)
    requires d != 0.0
    ensures |r'| == |r|
    ensures forall i :: 0 <= i < |r| ==> r'[i] == (r[i].0, r[i].1 / d)
  {
    seq(|r|, i requires 0 <= i < |r| => (r[i].0, r[i].1 / d))
  }

  /** Dividing every value by `d` divides their sum by `d`. */
  lemma {:induction false} SumScale(r: Record, d: real)
    requires d != 0.0
    ensures SumValues(Scale(r, d)) == SumValues(r) / d
  {
    if |r| > 0 {
      var p, x := r[..|r| - 1], r[|r| - 1].1;
      var q := Scale(r, d);
      assert q[..|r| - 1] == Scale(p, d);
      assert SumValues(q) == SumValues(Scale(p, d)) + x / d;
      SumScale(p, d);
      DivideAdd(SumValues(p), x, d);
    }
  }

  lemma DivideAdd(a: real, x: real, d: real)
    requires d != 0.0
    ensures a / d + x / d == (a + x) / d
  {
  }

  /** Dividing non-negative values by their (positive) sum yields values in
      [0, 1] that sum to exactly 1. */
  lemma ScaleBySumIsDistribution(r: Record)
    requires NonNegative(r) && 0.0 < SumValues(r)
    ensures var q := Scale(r, SumValues(r));
            && (forall i :: 0 <= i < |q| ==> 0.0 <= q[i].1 <= 1.0)
            && SumValues(q) == 1.0
  {
    var s := SumValues(r);
    var q := Scale(r, s);
    SumBoundsEach(r);
    forall i | 0 <= i < |q| ensures 0.0 <= q[i].1 <= 1.0 {
      DivideWithin(r[i].1, s);
    }
    SumScale(r, s);
    DivideSelf(s);
  }

  lemma DivideSelf(s: real)
    requires s != 0.0
    ensures s / s == 1.0
  {
  }

  lemma DivideWithin(x: real, s: real)
    requires 0.0 <= x <= s && 0.0 < s
    ensures 0.0 <= x / s <= 1.0
  {
  }
}
