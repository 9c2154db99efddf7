/**
  Mixture of experts: top-k routing, and the forward pass that groups token rows by expert, against
  the plain sum over the experts of each token. Scores and weights are reals.
*/
module Moe {
  import opened Common
  import opened Grids
  import opened Ranking
  import Sorting

  type Row = seq<real>
  type Positive = r: real | r > 0.0 witness 1.0

  datatype Gate = Gate(
    score: (Row, nat) -> Positive,     // score of a token for an expert; every score function is positive
    bias: Option<nat -> real>,         // added for the choice, not for the weight
    experts: nat,                      // columns of the score matrix
    topk: nat,
    routeScale: real,
    softmax: bool)

  datatype Layer = Layer(
    gate: Gate,
    experts: nat,                                  // length of the expert list
    expert: (nat, Row, real, nat) -> real,         // component of the output of an expert for a weighted row
    shared: (Row, nat) -> real,
    dim: nat)

  // ---------------------------------------------------------------- weights

  function Sum(s: seq<real>): real {
    if s == [] then 0.0 else Sum(s[..|s| - 1]) + s[|s| - 1]
  }

  ghost predicate AllPositive(s: seq<real>) {
    forall t :: 0 <= t < |s| ==> s[t] > 0.0
  }

  /** Softmax scores are only scaled; the others are normalised over the chosen experts first. */
  function Weights(g: Gate, raw: seq<real>): (w: seq<real>)
    requires AllPositive(raw)
    ensures |w| == |raw|
  {
    RawSumPositive(raw);
    seq(|raw|, t requires 0 <= t < |raw| =>
      if g.softmax then raw[t] * g.routeScale else Normalised(raw[t], Sum(raw), g.routeScale))
  }

  lemma {:induction false} RawSumPositive(raw: seq<real>)
    requires AllPositive(raw)
    ensures raw != [] ==> Sum(raw) > 0.0
  {
    if |raw| > 1 {
      RawSumPositive(raw[..|raw| - 1]);
    }
  }

  /** A weight is to the route scale what its score is to all the scores. */
  ghost predicate IsShare(weight: real, score: real, total: real, scale: real) {
    weight * total == score * scale
  }

  lemma {:induction false} SharesAddUp(raw: seq<real>, w: seq<real>, total: real, scale: real)
    requires |w| == |raw| && forall t :: 0 <= t < |w| ==> IsShare(w[t], raw[t], total, scale)
    ensures IsShare(Sum(w), Sum(raw), total, scale)
  {
    if raw != [] {
      var n := |raw| - 1;
      SharesAddUp(raw[..n], w[..n], total, scale);
      AddShares(Sum(w[..n]), Sum(raw[..n]), w[n], raw[n], total, scale);
    }
  }

  lemma AddShares(v: real, a: real, w: real, b: real, total: real, scale: real)
    requires IsShare(v, a, total, scale) && IsShare(w, b, total, scale)
    ensures IsShare(v + w, a + b, total, scale)
  {
  }

  /** Normalised weights share the route scale out by score. */
  lemma WeightsAreScaled(g: Gate, raw: seq<real>, t: nat)
    requires !g.softmax && AllPositive(raw) && t < |raw|
    ensures IsShare(Weights(g, raw)[t], raw[t], Sum(raw), g.routeScale)
  {
    RawSumPositive(raw);
    ShareOfTotal(raw[t], Sum(raw), g.routeScale);
  }

  /** Normalised weights of a token add up to the route scale. */
  lemma WeightsAddUp(g: Gate, raw: seq<real>)
    requires !g.softmax && raw != [] && AllPositive(raw)
    ensures Sum(Weights(g, raw)) == g.routeScale
  {
    RawSumPositive(raw);
    var w := Weights(g, raw);
    forall t | 0 <= t < |raw| ensures IsShare(w[t], raw[t], Sum(raw), g.routeScale) {
      WeightsAreScaled(g, raw, t);
    }
    SharesAddUp(raw, w, Sum(raw), g.routeScale);
    Cancel(Sum(w), g.routeScale, Sum(raw));
  }

  lemma Cancel(a: real, b: real, c: real)
    requires c != 0.0 && IsShare(a, c, c, b)
    ensures a == b
  {
  }

  /** Division and scaling as the two tensor operations do them. */
  function Normalised(a: real, total: real, scale: real): real
    requires total != 0.0
  {
    a / total * scale
  }

  lemma ShareOfTotal(a: real, total: real, scale: real)
    requires total != 0.0
    ensures IsShare(Normalised(a, total, scale), a, total, scale)
  {
    var q := a / total;
    assert q * total == a;
    assert q * scale * total == q * total * scale;
  }

  // ---------------------------------------------------------------- routing, for all tokens

  function Scores(g: Gate, x: Row): (s: seq<Positive>)
    ensures |s| == g.experts && forall j :: 0 <= j < |s| ==> s[j] == g.score(x, j)
  {
    seq(g.experts, j requires 0 <= j < g.experts => g.score(x, j))
  }

  function Biased(g: Gate, x: Row): (s: seq<real>)
    ensures |s| == g.experts
  {
    seq(g.experts, j requires 0 <= j < g.experts => g.score(x, j) + if g.bias.Some? then g.bias.value(j) else 0.0)
  }

  function Min(a: nat, b: nat): nat { if a < b then a else b }

  function Experts(g: Gate, x: Row): (r: seq<nat>)
    ensures |r| == Min(g.topk, g.experts)
    ensures forall t :: 0 <= t < |r| ==> r[t] < g.experts
  {
    Chosen(Biased(g, x), Min(g.topk, g.experts))
  }

  /** The unbiased scores of the chosen experts. */
  function RawWeights(g: Gate, x: Row): (r: seq<real>)
    ensures |r| == Min(g.topk, g.experts) && AllPositive(r)
  {
    Picked(Scores(g, x), Experts(g, x))
  }

  /** The scores of the chosen experts. */
  function Picked(sc: seq<Positive>, chosen: seq<nat>): (w: seq<Positive>)
    requires forall t :: 0 <= t < |chosen| ==> chosen[t] < |sc|
    ensures |w| == |chosen| && forall t :: 0 <= t < |w| ==> w[t] == sc[chosen[t]]
  {
    seq<Positive>(|chosen|, t requires 0 <= t < |chosen| => sc[chosen[t]])
  }

  /** Fills k slots of the output buffers with the first k of the ranking and their unbiased scores. */
  method RouteRow(sc: seq<Positive>, bi: seq<real>, k: nat, wv: array<real>, iv: array<int>, lo: nat)
    requires |sc| == |bi| && k <= |bi| && wv.Length == iv.Length && lo + k <= iv.Length
    modifies wv, iv
    ensures forall p :: 0 <= p < iv.Length && !(lo <= p < lo + k) ==> iv[p] == old(iv[p]) && wv[p] == old(wv[p])
    ensures Slice(iv[..], lo, k) == Chosen(bi, k) && Slice(wv[..], lo, k) == Picked(sc, Chosen(bi, k))
  {
    var cand := Sorting.Sort(Candidates(bi), NotWorse());
    ChosenAreBest(bi, k);
    ghost var chosen := Chosen(bi, k);
    for t := 0 to k
      invariant forall p :: 0 <= p < iv.Length && !(lo <= p < lo + t) ==> iv[p] == old(iv[p]) && wv[p] == old(wv[p])
      invariant forall u :: 0 <= u < t ==> iv[lo + u] == chosen[u] && wv[lo + u] == sc[chosen[u]]
    {
      var j := cand[t].item;
      assert j == chosen[t];
      iv[lo + t] := j;
      wv[lo + t] := sc[j];
    }
  }

  /** Row r of the buffers is what routing decides for token r. */
  ghost predicate Routed(sc: seq<Positive>, bi: seq<real>, n: nat, e: nat, k: nat, r: nat, wv: seq<real>, iv: seq<int>)
    requires |sc| == |bi| == n * e && |wv| == |iv| == n * k && r < n && k <= e
  {
    var chosen := Chosen(RowOf(bi, r, n, e), k);
    && RowOf(iv, r, n, k) == chosen
    && RowOf(wv, r, n, k) == Picked(RowOf(sc, r, n, e), chosen)
  }

  /** The two output buffers of the router, filled row by row. */
  method Route(sc: seq<Positive>, bi: seq<real>, n: nat, e: nat, topk: nat) returns (wv: array<real>, iv: array<int>)
    requires |sc| == |bi| == n * e
    ensures fresh(wv) && fresh(iv) && wv.Length == iv.Length == n * Min(topk, e)
    ensures forall r :: 0 <= r < n ==> Routed(sc, bi, n, e, Min(topk, e), r, wv[..], iv[..])
  {
    var k := Min(topk, e);
    wv := new real[n * k](_ => 0.0);
    iv := new int[n * k](_ => 0);
    for r := 0 to n
      invariant forall q :: 0 <= q < r ==> Routed(sc, bi, n, e, k, q, wv[..], iv[..])
    {
      ghost var w, i := wv[..], iv[..];
      RowEnd(r, n, k);
      RowEnd(r, n, e);
      RouteRow(Slice(sc, r * e, e), Slice(bi, r * e, e), k, wv, iv, r * k);
      assert Routed(sc, bi, n, e, k, r, wv[..], iv[..]);
      EarlierRows(sc, bi, n, e, k, r, w, i, wv[..], iv[..]);
    }
  }

  /** Writing row r leaves the rows before it routed. */
  lemma EarlierRows(sc: seq<Positive>, bi: seq<real>, n: nat, e: nat, k: nat, r: nat,
                    w: seq<real>, i: seq<int>, w': seq<real>, i': seq<int>)
    requires |sc| == |bi| == n * e && |w| == |i| == |w'| == |i'| == n * k && r < n && k <= e
    requires forall p :: 0 <= p < n * k && !(r * k <= p < r * k + k) ==> i'[p] == i[p] && w'[p] == w[p]
    requires forall q :: 0 <= q < r ==> Routed(sc, bi, n, e, k, q, w, i)
    ensures forall q :: 0 <= q < r ==> Routed(sc, bi, n, e, k, q, w', i')
  {
    RowsKept(i, i', r, n, k);
    RowsKept(w, w', r, n, k);
    forall q | 0 <= q < r ensures Routed(sc, bi, n, e, k, q, w', i') {
      assert Routed(sc, bi, n, e, k, q, w, i);
    }
  }
}
