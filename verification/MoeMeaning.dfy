/**
  What the gate and the layer of the mixture of experts give a token, in terms of its scores alone:
  which experts it gets, with which weights, and what they add up to.
*/
module MoeMeaning {
  import opened Common
  import opened Moe
  import opened Ranking

  /** The value an expert is chosen by. */
  function Preference(g: Gate, x: Row, i: nat): real {
    if g.bias.Some? then g.score(x, i) + g.bias.value(i) else g.score(x, i)
  }

  /** Expert i goes before expert j: a higher value, or the same and a lower number. */
  ghost predicate Preferred(g: Gate, x: Row, i: nat, j: nat) {
    Preference(g, x, i) > Preference(g, x, j) || (Preference(g, x, i) == Preference(g, x, j) && i < j)
  }

  /** The experts of a token, as many as there are to have up to topk: the preferred ones, best first. */
  ghost predicate IsChoice(g: Gate, x: Row, c: seq<int>) {
    && |c| == (if g.topk < g.experts then g.topk else g.experts)
    && (forall s :: 0 <= s < |c| ==> 0 <= c[s] < g.experts)
    && (forall s, t :: 0 <= s < t < |c| ==> Preferred(g, x, c[s], c[t]))
    && (forall j, t :: 0 <= j < g.experts && j !in c && 0 <= t < |c| ==> Preferred(g, x, c[t], j))
  }

  /** The scores of the first n of some experts, added up. */
  function TotalScore(g: Gate, x: Row, c: seq<int>, n: nat): real
    requires n <= |c| && forall s :: 0 <= s < |c| ==> c[s] >= 0
  {
    if n == 0 then 0.0 else TotalScore(g, x, c, n - 1) + g.score(x, c[n - 1])
  }

  /**
    With softmax a weight is the score of its expert times the route scale; otherwise it is that part of
    the route scale that its score is of the scores of all the experts of the token.
  */
  ghost predicate AreWeights(g: Gate, x: Row, c: seq<int>, w: seq<real>) {
    && |w| == |c| && (forall s :: 0 <= s < |c| ==> c[s] >= 0)
    && (g.softmax ==> forall s :: 0 <= s < |w| ==> w[s] == g.score(x, c[s]) * g.routeScale)
    && (!g.softmax ==> forall s :: 0 <= s < |w| ==>
          IsShare(w[s], g.score(x, c[s]), TotalScore(g, x, c, |c|), g.routeScale))
  }

  /** The total is positive, so the weights are determined. */
  lemma {:induction false} TotalPositive(g: Gate, x: Row, c: seq<int>, n: nat)
    requires 0 < n <= |c| && forall s :: 0 <= s < |c| ==> c[s] >= 0
    ensures TotalScore(g, x, c, n) > 0.0
  {
    if n > 1 {
      TotalPositive(g, x, c, n - 1);
    }
  }

  /** A share of a total is just one number. */
  lemma ShareIsQuotient(weight: real, score: real, total: real, scale: real)
    requires total != 0.0
    ensures IsShare(weight, score, total, scale) <==> weight == score / total * scale
  {
    var part := score / total;
    assert part * total == score;
    assert part * scale * total == part * total * scale;
  }

  /** A choice leaves no choice: two lists of the preferred experts are the same. */
  lemma {:induction false} ChoiceIsUnique(g: Gate, x: Row, a: seq<int>, b: seq<int>, s: nat)
    requires IsChoice(g, x, a) && IsChoice(g, x, b) && s < |a|
    ensures a[..s + 1] == b[..s + 1]
  {
    if s > 0 {
      ChoiceIsUnique(g, x, a, b, s - 1);
      assert forall t :: 0 <= t < s ==> a[..s][t] == b[..s][t];
    }
    NotLater(g, x, a, b, s);
    NotLater(g, x, b, a, s);
  }

  /** With the same experts before place s, the one of a there is not behind the one of b. */
  lemma NotLater(g: Gate, x: Row, a: seq<int>, b: seq<int>, s: nat)
    requires IsChoice(g, x, a) && IsChoice(g, x, b) && s < |a| && forall t :: 0 <= t < s ==> a[t] == b[t]
    ensures a[s] == b[s] || Preferred(g, x, a[s], b[s])
  {
    if b[s] in a {
      var t :| 0 <= t < |a| && a[t] == b[s];
      assert t >= s;
    }
  }

  /** The routed part of component d: the first n experts of the token, each with its weight. */
  function Terms(l: Layer, x: Row, c: seq<int>, w: seq<real>, n: nat, d: nat): real
    requires n <= |c| == |w|
  {
    if n == 0 then 0.0
    else
      Terms(l, x, c, w, n - 1, d) + if 0 <= c[n - 1] < l.experts then l.expert(c[n - 1], x, w[n - 1], d) else 0.0
  }

  /** The output of the layer for a token: its experts with their weights, and the shared expert. */
  ghost predicate IsDue(l: Layer, x: Row, y: nat -> real) {
    exists c, w :: IsChoice(l.gate, x, c) && AreWeights(l.gate, x, c, w)
                   && forall d: nat :: d < l.dim ==> y(d) == Terms(l, x, c, w, |c|, d) + l.shared(x, d)
  }

  // ---------------------------------------------------------------- the functions mean this

  lemma ExpertsAreChoice(g: Gate, x: Row)
    ensures IsChoice(g, x, Experts(g, x))
  {
    var b, c := Biased(g, x), Experts(g, x);
    ChosenAreBest(b, Min(g.topk, g.experts));
    forall j | 0 <= j < g.experts ensures b[j] == Preference(g, x, j) {
    }
    forall s, t | 0 <= s < t < |c| ensures Preferred(g, x, c[s], c[t]) {
      assert Better(b, c[s], c[t]);
    }
    forall j, t | 0 <= j < g.experts && j !in c && 0 <= t < |c| ensures Preferred(g, x, c[t], j) {
      assert Better(b, c[t], j);
    }
  }

  lemma {:induction false} TotalIsSum(g: Gate, x: Row, n: nat)
    requires n <= Min(g.topk, g.experts)
    ensures TotalScore(g, x, Experts(g, x), n) == Sum(RawWeights(g, x)[..n])
  {
    if n > 0 {
      TotalIsSum(g, x, n - 1);
      assert RawWeights(g, x)[..n][..n - 1] == RawWeights(g, x)[..n - 1];
    }
  }

  lemma WeightsAreShares(g: Gate, x: Row)
    ensures AreWeights(g, x, Experts(g, x), Weights(g, RawWeights(g, x)))
  {
    var c, raw := Experts(g, x), RawWeights(g, x);
    var w := Weights(g, raw);
    if !g.softmax {
      TotalIsSum(g, x, |c|);
      assert raw[..|c|] == raw;
      forall s | 0 <= s < |w| ensures IsShare(w[s], g.score(x, c[s]), TotalScore(g, x, c, |c|), g.routeScale) {
        WeightsAreScaled(g, raw, s);
      }
    }
  }
}
