/** The expert-grouped forward pass of the mixture of experts, against the sum each token is due. */
module MoeDispatch {
  import opened Common
  import opened Moe
  import opened MoeMeaning
  import opened Grids

  // ---------------------------------------------------------------- dispatch by expert

  /** A row picked for an expert: its token and weight. */
  datatype Entry = Entry(token: nat, weight: real)

  /** The index and weight buffers, k slots for each of n tokens. */
  datatype Slots = Slots(iv: seq<int>, wv: seq<real>, n: nat, k: nat) {
    ghost predicate Valid() {
      |iv| == |wv| == n * k
    }

    function Index(t: nat, s: nat): int
      requires Valid() && t < n && s < k
    {
      Bounded(t, s, n, k);
      iv[t * k + s]
    }

    function Weight(t: nat, s: nat): real
      requires Valid() && t < n && s < k
    {
      Bounded(t, s, n, k);
      wv[t * k + s]
    }
  }

  /** The entries of expert e among the first s slots of one token. */
  function TokenEntries(q: Slots, t: nat, s: nat, e: nat): seq<Entry>
    requires q.Valid() && t < q.n && s <= q.k
    decreases s
  {
    if s == 0 then []
    else TokenEntries(q, t, s - 1, e) + if q.Index(t, s - 1) == e then [Entry(t, q.Weight(t, s - 1))] else []
  }

  /** The entries of expert e among the first t tokens. */
  function Entries(q: Slots, t: nat, e: nat): seq<Entry>
    requires q.Valid() && t <= q.n
    decreases t
  {
    if t == 0 then [] else Entries(q, t - 1, e) + TokenEntries(q, t - 1, q.k, e)
  }

  /** What adding the outputs of the entries contributes to component d of token u. */
  function Added(l: Layer, xs: seq<Row>, e: nat, es: seq<Entry>, u: nat, d: nat): real
    requires u < |xs|
    decreases |es|
  {
    if es == [] then 0.0
    else
      var last := es[|es| - 1];
      Added(l, xs, e, es[..|es| - 1], u, d) + if last.token == u then l.expert(e, xs[u], last.weight, d) else 0.0
  }

  /** What the first s slots of token t contribute through experts lo..hi-1. */
  function SlotSum(l: Layer, xs: seq<Row>, q: Slots, t: nat, s: nat, lo: nat, hi: nat, d: nat): real
    requires q.Valid() && q.n == |xs| && t < q.n && s <= q.k
    decreases s
  {
    if s == 0 then 0.0
    else
      var i := q.Index(t, s - 1);
      SlotSum(l, xs, q, t, s - 1, lo, hi, d) + if lo <= i < hi then l.expert(i, xs[t], q.Weight(t, s - 1), d) else 0.0
  }

  /** The sum over its own slots that a token is due: the meaning of the routed part of the layer. */
  function TokenSum(l: Layer, xs: seq<Row>, q: Slots, t: nat, d: nat): real
    requires q.Valid() && q.n == |xs| && t < q.n
  {
    SlotSum(l, xs, q, t, q.k, 0, l.experts, d)
  }

  lemma {:induction false} AddedConcat(l: Layer, xs: seq<Row>, e: nat, a: seq<Entry>, b: seq<Entry>, u: nat, d: nat)
    requires u < |xs|
    ensures Added(l, xs, e, a + b, u, d) == Added(l, xs, e, a, u, d) + Added(l, xs, e, b, u, d)
    decreases |b|
  {
    if b == [] {
      assert a + b == a;
    } else {
      AddedConcat(l, xs, e, a, b[..|b| - 1], u, d);
      assert (a + b)[..|a + b| - 1] == a + b[..|b| - 1];
    }
  }

  lemma AddedPush(l: Layer, xs: seq<Row>, e: nat, es: seq<Entry>, x: Entry, u: nat, d: nat)
    requires u < |xs|
    ensures Added(l, xs, e, es + [x], u, d) ==
      Added(l, xs, e, es, u, d) + if x.token == u then l.expert(e, xs[u], x.weight, d) else 0.0
  {
    assert (es + [x])[..|es|] == es;
  }

  lemma {:induction false} TokenEntriesAdd(l: Layer, xs: seq<Row>, q: Slots, t: nat, s: nat, e: nat, u: nat, d: nat)
    requires q.Valid() && q.n == |xs| && t < q.n && s <= q.k && u < q.n
    ensures Added(l, xs, e, TokenEntries(q, t, s, e), u, d) ==
      if u == t then SlotSum(l, xs, q, t, s, e, e + 1, d) else 0.0
    decreases s
  {
    if s > 0 {
      TokenEntriesAdd(l, xs, q, t, s - 1, e, u, d);
      var before := TokenEntries(q, t, s - 1, e);
      AddedPush(l, xs, e, before, Entry(t, q.Weight(t, s - 1)), u, d);
      assert before + [] == before;
    }
  }

  /** Adding the outputs of one expert gives every token the terms of its slots that name the expert. */
  lemma {:induction false} EntriesAdd(l: Layer, xs: seq<Row>, q: Slots, t: nat, e: nat, u: nat, d: nat)
    requires q.Valid() && q.n == |xs| && t <= q.n && u < q.n
    ensures Added(l, xs, e, Entries(q, t, e), u, d) == if u < t then SlotSum(l, xs, q, u, q.k, e, e + 1, d) else 0.0
    decreases t
  {
    if t > 0 {
      EntriesAdd(l, xs, q, t - 1, e, u, d);
      TokenEntriesAdd(l, xs, q, t - 1, q.k, e, u, d);
      AddedConcat(l, xs, e, Entries(q, t - 1, e), TokenEntries(q, t - 1, q.k, e), u, d);
    }
  }

  /** Terms through experts below e, and through e, are the terms through experts below e+1. */
  lemma {:induction false} OneMoreExpert(l: Layer, xs: seq<Row>, q: Slots, t: nat, s: nat, e: nat, d: nat)
    requires q.Valid() && q.n == |xs| && t < q.n && s <= q.k
    ensures SlotSum(l, xs, q, t, s, 0, e + 1, d) ==
      SlotSum(l, xs, q, t, s, 0, e, d) + SlotSum(l, xs, q, t, s, e, e + 1, d)
    decreases s
  {
    if s > 0 {
      OneMoreExpert(l, xs, q, t, s - 1, e, d);
    }
  }

  lemma {:induction false} NoExperts(l: Layer, xs: seq<Row>, q: Slots, t: nat, s: nat, d: nat)
    requires q.Valid() && q.n == |xs| && t < q.n && s <= q.k
    ensures SlotSum(l, xs, q, t, s, 0, 0, d) == 0.0
    decreases s
  {
    if s > 0 {
      NoExperts(l, xs, q, t, s - 1, d);
    }
  }

  /** How many of the first s slots of token t name an expert below e. */
  function TokenCount(q: Slots, t: nat, s: nat, e: nat): nat
    requires q.Valid() && t < q.n && s <= q.k
    decreases s
  {
    if s == 0 then 0 else TokenCount(q, t, s - 1, e) + if 0 <= q.Index(t, s - 1) < e then 1 else 0
  }

  function Count(q: Slots, t: nat, e: nat): nat
    requires q.Valid() && t <= q.n
    decreases t
  {
    if t == 0 then 0 else Count(q, t - 1, e) + TokenCount(q, t - 1, q.k, e)
  }

  lemma {:induction false} TokenEntriesCount(q: Slots, t: nat, s: nat, e: nat)
    requires q.Valid() && t < q.n && s <= q.k
    ensures TokenCount(q, t, s, e + 1) == TokenCount(q, t, s, e) + |TokenEntries(q, t, s, e)|
    decreases s
  {
    if s > 0 {
      TokenEntriesCount(q, t, s - 1, e);
    }
  }

  lemma {:induction false} EntriesCount(q: Slots, t: nat, e: nat)
    requires q.Valid() && t <= q.n
    ensures Count(q, t, e + 1) == Count(q, t, e) + |Entries(q, t, e)|
    decreases t
  {
    if t > 0 {
      EntriesCount(q, t - 1, e);
      TokenEntriesCount(q, t - 1, q.k, e);
    }
  }

  lemma {:induction false} NothingBelowZero(q: Slots, t: nat)
    requires q.Valid() && t <= q.n
    ensures Count(q, t, 0) == 0
    decreases t
  {
    if t > 0 {
      NothingBelowZero(q, t - 1);
      TokenNothingBelowZero(q, t - 1, q.k);
    }
  }

  lemma {:induction false} TokenNothingBelowZero(q: Slots, t: nat, s: nat)
    requires q.Valid() && t < q.n && s <= q.k
    ensures TokenCount(q, t, s, 0) == 0
    decreases s
  {
    if s > 0 {
      TokenNothingBelowZero(q, t, s - 1);
    }
  }

  lemma {:induction false} TokenAllCounted(q: Slots, t: nat, s: nat, e: nat)
    requires q.Valid() && t < q.n && s <= q.k && forall p :: 0 <= p < |q.iv| ==> 0 <= q.iv[p] < e
    ensures TokenCount(q, t, s, e) == s
    decreases s
  {
    if s > 0 {
      TokenAllCounted(q, t, s - 1, e);
      Bounded(t, s - 1, q.n, q.k);
    }
  }

  /** When every slot names one of the experts, every slot is dispatched. */
  lemma {:induction false} AllCounted(q: Slots, t: nat, e: nat)
    requires q.Valid() && t <= q.n && forall p :: 0 <= p < |q.iv| ==> 0 <= q.iv[p] < e
    ensures Count(q, t, e) == t * q.k
    decreases t
  {
    if t > 0 {
      AllCounted(q, t - 1, e);
      TokenAllCounted(q, t - 1, q.k, e);
      assert t * q.k == (t - 1) * q.k + q.k;
    }
  }

  /** Reads the slots of one token; nothing when the buffer ends before the last of them. */
  method CollectToken(wv: array<real>, iv: array<int>, n: nat, topk: nat, e: nat, t: nat)
    returns (r: Option<seq<Entry>>)
    requires wv.Length == iv.Length <= n * topk && t < n && t * topk <= iv.Length
    ensures r.None? <==> iv.Length < t * topk + topk
    ensures r.Some? && iv.Length == n * topk ==> r.value == TokenEntries(Slots(iv[..], wv[..], n, topk), t, topk, e)
  {
    ghost var q := Slots(iv[..], wv[..], n, topk);
    var es: seq<Entry> := [];
    for s := 0 to topk
      invariant t * topk + s <= iv.Length
      invariant iv.Length == n * topk ==> es == TokenEntries(q, t, s, e)
    {
      if t * topk + s >= iv.Length {
        return None;
      }
      if iv[t * topk + s] == e {
        es := es + [Entry(t, wv[t * topk + s])];
      }
    }
    r := Some(es);
  }

  /**
    Collects the rows of expert e: a scan over all slots, token by token. A read past the end of the
    buffers, which stops the program, is None.
  */
  method Collect(wv: array<real>, iv: array<int>, n: nat, topk: nat, e: nat) returns (r: Option<seq<Entry>>)
    requires wv.Length == iv.Length <= n * topk
    ensures r.None? <==> iv.Length < n * topk
    ensures r.Some? ==> r.value == Entries(Slots(iv[..], wv[..], n, topk), n, e)
  {
    ghost var q := Slots(iv[..], wv[..], n, topk);
    var es: seq<Entry> := [];
    for t := 0 to n
      invariant t * topk <= iv.Length
      invariant iv.Length == n * topk ==> es == Entries(q, t, e)
    {
      RowEnd(t, n, topk);
      var row := CollectToken(wv, iv, n, topk, e, t);
      if row.None? {
        return None;
      }
      es := es + row.value;
    }
    r := Some(es);
  }

  /** `index_add`: the output row of every entry is added to the row of its token. */
  method IndexAdd(l: Layer, xs: seq<Row>, e: nat, es: seq<Entry>, y: array2<real>)
    requires y.Length0 == |xs| && y.Length1 == l.dim
    requires forall i :: 0 <= i < |es| ==> es[i].token < |xs|
    modifies y
    ensures forall u: nat, d: nat :: u < |xs| && d < l.dim ==> y[u, d] == old(y[u, d]) + Added(l, xs, e, es, u, d)
  {
    for i := 0 to |es|
      invariant forall u: nat, d: nat :: u < |xs| && d < l.dim ==>
        y[u, d] == old(y[u, d]) + Added(l, xs, e, es[..i], u, d)
    {
      assert es[..i + 1][..i] == es[..i];
      var t := es[i].token;
      for d := 0 to l.dim
        invariant forall u: nat, c: nat :: u < |xs| && c < l.dim ==>
          y[u, c] == old(y[u, c]) + Added(l, xs, e, if u == t && c < d then es[..i + 1] else es[..i], u, c)
      {
        y[t, d] := y[t, d] + l.expert(e, xs[t], es[i].weight, d);
      }
    }
    assert es[..|es|] == es;
  }

  lemma EntryTokens(q: Slots, t: nat, e: nat)
    requires q.Valid() && t <= q.n
    ensures forall i :: 0 <= i < |Entries(q, t, e)| ==> Entries(q, t, e)[i].token < t
    decreases t
  {
    if t > 0 {
      EntryTokens(q, t - 1, e);
      EntryToken(q, t - 1, q.k, e);
    }
  }

  lemma EntryToken(q: Slots, t: nat, s: nat, e: nat)
    requires q.Valid() && t < q.n && s <= q.k
    ensures forall i :: 0 <= i < |TokenEntries(q, t, s, e)| ==> TokenEntries(q, t, s, e)[i].token == t
    decreases s
  {
  }

  /** One expert more: what its rows add. */
  lemma ExpertAdds(l: Layer, xs: seq<Row>, q: Slots, e: nat, t: nat, d: nat)
    requires q.Valid() && q.n == |xs| && t < q.n
    ensures SlotSum(l, xs, q, t, q.k, 0, e + 1, d) ==
      SlotSum(l, xs, q, t, q.k, 0, e, d) + Added(l, xs, e, Entries(q, q.n, e), t, d)
  {
    EntriesAdd(l, xs, q, q.n, e, t, d);
    OneMoreExpert(l, xs, q, t, q.k, e, d);
  }

  /**
    The dispatch: expert by expert, the rows that name the expert are gathered, run and added back.
    Whatever the slots hold, every token ends with exactly the sum over its own slots. With fewer slots
    than are read, the first expert's scan runs off the buffers.
  */
  method Dispatch(l: Layer, xs: seq<Row>, wv: array<real>, iv: array<int>, topk: nat)
    returns (r: Option<array2<real>>, ghost dispatched: nat)
    requires wv.Length == iv.Length <= |xs| * topk
    ensures r.None? <==> iv.Length < |xs| * topk && l.experts > 0
    ensures r.Some? ==> fresh(r.value) && r.value.Length0 == |xs| && r.value.Length1 == l.dim
    ensures r.Some? && iv.Length == |xs| * topk ==>
      && (forall t: nat, d: nat :: t < |xs| && d < l.dim ==>
            r.value[t, d] == TokenSum(l, xs, Slots(iv[..], wv[..], |xs|, topk), t, d))
      && dispatched == Count(Slots(iv[..], wv[..], |xs|, topk), |xs|, l.experts)
    ensures l.experts == 0 ==> forall t: nat, d: nat :: t < |xs| && d < l.dim ==> r.value[t, d] == 0.0
    ensures l.experts == 0 ==> dispatched == 0
  {
    var n := |xs|;
    ghost var q := Slots(iv[..], wv[..], n, topk);
    var y := new real[n, l.dim]((_, _) => 0.0);
    dispatched := 0;
    if q.Valid() {
      forall t: nat, d: nat | t < n && d < l.dim ensures SlotSum(l, xs, q, t, topk, 0, 0, d) == 0.0 {
        NoExperts(l, xs, q, t, topk, d);
      }
      NothingBelowZero(q, n);
    }
    for e := 0 to l.experts
      invariant wv[..] == q.wv && iv[..] == q.iv
      invariant e > 0 ==> q.Valid()
      invariant e == 0 ==> dispatched == 0 && forall t: nat, d: nat :: t < n && d < l.dim ==> y[t, d] == 0.0
      invariant q.Valid() ==> forall t: nat, d: nat :: t < n && d < l.dim ==>
        y[t, d] == SlotSum(l, xs, q, t, topk, 0, e, d)
      invariant q.Valid() ==> dispatched == Count(q, n, e)
    {
      var collected := Collect(wv, iv, n, topk, e);
      if collected.None? {
        return None, dispatched;
      }
      var rows := collected.value;
      EntriesCount(q, n, e);
      EntryTokens(q, n, e);
      forall t: nat, d: nat | t < n && d < l.dim
        ensures SlotSum(l, xs, q, t, topk, 0, e + 1, d) ==
          SlotSum(l, xs, q, t, topk, 0, e, d) + Added(l, xs, e, rows, t, d)
      {
        ExpertAdds(l, xs, q, e, t, d);
      }
      dispatched := dispatched + |rows|;
      if rows != [] {
        IndexAdd(l, xs, e, rows, y);
      }
    }
    r := Some(y);
  }

  // ---------------------------------------------------------------- the whole layer

  /** The routed part of a token, from its own chosen experts and their weights, first k of them. */
  function ExpertSum(l: Layer, x: Row, k: nat, d: nat): real
    requires k <= Min(l.gate.topk, l.gate.experts)
    decreases k
  {
    if k == 0 then 0.0
    else
      var i := Experts(l.gate, x)[k - 1];
      ExpertSum(l, x, k - 1, d) +
        if i < l.experts then l.expert(i, x, Weights(l.gate, RawWeights(l.gate, x))[k - 1], d) else 0.0
  }

  /** What the layer owes a token: its weighted experts and the shared expert. */
  function Due(l: Layer, x: Row, d: nat): real {
    ExpertSum(l, x, Min(l.gate.topk, l.gate.experts), d) + l.shared(x, d)
  }

  /** The slots hold, for every token, its experts and weights. */
  ghost predicate SlotsOf(l: Layer, xs: seq<Row>, q: Slots) {
    && q.Valid() && q.n == |xs| && q.k == Min(l.gate.topk, l.gate.experts)
    && (forall t :: 0 <= t < q.n ==> RowOf(q.iv, t, q.n, q.k) == Experts(l.gate, xs[t]))
    && (forall t :: 0 <= t < q.n ==> RowOf(q.wv, t, q.n, q.k) == Weights(l.gate, RawWeights(l.gate, xs[t])))
  }

  lemma SlotAt(l: Layer, xs: seq<Row>, q: Slots, t: nat, s: nat)
    requires SlotsOf(l, xs, q) && t < q.n && s < q.k
    ensures q.Index(t, s) == Experts(l.gate, xs[t])[s]
    ensures q.Weight(t, s) == Weights(l.gate, RawWeights(l.gate, xs[t]))[s]
  {
    RowEnd(t, q.n, q.k);
    assert q.iv[t * q.k + s] == RowOf(q.iv, t, q.n, q.k)[s];
    assert q.wv[t * q.k + s] == RowOf(q.wv, t, q.n, q.k)[s];
  }

  lemma {:induction false} SlotSumIsExpertSum(l: Layer, xs: seq<Row>, q: Slots, t: nat, s: nat, d: nat)
    requires SlotsOf(l, xs, q) && t < q.n && s <= q.k
    ensures SlotSum(l, xs, q, t, s, 0, l.experts, d) == ExpertSum(l, xs[t], s, d)
    decreases s
  {
    if s > 0 {
      SlotSumIsExpertSum(l, xs, q, t, s - 1, d);
      SlotAt(l, xs, q, t, s - 1);
    }
  }

  /** With at least as many experts as the gate scores, every slot names one of them. */
  lemma SlotsNameExperts(l: Layer, xs: seq<Row>, q: Slots)
    requires SlotsOf(l, xs, q) && l.experts >= l.gate.experts
    ensures forall p :: 0 <= p < |q.iv| ==> 0 <= q.iv[p] < l.experts
  {
    forall p | 0 <= p < |q.iv| ensures 0 <= q.iv[p] < l.experts {
      Inside(p, q.n, q.k);
      SlotNamesExpert(l, xs, q, p / q.k, p % q.k, p);
    }
  }

  lemma SlotNamesExpert(l: Layer, xs: seq<Row>, q: Slots, t: nat, s: nat, p: nat)
    requires SlotsOf(l, xs, q) && l.experts >= l.gate.experts && t < q.n && s < q.k && p == t * q.k + s < |q.iv|
    ensures 0 <= q.iv[p] < l.experts
  {
    SlotAt(l, xs, q, t, s);
  }

  method WriteRow(w: array<real>, lo: nat, row: seq<real>)
    requires lo + |row| <= w.Length
    modifies w
    ensures forall p :: 0 <= p < w.Length && !(lo <= p < lo + |row|) ==> w[p] == old(w[p])
    ensures Slice(w[..], lo, |row|) == row
  {
    for c := 0 to |row|
      invariant forall p :: 0 <= p < w.Length && !(lo <= p < lo + c) ==> w[p] == old(w[p])
      invariant forall p :: 0 <= p < c ==> w[lo + p] == row[p]
    {
      w[lo + c] := row[c];
    }
  }

  /** The normalised weights, as the flat buffer the dispatch reads. */
  method Normalise(g: Gate, xs: seq<Row>, raw: array<real>, k: nat) returns (w: array<real>)
    requires raw.Length == |xs| * k
    requires forall t :: 0 <= t < |xs| ==> RowOf(raw[..], t, |xs|, k) == RawWeights(g, xs[t])
    ensures fresh(w) && w.Length == |xs| * k
    ensures forall t :: 0 <= t < |xs| ==> RowOf(w[..], t, |xs|, k) == Weights(g, RawWeights(g, xs[t]))
  {
    var n := |xs|;
    w := new real[n * k](_ => 0.0);
    for t := 0 to n
      invariant forall u :: 0 <= u < t ==> RowOf(w[..], u, n, k) == Weights(g, RawWeights(g, xs[u]))
    {
      ghost var before := w[..];
      RowEnd(t, n, k);
      assert RowOf(raw[..], t, n, k) == raw[t * k..t * k + k];
      WriteRow(w, t * k, Weights(g, raw[t * k..t * k + k]));
      assert RowOf(w[..], t, n, k) == Weights(g, RawWeights(g, xs[t]));
      RowsKept(before, w[..], t, n, k);
    }
  }

  function ScoreAt(g: Gate, xs: seq<Row>, r: nat, c: nat): Positive {
    if r < |xs| then g.score(xs[r], c) else 1.0
  }

  function ScoreTable(g: Gate, xs: seq<Row>): (nat, nat) -> Positive {
    (r: nat, c: nat) => ScoreAt(g, xs, r, c)
  }

  function BiasedTable(g: Gate, xs: seq<Row>): (nat, nat) -> real {
    (r: nat, c: nat) => if r < |xs| then g.score(xs[r], c) + (if g.bias.Some? then g.bias.value(c) else 0.0) else 0.0
  }

  /** Row t of the buffers holds the experts of token t and their weights, by the scores of the gate. */
  ghost predicate IsRouted(g: Gate, xs: seq<Row>, t: nat, weights: seq<real>, indices: seq<int>)
    requires t < |xs| && |weights| == |indices| == |xs| * Min(g.topk, g.experts)
  {
    var k := Min(g.topk, g.experts);
    && IsChoice(g, xs[t], RowOf(indices, t, |xs|, k))
    && AreWeights(g, xs[t], RowOf(indices, t, |xs|, k), RowOf(weights, t, |xs|, k))
  }

  /** The gate over all tokens. */
  method RouteAll(g: Gate, xs: seq<Row>) returns (weights: array<real>, indices: array<int>)
    ensures fresh(weights) && fresh(indices)
    ensures weights.Length == indices.Length == |xs| * Min(g.topk, g.experts)
    ensures forall t :: 0 <= t < |xs| ==> RowOf(indices[..], t, |xs|, Min(g.topk, g.experts)) == Experts(g, xs[t])
    ensures forall t :: 0 <= t < |xs| ==>
      RowOf(weights[..], t, |xs|, Min(g.topk, g.experts)) == Weights(g, RawWeights(g, xs[t]))
    ensures forall t :: 0 <= t < |xs| ==> IsRouted(g, xs, t, weights[..], indices[..])
  {
    var n, e := |xs|, g.experts;
    var sc: seq<Positive> := Table(ScoreTable(g, xs), n, e);
    var bi := Table(BiasedTable(g, xs), n, e);
    var raw, iv := Route(sc, bi, n, e, g.topk);
    forall t | 0 <= t < n
      ensures RowOf(iv[..], t, n, Min(g.topk, e)) == Experts(g, xs[t])
      ensures RowOf(raw[..], t, n, Min(g.topk, e)) == RawWeights(g, xs[t])
    {
      TableRow(ScoreTable(g, xs), t, n, e, Scores(g, xs[t]));
      TableRow(BiasedTable(g, xs), t, n, e, Biased(g, xs[t]));
      assert Routed(sc, bi, n, e, Min(g.topk, e), t, raw[..], iv[..]);
    }
    weights := Normalise(g, xs, raw, Min(g.topk, e));
    indices := iv;
    forall t | 0 <= t < n ensures IsRouted(g, xs, t, weights[..], indices[..]) {
      ExpertsAreChoice(g, xs[t]);
      WeightsAreShares(g, xs[t]);
    }
  }

  /** The gate fills at most as many slots as the scan reads, and just as many unless topk is too large. */
  lemma SlotsFilled(n: nat, topk: nat, e: nat)
    ensures n * Min(topk, e) <= n * topk
    ensures n * Min(topk, e) == n * topk <==> topk <= e || n == 0
  {
    if topk > e {
      assert n * topk - n * e == n * (topk - e);
    }
  }

  lemma NoExpertsNoSum(l: Layer, x: Row, k: nat, d: nat)
    requires k <= Min(l.gate.topk, l.gate.experts) && l.experts == 0
    ensures ExpertSum(l, x, k, d) == 0.0
  {
  }

  /** What the dispatch adds up is what each token is due from its experts. */
  lemma DispatchedIsDue(l: Layer, xs: seq<Row>, q: Slots)
    requires SlotsOf(l, xs, q)
    ensures forall t: nat, d: nat :: t < |xs| && d < l.dim ==> TokenSum(l, xs, q, t, d) == ExpertSum(l, xs[t], q.k, d)
    ensures l.gate.experts <= l.experts ==> Count(q, |xs|, l.experts) == |xs| * q.k
  {
    forall t: nat, d: nat | t < |xs| && d < l.dim ensures TokenSum(l, xs, q, t, d) == ExpertSum(l, xs[t], q.k, d) {
      SlotSumIsExpertSum(l, xs, q, t, q.k, d);
    }
    if l.gate.experts <= l.experts {
      SlotsNameExperts(l, xs, q);
      AllCounted(q, |xs|, l.experts);
    }
  }

  /**
    The forward pass of the layer: routing, dispatch by expert and the shared expert give every token
    exactly what it is due, and every slot is dispatched once. It runs off its buffers exactly when
    topk exceeds the number of experts the gate scores, with a token and an expert there to scan for.
  */
  method Forward(l: Layer, xs: seq<Row>) returns (r: Option<array2<real>>, ghost dispatched: nat)
    ensures r.None? <==> l.gate.topk > l.gate.experts && xs != [] && l.experts > 0
    ensures r.Some? ==> fresh(r.value) && r.value.Length0 == |xs| && r.value.Length1 == l.dim
    ensures r.Some? ==> forall t: nat, d: nat :: t < |xs| && d < l.dim ==> r.value[t, d] == Due(l, xs[t], d)
    ensures r.Some? ==> forall t: nat :: t < |xs| ==> IsDue(l, xs[t], RowFunction(r.value, t))
    ensures r.Some? && l.gate.experts <= l.experts ==> dispatched == |xs| * Min(l.gate.topk, l.gate.experts)
  {
    var weights, indices := RouteAll(l.gate, xs);
    SlotsFilled(|xs|, l.gate.topk, l.gate.experts);
    r, dispatched := Dispatch(l, xs, weights, indices, l.gate.topk);
    if r.Some? {
      ghost var k := Min(l.gate.topk, l.gate.experts);
      if l.experts == 0 {
        forall t: nat, d: nat | t < |xs| ensures ExpertSum(l, xs[t], k, d) == 0.0 {
          NoExpertsNoSum(l, xs[t], k, d);
        }
      } else if l.gate.topk <= l.gate.experts {
        ghost var q := Slots(indices[..], weights[..], |xs|, l.gate.topk);
        assert SlotsOf(l, xs, q);
        DispatchedIsDue(l, xs, q);
      }
      AddShared(l, xs, r.value);
      forall t: nat | t < |xs| ensures IsDue(l, xs[t], RowFunction(r.value, t)) {
        DueIsDue(l, xs[t], RowFunction(r.value, t));
      }
    }
  }

  /** The output row of a token. */
  ghost function RowFunction(y: array2<real>, t: nat): nat -> real
    reads y
    requires t < y.Length0
  {
    var row := seq(y.Length1, d requires 0 <= d < y.Length1 reads y => y[t, d]);
    (d: nat) => if d < |row| then row[d] else 0.0
  }

  lemma {:induction false} TermsAreExpertSum(l: Layer, x: Row, n: nat, d: nat)
    requires n <= Min(l.gate.topk, l.gate.experts)
    ensures Terms(l, x, Experts(l.gate, x), Weights(l.gate, RawWeights(l.gate, x)), n, d) == ExpertSum(l, x, n, d)
  {
    if n > 0 {
      TermsAreExpertSum(l, x, n - 1, d);
    }
  }

  /** What the layer owes a token is its experts with their weights, and the shared expert. */
  lemma DueIsDue(l: Layer, x: Row, y: nat -> real)
    requires forall d: nat :: d < l.dim ==> y(d) == Due(l, x, d)
    ensures IsDue(l, x, y)
  {
    var c: seq<int>, w := Experts(l.gate, x), Weights(l.gate, RawWeights(l.gate, x));
    ExpertsAreChoice(l.gate, x);
    WeightsAreShares(l.gate, x);
    forall d: nat | d < l.dim ensures y(d) == Terms(l, x, c, w, |c|, d) + l.shared(x, d) {
      TermsAreExpertSum(l, x, |c|, d);
    }
  }

  method AddShared(l: Layer, xs: seq<Row>, y: array2<real>)
    requires y.Length0 == |xs| && y.Length1 == l.dim
    modifies y
    ensures forall t: nat, d: nat :: t < |xs| && d < l.dim ==> y[t, d] == old(y[t, d]) + l.shared(xs[t], d)
  {
    forall t: nat, d: nat | t < |xs| && d < l.dim {
      y[t, d] := y[t, d] + l.shared(xs[t], d);
    }
  }

  /** The slots that the scan of the dispatch reads are all there exactly when topk is at most the number of experts. */
  lemma SlotsInRangeIff(n: nat, topk: nat, e: nat)
    requires n > 0
    ensures (forall t, s :: 0 <= t < n && 0 <= s < topk ==> Position(t, s, topk) < n * Min(topk, e)) <==> topk <= e
  {
    if topk <= e {
      forall t, s | 0 <= t < n && 0 <= s < topk ensures Position(t, s, topk) < n * Min(topk, e) {
        Bounded(t, s, n, topk);
      }
    } else {
      LastSlotMissing(n, topk, e);
      assert Position(n - 1, topk - 1, topk) >= n * Min(topk, e);
    }
  }

  function Position(t: int, s: int, k: nat): int {
    t * k + s
  }

  lemma LastSlotMissing(n: nat, topk: nat, e: nat)
    requires n > 0 && topk > e
    ensures Position(n - 1, topk - 1, topk) >= n * e
  {
    assert (n - 1) * topk + topk == n * topk;
    assert n * topk - n * e == n * (topk - e);
    assert n * (topk - e) >= 1;
  }
}
