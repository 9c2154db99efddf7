/**
  What one call of the Qwen3 forward pass means, without its step functions: softmax attention as
  probabilities over the visible keys, the residual block, and the embedding and head around the layers.
*/
module Qwen3Meaning {
  import opened Common
  import opened Qwen3

  // ---------------------------------------------------------------- softmax

  function Sum(xs: seq<real>): real {
    if xs == [] then 0.0 else Sum(xs[..|xs| - 1]) + xs[|xs| - 1]
  }

  function Dot(p: seq<real>, v: seq<real>): real
    requires |p| == |v|
  {
    if p == [] then 0.0 else Dot(p[..|p| - 1], v[..|v| - 1]) + p[|p| - 1] * v[|v| - 1]
  }

  /** Each exponential as its part of the total. */
  ghost predicate IsSoftmax(p: seq<real>, e: seq<real>) {
    |p| == |e| && Sum(e) > 0.0 && forall i :: 0 <= i < |p| ==> p[i] == e[i] / Sum(e)
  }

  /** The exponentials of the scores of a query with the mask added; a masked key has none. */
  ghost predicate AreExponentials(w: AttentionFns, c: nat, q: Row, kvs: KVs, mask: seq<Score>, e: seq<real>) {
    && |e| == |mask| == |kvs|
    && forall j :: 0 <= j < |kvs| ==>
         e[j] == if mask[j].NegInf? then 0.0 else w.exp(w.score(c, q, kvs[j].k) + mask[j].bias)
  }

  ghost predicate AreValues(w: AttentionFns, c: nat, kvs: KVs, v: seq<real>) {
    |v| == |kvs| && forall j :: 0 <= j < |kvs| ==> v[j] == w.channel(c, kvs[j].v)
  }

  /** Component c of the context is the mean of the values under the probabilities. */
  ghost predicate IsMean(w: AttentionFns, c: nat, q: Row, kvs: KVs, mask: seq<Score>, x: real) {
    exists p, e, v :: IsMeanOf(w, c, q, kvs, mask, x, p, e, v)
  }

  ghost predicate IsMeanOf(w: AttentionFns, c: nat, q: Row, kvs: KVs, mask: seq<Score>, x: real,
                           p: seq<real>, e: seq<real>, v: seq<real>)
  {
    && AreExponentials(w, c, q, kvs, mask, e) && AreValues(w, c, kvs, v)
    && IsSoftmax(p, e) && x == Dot(p, v)
  }

  ghost predicate Attends(w: AttentionFns, q: Row, kvs: KVs, mask: seq<Score>, ctx: Row) {
    |ctx| == w.width && forall c: nat :: c < w.width ==> IsMean(w, c, q, kvs, mask, ctx[c])
  }

  /** Some key is visible. */
  ghost predicate Sees(mask: seq<Score>) {
    exists j :: 0 <= j < |mask| && mask[j].Finite?
  }

  lemma AddQuotients(a: real, b: real, t: real)
    requires t > 0.0
    ensures a / t + b / t == (a + b) / t
  {
  }

  lemma QuotientTimes(a: real, v: real, t: real)
    requires t > 0.0
    ensures a / t * v == (a * v) / t
  {
    var q := a / t;
    assert q * t == a;
    TimesThenOver(q, v, t);
    assert a * v == q * v * t;
  }

  lemma TimesThenOver(q: real, v: real, t: real)
    requires t > 0.0
    ensures (q * v * t) / t == q * v && q * t * v == q * v * t
  {
  }

  lemma QuotientOfSelf(t: real)
    requires t > 0.0
    ensures t / t == 1.0
  {
  }

  /** The parts of a total add up to the sum over that total. */
  lemma {:induction false} SumOfParts(e: seq<real>, p: seq<real>, t: real)
    requires t > 0.0 && |p| == |e| && forall i :: 0 <= i < |p| ==> p[i] == e[i] / t
    ensures Sum(p) == Sum(e) / t
  {
    if e != [] {
      var n := |e| - 1;
      SumOfParts(e[..n], p[..n], t);
      AddQuotients(Sum(e[..n]), e[n], t);
    }
  }

  lemma {:induction false} DotOfParts(e: seq<real>, p: seq<real>, v: seq<real>, t: real)
    requires t > 0.0 && |p| == |e| == |v| && forall i :: 0 <= i < |p| ==> p[i] == e[i] / t
    ensures Dot(p, v) == Dot(e, v) / t
  {
    if e != [] {
      var n := |e| - 1;
      DotOfParts(e[..n], p[..n], v[..n], t);
      QuotientTimes(e[n], v[n], t);
      AddQuotients(Dot(e[..n], v[..n]), e[n] * v[n], t);
    }
  }

  /** Probabilities: not negative, positive where there is an exponential, and adding up to one. */
  lemma SoftmaxIsNormalised(p: seq<real>, e: seq<real>)
    requires IsSoftmax(p, e) && forall i :: 0 <= i < |e| ==> e[i] >= 0.0
    ensures Sum(p) == 1.0
    ensures forall i :: 0 <= i < |p| ==> p[i] >= 0.0 && (p[i] > 0.0 <==> e[i] > 0.0)
  {
    SumOfParts(e, p, Sum(e));
    QuotientOfSelf(Sum(e));
    forall i | 0 <= i < |p| ensures p[i] >= 0.0 && (p[i] > 0.0 <==> e[i] > 0.0) {
      PartSign(e[i], Sum(e));
    }
  }

  lemma PartSign(a: real, t: real)
    requires a >= 0.0 && t > 0.0
    ensures a / t >= 0.0 && (a / t > 0.0 <==> a > 0.0)
  {
  }

  lemma {:induction false} SumsOfExponentials(w: AttentionFns, c: nat, q: Row, kvs: KVs, mask: seq<Score>,
                                              e: seq<real>, v: seq<real>)
    requires |mask| == |kvs| && AreExponentials(w, c, q, kvs, mask, e) && AreValues(w, c, kvs, v)
    ensures Total(w, c, q, kvs, mask) == Sum(e) && Mixed(w, c, q, kvs, mask) == Dot(e, v)
  {
    if kvs != [] {
      var n := |kvs| - 1;
      SumsOfExponentials(w, c, q, kvs[..n], mask[..n], e[..n], v[..n]);
    }
  }

  lemma {:induction false} SumPositive(e: seq<real>, j: nat)
    requires j < |e| && e[j] > 0.0 && forall i :: 0 <= i < |e| ==> e[i] >= 0.0
    ensures Sum(e) > 0.0
  {
    var n := |e| - 1;
    SumNotNegative(e[..n]);
    if j < n {
      SumPositive(e[..n], j);
    }
  }

  lemma {:induction false} SumNotNegative(e: seq<real>)
    requires forall i :: 0 <= i < |e| ==> e[i] >= 0.0
    ensures Sum(e) >= 0.0
  {
    if e != [] {
      SumNotNegative(e[..|e| - 1]);
    }
  }

  function Parts(e: seq<real>, t: real): (p: seq<real>)
    requires t > 0.0
    ensures |p| == |e| && forall i :: 0 <= i < |e| ==> p[i] == e[i] / t
  {
    seq(|e|, i requires 0 <= i < |e| => e[i] / t)
  }

  function Exponentials(w: AttentionFns, c: nat, q: Row, kvs: KVs, mask: seq<Score>): (e: seq<real>)
    requires |mask| == |kvs|
    ensures AreExponentials(w, c, q, kvs, mask, e)
    ensures forall j :: 0 <= j < |e| ==> e[j] >= 0.0 && (mask[j].Finite? ==> e[j] > 0.0)
  {
    seq(|kvs|, j requires 0 <= j < |kvs| =>
      if mask[j].NegInf? then 0.0 else w.exp(w.score(c, q, kvs[j].k) + mask[j].bias))
  }

  function Values(w: AttentionFns, c: nat, kvs: KVs): (v: seq<real>)
    ensures AreValues(w, c, kvs, v)
  {
    seq(|kvs|, j requires 0 <= j < |kvs| => w.channel(c, kvs[j].v))
  }

  /** Attention of one query is softmax attention over the keys it sees. */
  lemma ContextAttends(w: AttentionFns, q: Row, kvs: KVs, mask: seq<Score>)
    requires |mask| == |kvs| && Sees(mask)
    ensures Attends(w, q, kvs, mask, Context(w, q, kvs, mask))
  {
    forall c: nat | c < w.width ensures IsMean(w, c, q, kvs, mask, Context(w, q, kvs, mask)[c]) {
      ComponentIsMean(w, c, q, kvs, mask);
    }
  }

  lemma ComponentIsMean(w: AttentionFns, c: nat, q: Row, kvs: KVs, mask: seq<Score>)
    requires |mask| == |kvs| && Sees(mask) && c < w.width
    ensures IsMean(w, c, q, kvs, mask, Context(w, q, kvs, mask)[c])
  {
    var e, v := Exponentials(w, c, q, kvs, mask), Values(w, c, kvs);
    var j :| 0 <= j < |mask| && mask[j].Finite?;
    SumPositive(e, j);
    SumsOfExponentials(w, c, q, kvs, mask, e, v);
    var p := Parts(e, Sum(e));
    DotOfParts(e, p, v, Sum(e));
    assert IsMeanOf(w, c, q, kvs, mask, Context(w, q, kvs, mask)[c], p, e, v);
  }

  /** The mean of numbers between bounds, as a predicate that keeps the products apart. */
  ghost predicate Within(x: real, lo: real, hi: real, weight: real) {
    lo * weight <= x <= hi * weight
  }

  lemma AddWithin(x: real, y: real, lo: real, hi: real, a: real, b: real)
    requires Within(x, lo, hi, a) && Within(y, lo, hi, b)
    ensures Within(x + y, lo, hi, a + b)
  {
    assert lo * (a + b) == lo * a + lo * b;
    assert hi * (a + b) == hi * a + hi * b;
  }

  lemma TermWithin(p: real, v: real, lo: real, hi: real)
    requires p >= 0.0 && (p > 0.0 ==> lo <= v <= hi)
    ensures Within(p * v, lo, hi, p)
  {
  }

  lemma {:induction false} DotWithin(p: seq<real>, v: seq<real>, lo: real, hi: real)
    requires |p| == |v| && forall j :: 0 <= j < |p| ==> p[j] >= 0.0 && (p[j] > 0.0 ==> lo <= v[j] <= hi)
    ensures Within(Dot(p, v), lo, hi, Sum(p))
  {
    if p != [] {
      var n := |p| - 1;
      DotWithin(p[..n], v[..n], lo, hi);
      TermWithin(p[n], v[n], lo, hi);
      AddWithin(Dot(p[..n], v[..n]), p[n] * v[n], lo, hi, Sum(p[..n]), p[n]);
    }
  }

  /**
    A context component lies between the least and the greatest visible component; where all visible
    components are the same, it is that one.
  */
  lemma MeanBetween(w: AttentionFns, c: nat, q: Row, kvs: KVs, mask: seq<Score>, x: real, lo: real, hi: real)
    requires |mask| == |kvs| && IsMean(w, c, q, kvs, mask, x)
    requires forall j :: 0 <= j < |kvs| && mask[j].Finite? ==> lo <= w.channel(c, kvs[j].v) <= hi
    ensures lo <= x <= hi
  {
    var p, e, v :| IsMeanOf(w, c, q, kvs, mask, x, p, e, v);
    SoftmaxIsNormalised(p, e);
    DotWithin(p, v, lo, hi);
  }

  /** The meaning of attention leaves only one context. */
  lemma MeanIsUnique(w: AttentionFns, c: nat, q: Row, kvs: KVs, mask: seq<Score>, x: real, y: real)
    requires |mask| == |kvs| && IsMean(w, c, q, kvs, mask, x) && IsMean(w, c, q, kvs, mask, y)
    ensures x == y
  {
    var p, e, v :| IsMeanOf(w, c, q, kvs, mask, x, p, e, v);
    var r, f, u :| IsMeanOf(w, c, q, kvs, mask, y, r, f, u);
    assert e == f && v == u;
    assert p == r;
  }

  // ---------------------------------------------------------------- attention

  /** The mask row of position i; without a mask every key is open. */
  ghost predicate IsMaskRow(mask: Option<Mask>, i: nat, n: nat, row: seq<Score>) {
    && |row| == n
    && (mask.Some? ==> i < |mask.value| && row == mask.value[i])
    && (mask.None? ==> forall j :: 0 <= j < n ==> row[j] == Finite(0.0))
  }

  /** The new keys, turned by their positions, and the new values stand behind those of the past. */
  ghost predicate Appended(w: AttentionFns, past: KVs, xs: seq<Row>, offset: nat, kvs: KVs) {
    && |kvs| == |past| + |xs| && kvs[..|past|] == past
    && forall i :: 0 <= i < |xs| ==>
         kvs[|past| + i].k == w.rope(w.kProj(xs[i]), offset + i) && kvs[|past| + i].v == w.vProj(xs[i])
  }

  /** Row i of the output: its query, turned by its position, attends to all keys so far. */
  ghost predicate IsOutputRow(w: AttentionFns, x: Row, pos: nat, kvs: KVs, row: seq<Score>, y: Row) {
    exists ctx :: Attends(w, w.rope(w.qProj(x), pos), kvs, row, ctx) && y == w.oProj(ctx)
  }

  ghost predicate IsAttention(w: AttentionFns, past: KVs, xs: seq<Row>, mask: Option<Mask>, offset: nat,
                              ys: seq<Row>, kvs: KVs)
  {
    Appended(w, past, xs, offset, kvs) && |ys| == |xs| && AreOutputs(w, xs, mask, offset, ys, kvs)
  }

  ghost predicate AreOutputs(w: AttentionFns, xs: seq<Row>, mask: Option<Mask>, offset: nat, ys: seq<Row>, kvs: KVs)
    requires |ys| == |xs|
  {
    forall i, row {:trigger IsMaskRow(mask, i, |kvs|, row)} ::
      0 <= i < |xs| && IsMaskRow(mask, i, |kvs|, row) && Sees(row) ==>
        IsOutputRow(w, xs[i], offset + i, kvs, row, ys[i])
  }

  function Past(cache: Cache): KVs {
    if cache.Held? then cache.kvs else []
  }

  lemma RowMeans(w: AttentionFns, x: Row, pos: nat, kvs: KVs, row: seq<Score>)
    requires |row| == |kvs| && Sees(row)
    ensures IsOutputRow(w, x, pos, kvs, row, AttentionRow(w, x, pos, kvs, row))
  {
    ContextAttends(w, w.rope(w.qProj(x), pos), kvs, row);
  }

  lemma OneMaskRow(mask: Option<Mask>, i: nat, n: nat, row: seq<Score>)
    requires IsMaskRow(mask, i, n, row)
    ensures row == RowOf(mask, i, n)
  {
  }

  lemma RowsMean(w: AttentionFns, xs: seq<Row>, kvs: KVs, mask: Option<Mask>, offset: nat)
    requires mask.Some? ==> Fits(mask.value, |xs|, |kvs|)
    ensures AreOutputs(w, xs, mask, offset, AttentionRows(w, xs, kvs, mask, offset), kvs)
  {
    var ys := AttentionRows(w, xs, kvs, mask, offset);
    forall i, row | 0 <= i < |xs| && IsMaskRow(mask, i, |kvs|, row) && Sees(row)
      ensures IsOutputRow(w, xs[i], offset + i, kvs, row, ys[i])
    {
      OneMaskRow(mask, i, |kvs|, row);
      RowMeans(w, xs[i], offset + i, kvs, row);
    }
  }

  lemma NewKVsAppended(w: AttentionFns, past: KVs, xs: seq<Row>, offset: nat)
    ensures Appended(w, past, xs, offset, past + NewKVs(w, xs, offset))
  {
  }

  lemma AttentionStepMeans(w: AttentionFns, cache: Cache, b: nat, xs: seq<Row>, mask: Option<Mask>, offset: nat)
    requires AttentionStep(w, cache, b, xs, mask, offset).0.Ok?
    ensures var (r, cache') := AttentionStep(w, cache, b, xs, mask, offset);
      cache'.Held? && cache'.batch == b && IsAttention(w, Past(cache), xs, mask, offset, r.value, cache'.kvs)
  {
    NewKVsAppended(w, Past(cache), xs, offset);
    RowsMean(w, xs, Past(cache) + NewKVs(w, xs, offset), mask, offset);
  }

  // ---------------------------------------------------------------- a layer

  /** Norm, attention, residual; norm, feed-forward, residual. */
  ghost predicate IsBlock(w: LayerFns, past: KVs, xs: seq<Row>, mask: Option<Mask>, offset: nat,
                          ys: seq<Row>, kvs: KVs)
  {
    exists normed, hs ::
      && |normed| == |hs| == |xs| == |ys|
      && (forall i :: 0 <= i < |xs| ==> normed[i] == w.ln1(xs[i]))
      && IsAttention(w.attn, past, normed, mask, offset, hs, kvs)
      && forall i :: 0 <= i < |xs| ==> IsResidual(w, xs[i], hs[i], ys[i])
  }

  ghost predicate IsResidual(w: LayerFns, x: Row, h: Row, y: Row) {
    exists z :: z == w.add(x, h) && y == w.add(z, w.mlp(w.ln2(z)))
  }

  lemma LayerStepMeans(w: LayerFns, cache: Cache, b: nat, xs: seq<Row>, mask: Option<Mask>, offset: nat)
    requires LayerStep(w, cache, b, xs, mask, offset).0.Ok?
    ensures var (r, cache') := LayerStep(w, cache, b, xs, mask, offset);
      cache'.Held? && cache'.batch == b && IsBlock(w, Past(cache), xs, mask, offset, r.value, cache'.kvs)
  {
    AttentionStepMeans(w.attn, cache, b, Map(w.ln1, xs), mask, offset);
    var hs := AttentionStep(w.attn, cache, b, Map(w.ln1, xs), mask, offset).0.value;
    var ys := LayerStep(w, cache, b, xs, mask, offset).0.value;
    forall i | 0 <= i < |xs| ensures IsResidual(w, xs[i], hs[i], ys[i]) {
      var z := w.add(xs[i], hs[i]);
      assert ys[i] == w.add(z, w.mlp(w.ln2(z)));
    }
  }

  // ---------------------------------------------------------------- the whole call

  /** Layer after layer, each from the rows of the one before. */
  ghost predicate AreBlocks(ws: seq<LayerFns>, before: seq<Cache>, b: nat, xs: seq<Row>, mask: Option<Mask>,
                            offset: nat, ys: seq<Row>, after: seq<Cache>)
  {
    && |before| == |after| == |ws|
    && if ws == [] then ys == xs
       else
         && after[0].Held? && after[0].batch == b
         && exists mid ::
              && IsBlock(ws[0], Past(before[0]), xs, mask, offset, mid, after[0].kvs)
              && AreBlocks(ws[1..], before[1..], b, mid, mask, offset, ys, after[1..])
  }

  lemma {:induction false} StackStepMeans(ws: seq<LayerFns>, caches: seq<Cache>, b: nat, xs: seq<Row>,
                                          mask: Option<Mask>, offset: nat)
    requires |caches| == |ws| && StackStep(ws, caches, b, xs, mask, offset).0.Ok?
    ensures var (r, after) := StackStep(ws, caches, b, xs, mask, offset);
      AreBlocks(ws, caches, b, xs, mask, offset, r.value, after)
  {
    if ws != [] {
      LayerStepMeans(ws[0], caches[0], b, xs, mask, offset);
      var (h, c) := LayerStep(ws[0], caches[0], b, xs, mask, offset);
      StackStepMeans(ws[1..], caches[1..], b, h.value, mask, offset);
      var after := StackStep(ws, caches, b, xs, mask, offset).1;
      assert after[0] == c && after[1..] == StackStep(ws[1..], caches[1..], b, h.value, mask, offset).1;
    }
  }

  /** No mask for a single new row; otherwise row i sees the keys up to position offset + i. */
  ghost predicate IsCausalMask(mask: Option<Mask>, l: nat, offset: nat) {
    && (mask.None? <==> l == 1)
    && (mask.Some? ==> |mask.value| == l && forall i :: 0 <= i < l ==> |mask.value[i]| == l + offset)
    && (mask.Some? ==> forall i, j :: 0 <= i < l && 0 <= j < |mask.value[i]| ==>
          mask.value[i][j] == if j <= offset + i then Finite(0.0) else NegInf)
  }

  ghost predicate IsEmbedding(m: ModelFns, input: seq<Row>, xs: seq<Row>) {
    && |xs| == |input|
    && forall i :: 0 <= i < |xs| ==> xs[i] == if m.embed.Some? then m.embed.value(input[i]) else input[i]
  }

  /** With norm and head the logits of the last row, otherwise the rows. */
  ghost predicate IsOutput(m: ModelFns, batch: nat, ys: seq<Row>, out: Tensor)
    requires ys != []
  {
    && out.batch == batch
    && (m.norm.Some? && m.lmHead.Some? ==>
          |out.rows| == 1 && out.rows[0] == m.lmHead.value(m.norm.value(ys[|ys| - 1])))
    && (m.norm.None? || m.lmHead.None? ==> out.rows == ys)
  }

  ghost predicate IsCall(m: ModelFns, before: seq<Cache>, input: Tensor, offset: nat, out: Tensor, after: seq<Cache>) {
    exists xs, mask, ys ::
      && ys != [] && IsEmbedding(m, input.rows, xs) && IsCausalMask(mask, |xs|, offset)
      && AreBlocks(m.layers, before, input.batch, xs, mask, offset, ys, after)
      && IsOutput(m, input.batch, ys, out)
  }

  lemma MaskForMeans(b: nat, l: nat, offset: nat)
    requires MaskFor(b, l, offset).Ok?
    ensures IsCausalMask(MaskFor(b, l, offset).value, l, offset)
  {
    if l != 1 {
      var mask := CausalMask(b, l, offset, None).value;
      assert forall i :: 0 <= i < l ==> mask[i] == MaskRow(l, offset, None, i);
    }
  }

  lemma ModelStepMeans(m: ModelFns, caches: seq<Cache>, input: Tensor, offset: nat)
    requires |caches| == |m.layers| && input.rows != [] && ModelStep(m, caches, input, offset).0.Ok?
    ensures var (r, after) := ModelStep(m, caches, input, offset);
      IsCall(m, caches, input, offset, r.value, after)
  {
    var h := Embedded(m, input);
    MaskForMeans(h.batch, |h.rows|, offset);
    var mask := MaskFor(h.batch, |h.rows|, offset).value;
    StackStepMeans(m.layers, caches, h.batch, h.rows, mask, offset);
    var ys := StackStep(m.layers, caches, h.batch, h.rows, mask, offset).0.value;
    var (r, after) := ModelStep(m, caches, input, offset);
    assert IsEmbedding(m, input.rows, h.rows);
    assert IsOutput(m, input.batch, ys, r.value);
    assert AreBlocks(m.layers, caches, input.batch, h.rows, mask, offset, ys, after);
  }
}
