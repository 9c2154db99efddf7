/**
  Qwen3 forward pass: causal mask, attention with a growing key/value cache, layers, and
  models that hold only a range of the layers.

  A `Row` is the slice of a tensor at one position, over all batch lanes, heads and channels.
  Linear maps, norms, RoPE and the scaled dot product are uninterpreted functions on rows;
  softmax is computed over the reals from an arbitrary positive `exp`.
*/
module Qwen3 {
  import opened Common

  type Row = seq<real>
  type Positive = r: real | r > 0.0 witness 1.0

  datatype KV = KV(k: Row, v: Row)
  type KVs = seq<KV>

  /** What an attention holds of earlier calls; keys and values are appended for one batch size. */
  datatype Cache = Empty | Held(batch: nat, kvs: KVs)

  /** A tensor of shape (batch, |rows|, ..): token ids, hidden states or logits. */
  datatype Tensor = Tensor(batch: nat, rows: seq<Row>)

  datatype Error = ShapeMismatch | PositionOutOfRange

  datatype Score = Finite(bias: real) | NegInf
  type Mask = seq<seq<Score>>

  datatype AttentionFns = AttentionFns(
    qProj: Row -> Row,            // q_proj, then q_norm per head
    kProj: Row -> Row,            // k_proj, then k_norm per head
    vProj: Row -> Row,
    oProj: Row -> Row,
    rope: (Row, nat) -> Row,      // rotation of one row by its absolute position
    maxPositions: nat,            // rows of the sin/cos tables
    width: nat,                   // components of a context row
    score: (nat, Row, Row) -> real,  // scaled q.k of the head that component belongs to
    channel: (nat, Row) -> real,     // that component of a value row, kv heads repeated
    exp: real -> Positive)

  datatype LayerFns = LayerFns(attn: AttentionFns, ln1: Row -> Row, ln2: Row -> Row,
                               mlp: Row -> Row, add: (Row, Row) -> Row)

  datatype ModelFns = ModelFns(embed: Option<Row -> Row>, layers: seq<LayerFns>,
                               norm: Option<Row -> Row>, lmHead: Option<Row -> Row>)

  function Map(f: Row -> Row, xs: seq<Row>): (ys: seq<Row>)
    ensures |ys| == |xs|
    ensures forall i :: 0 <= i < |xs| ==> ys[i] == f(xs[i])
  {
    seq(|xs|, i requires 0 <= i < |xs| => f(xs[i]))
  }

  // ---------------------------------------------------------------- softmax attention of one row

  function Weight(w: AttentionFns, c: nat, q: Row, kv: KV, m: Score): real {
    match m
    case NegInf => 0.0
    case Finite(bias) => w.exp(w.score(c, q, kv.k) + bias)
  }

  function Total(w: AttentionFns, c: nat, q: Row, kvs: KVs, mask: seq<Score>): real
    requires |mask| == |kvs|
  {
    if kvs == [] then 0.0
    else
      var n := |kvs| - 1;
      Total(w, c, q, kvs[..n], mask[..n]) + Weight(w, c, q, kvs[n], mask[n])
  }

  function Mixed(w: AttentionFns, c: nat, q: Row, kvs: KVs, mask: seq<Score>): real
    requires |mask| == |kvs|
  {
    if kvs == [] then 0.0
    else
      var n := |kvs| - 1;
      Mixed(w, c, q, kvs[..n], mask[..n]) + Weight(w, c, q, kvs[n], mask[n]) * w.channel(c, kvs[n].v)
  }

  /** softmax(scores + mask) . V; a row that sees no key, which never arises, is given 0. */
  function Context(w: AttentionFns, q: Row, kvs: KVs, mask: seq<Score>): Row
    requires |mask| == |kvs|
  {
    seq(w.width, c requires c >= 0 =>
      var total := Total(w, c, q, kvs, mask);
      if total == 0.0 then 0.0 else Mixed(w, c, q, kvs, mask) / total)
  }

  function NoMask(n: nat): (m: seq<Score>)
    ensures |m| == n && forall j :: 0 <= j < n ==> m[j] == Finite(0.0)
  {
    seq(n, _ => Finite(0.0))
  }

  ghost predicate OpensPrefix(mask: seq<Score>, n: nat) {
    n <= |mask| && forall j :: 0 <= j < |mask| ==> mask[j] == if j < n then Finite(0.0) else NegInf
  }

  lemma {:induction false} MaskedSums(w: AttentionFns, c: nat, q: Row, kvs: KVs, mask: seq<Score>, n: nat)
    requires |mask| == |kvs| && OpensPrefix(mask, n)
    ensures Total(w, c, q, kvs, mask) == Total(w, c, q, kvs[..n], NoMask(n))
    ensures Mixed(w, c, q, kvs, mask) == Mixed(w, c, q, kvs[..n], NoMask(n))
  {
    if n == |kvs| {
      assert kvs[..n] == kvs && mask == NoMask(n);
    } else {
      var m := |kvs| - 1;
      MaskedSums(w, c, q, kvs[..m], mask[..m], n);
      assert kvs[..m][..n] == kvs[..n];
    }
  }

  /** Masked attention over all keys is unmasked attention over the visible ones. */
  lemma MaskedIsVisible(w: AttentionFns, q: Row, kvs: KVs, mask: seq<Score>, n: nat)
    requires |mask| == |kvs| && OpensPrefix(mask, n)
    ensures Context(w, q, kvs, mask) == Context(w, q, kvs[..n], NoMask(n))
  {
    forall c: nat | c < w.width
      ensures Context(w, q, kvs, mask)[c] == Context(w, q, kvs[..n], NoMask(n))[c]
    {
      MaskedSums(w, c, q, kvs, mask, n);
    }
  }

  /** The softmax denominator of a position that sees a key is positive: no division by zero. */
  lemma {:induction false} VisibleTotalPositive(w: AttentionFns, c: nat, q: Row, kvs: KVs)
    requires kvs != []
    ensures Total(w, c, q, kvs, NoMask(|kvs|)) > 0.0
  {
    var n := |kvs| - 1;
    assert NoMask(|kvs|)[..n] == NoMask(n);
    if n > 0 {
      VisibleTotalPositive(w, c, q, kvs[..n]);
    }
  }

  // ---------------------------------------------------------------- the steps the code takes

  function MaskRow(tgt: nat, offset: nat, sw: Option<nat>, i: nat): (row: seq<Score>)
    ensures |row| == tgt + offset
    ensures forall j :: 0 <= j < tgt + offset ==>
      row[j] == if j <= i + offset && (sw.None? || i + offset - j <= sw.value) then Finite(0.0) else NegInf
  {
    seq(tgt + offset, j requires 0 <= j =>
      if j <= i + offset && (sw.None? || i + offset - j <= sw.value) then Finite(0.0) else NegInf)
  }

  lemma ElementCount(b: nat, tgt: nat, cols: nat)
    requires tgt <= cols
    ensures b * (tgt * cols) == tgt * cols <==> b == 1 || tgt == 0
  {
    if tgt != 0 {
      var elements := tgt * cols;
      assert elements >= tgt * 1;
      if b > 1 {
        assert b * elements >= 2 * elements;
      }
    }
  }

  /**
    The vector holds tgt * (tgt + offset) elements and is given the shape
    (b, 1, tgt, tgt + offset); `from_slice` rejects it when the counts differ.
  */
  function CausalMask(b: nat, tgt: nat, offset: nat, sw: Option<nat>): (r: Result<Mask, Error>)
    ensures r.Ok? <==> b == 1 || tgt == 0
    ensures r.Ok? ==> |r.value| == tgt
    ensures r.Ok? ==> forall i :: 0 <= i < tgt ==> r.value[i] == MaskRow(tgt, offset, sw, i)
  {
    ElementCount(b, tgt, tgt + offset);
    if b * (tgt * (tgt + offset)) != tgt * (tgt + offset) then Err(ShapeMismatch)
    else Ok(seq(tgt, i requires 0 <= i => MaskRow(tgt, offset, sw, i)))
  }

  function NewKVs(w: AttentionFns, xs: seq<Row>, offset: nat): (kvs: KVs)
    ensures |kvs| == |xs|
    ensures forall i :: 0 <= i < |xs| ==> kvs[i] == KV(w.rope(w.kProj(xs[i]), offset + i), w.vProj(xs[i]))
  {
    seq(|xs|, i requires 0 <= i < |xs| => KV(w.rope(w.kProj(xs[i]), offset + i), w.vProj(xs[i])))
  }

  predicate Fits(mask: Mask, l: nat, n: nat) {
    |mask| == l && forall i :: 0 <= i < l ==> |mask[i]| == n
  }

  /** The mask row of position i, all zeros when no mask is passed. */
  function RowOf(mask: Option<Mask>, i: nat, n: nat): seq<Score>
    requires mask.Some? ==> i < |mask.value|
  {
    if mask.Some? then mask.value[i] else NoMask(n)
  }

  /** One position of the attention output. */
  function AttentionRow(w: AttentionFns, x: Row, pos: nat, kvs: KVs, row: seq<Score>): Row
    requires |row| == |kvs|
  {
    w.oProj(Context(w, w.rope(w.qProj(x), pos), kvs, row))
  }

  function AttentionRows(w: AttentionFns, xs: seq<Row>, kvs: KVs, mask: Option<Mask>, offset: nat): (ys: seq<Row>)
    requires mask.Some? ==> Fits(mask.value, |xs|, |kvs|)
    ensures |ys| == |xs|
    ensures forall i {:trigger ys[i]} :: 0 <= i < |xs| ==>
      ys[i] == AttentionRow(w, xs[i], offset + i, kvs, RowOf(mask, i, |kvs|))
  {
    seq(|xs|, i requires 0 <= i < |xs| => AttentionRow(w, xs[i], offset + i, kvs, RowOf(mask, i, |kvs|)))
  }

  /** `Attention_Weights::Forward`: the result, and the cache it leaves behind. */
  function AttentionStep(w: AttentionFns, cache: Cache, b: nat, xs: seq<Row>, mask: Option<Mask>, offset: nat)
    : (Result<seq<Row>, Error>, Cache)
  {
    if offset + |xs| > w.maxPositions then (Err(PositionOutOfRange), cache)
    else if cache.Held? && cache.batch != b then (Err(ShapeMismatch), cache)
    else
      var kvs := (if cache.Held? then cache.kvs else []) + NewKVs(w, xs, offset);
      if mask.Some? && !Fits(mask.value, |xs|, |kvs|) then (Err(ShapeMismatch), Held(b, kvs))
      else (Ok(AttentionRows(w, xs, kvs, mask, offset)), Held(b, kvs))
  }

  function Residual(w: LayerFns, x: Row, h: Row): Row {
    var y := w.add(x, h);
    w.add(y, w.mlp(w.ln2(y)))
  }

  function Residuals(w: LayerFns, xs: seq<Row>, hs: seq<Row>): (ys: seq<Row>)
    requires |hs| == |xs|
    ensures |ys| == |xs|
    ensures forall i {:trigger ys[i]} :: 0 <= i < |xs| ==> ys[i] == Residual(w, xs[i], hs[i])
  {
    seq(|xs|, i requires 0 <= i < |xs| => Residual(w, xs[i], hs[i]))
  }

  /** `Layer_Weights::Forward`. */
  function LayerStep(w: LayerFns, cache: Cache, b: nat, xs: seq<Row>, mask: Option<Mask>, offset: nat)
    : (r: (Result<seq<Row>, Error>, Cache))
    ensures r.0.Ok? ==> |r.0.value| == |xs|
  {
    var (h, cache') := AttentionStep(w.attn, cache, b, Map(w.ln1, xs), mask, offset);
    if h.Err? then (Err(h.error), cache') else (Ok(Residuals(w, xs, h.value)), cache')
  }

  /** The layer loop: an error leaves the caches of the layers after it untouched. */
  function StackStep(ws: seq<LayerFns>, caches: seq<Cache>, b: nat, xs: seq<Row>, mask: Option<Mask>, offset: nat)
    : (r: (Result<seq<Row>, Error>, seq<Cache>))
    requires |caches| == |ws|
    ensures |r.1| == |ws|
    ensures r.0.Ok? ==> |r.0.value| == |xs|
  {
    if ws == [] then (Ok(xs), [])
    else
      var (h, cache') := LayerStep(ws[0], caches[0], b, xs, mask, offset);
      if h.Err? then (Err(h.error), [cache'] + caches[1..])
      else
        var (r, rest) := StackStep(ws[1..], caches[1..], b, h.value, mask, offset);
        (r, [cache'] + rest)
  }

  function MaskFor(b: nat, l: nat, offset: nat): Result<Option<Mask>, Error> {
    if l == 1 then Ok(None)
    else
      var m := CausalMask(b, l, offset, None);
      if m.Err? then Err(m.error) else Ok(Some(m.value))
  }

  function Embedded(m: ModelFns, input: Tensor): (h: Tensor)
    ensures |h.rows| == |input.rows| && h.batch == input.batch
  {
    if m.embed.Some? then Tensor(input.batch, Map(m.embed.value, input.rows)) else input
  }

  function Head(m: ModelFns, batch: nat, rows: seq<Row>): Tensor
    requires rows != []
  {
    if m.norm.Some? && m.lmHead.Some? then
      Tensor(batch, [m.lmHead.value(m.norm.value(rows[|rows| - 1]))])
    else Tensor(batch, rows)
  }

  /** `Model_Weights::Forward` for a complete or a partial model. */
  function ModelStep(m: ModelFns, caches: seq<Cache>, input: Tensor, offset: nat)
    : (r: (Result<Tensor, Error>, seq<Cache>))
    requires |caches| == |m.layers|
    requires input.rows != []
    ensures |r.1| == |m.layers|
    ensures r.0.Ok? ==> r.0.value.rows != []
  {
    var h := Embedded(m, input);
    var mask := MaskFor(h.batch, |h.rows|, offset);
    if mask.Err? then (Err(mask.error), caches)
    else
      var (r, caches') := StackStep(m.layers, caches, h.batch, h.rows, mask.value, offset);
      if r.Err? then (Err(r.error), caches') else (Ok(Head(m, h.batch, r.value)), caches')
  }

  // ---------------------------------------------------------------- evaluation from scratch

  /** Keys and values of a whole sequence at one layer. */
  function LayerKVs(w: LayerFns, xs: seq<Row>): (kvs: KVs)
    ensures |kvs| == |xs|
  {
    NewKVs(w.attn, Map(w.ln1, xs), 0)
  }

  /** One position of a layer: it sees the positions up to itself and nothing else. */
  function LayerRow(w: LayerFns, x: Row, pos: nat, visible: KVs): Row {
    Residual(w, x, AttentionRow(w.attn, w.ln1(x), pos, visible, NoMask(|visible|)))
  }

  /** A layer over a whole sequence: no cache, no mask, no offset. */
  function LayerRef(w: LayerFns, xs: seq<Row>): (ys: seq<Row>)
    ensures |ys| == |xs|
    ensures forall i :: 0 <= i < |xs| ==> ys[i] == LayerRow(w, xs[i], i, LayerKVs(w, xs)[..i + 1])
  {
    seq(|xs|, i requires 0 <= i < |xs| => LayerRow(w, xs[i], i, LayerKVs(w, xs)[..i + 1]))
  }

  function StackRef(ws: seq<LayerFns>, xs: seq<Row>): (ys: seq<Row>)
    ensures |ys| == |xs|
  {
    if ws == [] then xs else StackRef(ws[1..], LayerRef(ws[0], xs))
  }

  /** The cache that holds these keys and values. */
  function Filled(b: nat, kvs: KVs): Cache {
    if kvs == [] then Empty else Held(b, kvs)
  }

  /** The caches that belong to a sequence of embedded tokens of a batch. */
  function StackKVs(ws: seq<LayerFns>, b: nat, xs: seq<Row>): (cs: seq<Cache>)
    ensures |cs| == |ws|
  {
    if ws == [] then [] else [Filled(b, LayerKVs(ws[0], xs))] + StackKVs(ws[1..], b, LayerRef(ws[0], xs))
  }

  ghost predicate WithinContext(ws: seq<LayerFns>, n: nat) {
    forall i :: 0 <= i < |ws| ==> n <= ws[i].attn.maxPositions
  }

  // ---------------------------------------------------------------- cached equals uncached

  lemma LayerKVsAppend(w: LayerFns, past: seq<Row>, xs: seq<Row>)
    ensures LayerKVs(w, past + xs) == LayerKVs(w, past) + NewKVs(w.attn, Map(w.ln1, xs), |past|)
  {
    assert Map(w.ln1, past + xs) == Map(w.ln1, past) + Map(w.ln1, xs);
  }

  /** Later tokens never change what a layer computed for earlier ones. */
  lemma LayerRefPrefix(w: LayerFns, past: seq<Row>, xs: seq<Row>)
    ensures LayerRef(w, past + xs)[..|past|] == LayerRef(w, past)
  {
    LayerKVsAppend(w, past, xs);
    forall i | 0 <= i < |past|
      ensures LayerRef(w, past + xs)[i] == LayerRef(w, past)[i]
    {
      assert LayerKVs(w, past + xs)[..i + 1] == LayerKVs(w, past)[..i + 1];
    }
  }

  /** A mask for l new positions after `past` earlier ones; none is needed for a single one. */
  ghost predicate IsCausal(mask: Option<Mask>, past: nat, l: nat) {
    && (mask.None? ==> l == 1)
    && (mask.Some? ==> |mask.value| == l && forall i {:trigger mask.value[i]} :: 0 <= i < l ==>
          |mask.value[i]| == past + l && OpensPrefix(mask.value[i], past + i + 1))
  }

  lemma CausalRow(mask: Option<Mask>, past: nat, l: nat, i: nat)
    requires IsCausal(mask, past, l) && i < l
    ensures |RowOf(mask, i, past + l)| == past + l
    ensures OpensPrefix(RowOf(mask, i, past + l), past + i + 1)
  {
  }

  lemma RowAgrees(w: LayerFns, x: Row, pos: nat, kvs: KVs, row: seq<Score>)
    requires |row| == |kvs| && OpensPrefix(row, pos + 1)
    ensures Residual(w, x, AttentionRow(w.attn, w.ln1(x), pos, kvs, row)) == LayerRow(w, x, pos, kvs[..pos + 1])
  {
    MaskedIsVisible(w.attn, w.attn.rope(w.attn.qProj(w.ln1(x)), pos), kvs, row, pos + 1);
  }

  lemma CausalFits(mask: Option<Mask>, past: nat, l: nat)
    requires IsCausal(mask, past, l)
    ensures mask.Some? ==> Fits(mask.value, l, past + l)
  {
  }

  /** The rows `Layer_Weights::Forward` computes for new positions, given all keys and values. */
  function NewRows(w: LayerFns, xs: seq<Row>, kvs: KVs, mask: Option<Mask>, offset: nat): (ys: seq<Row>)
    requires mask.Some? ==> Fits(mask.value, |xs|, |kvs|)
    ensures |ys| == |xs|
  {
    Residuals(w, xs, AttentionRows(w.attn, Map(w.ln1, xs), kvs, mask, offset))
  }

  lemma NewRowAgrees(w: LayerFns, past: seq<Row>, xs: seq<Row>, mask: Option<Mask>, i: nat)
    requires IsCausal(mask, |past|, |xs|) && i < |xs|
    requires mask.Some? ==> Fits(mask.value, |xs|, |past| + |xs|)
    ensures NewRows(w, xs, LayerKVs(w, past + xs), mask, |past|)[i] == LayerRef(w, past + xs)[|past| + i]
  {
    var kvs := LayerKVs(w, past + xs);
    CausalRow(mask, |past|, |xs|, i);
    RowAgrees(w, xs[i], |past| + i, kvs, RowOf(mask, i, |kvs|));
    assert (past + xs)[|past| + i] == xs[i];
  }

  lemma LayerAgrees(w: LayerFns, b: nat, past: seq<Row>, xs: seq<Row>, mask: Option<Mask>)
    requires |past| + |xs| <= w.attn.maxPositions && xs != []
    requires IsCausal(mask, |past|, |xs|)
    ensures LayerStep(w, Filled(b, LayerKVs(w, past)), b, xs, mask, |past|)
         == (Ok(LayerRef(w, past + xs)[|past|..]), Filled(b, LayerKVs(w, past + xs)))
  {
    var kvs := LayerKVs(w, past + xs);
    LayerKVsAppend(w, past, xs);
    CausalFits(mask, |past|, |xs|);
    var rows := NewRows(w, xs, kvs, mask, |past|);
    assert past == [] ==> [] + NewKVs(w.attn, Map(w.ln1, xs), 0) == kvs;
    assert LayerStep(w, Filled(b, LayerKVs(w, past)), b, xs, mask, |past|) == (Ok(rows), Held(b, kvs));
    forall i | 0 <= i < |xs|
      ensures rows[i] == LayerRef(w, past + xs)[|past| + i]
    {
      NewRowAgrees(w, past, xs, mask, i);
    }
    assert rows == LayerRef(w, past + xs)[|past|..];
  }

  lemma {:induction false} StackAgrees(ws: seq<LayerFns>, b: nat, past: seq<Row>, xs: seq<Row>, mask: Option<Mask>)
    requires WithinContext(ws, |past| + |xs|) && xs != []
    requires IsCausal(mask, |past|, |xs|)
    ensures StackStep(ws, StackKVs(ws, b, past), b, xs, mask, |past|)
         == (Ok(StackRef(ws, past + xs)[|past|..]), StackKVs(ws, b, past + xs))
  {
    if ws == [] {
      assert (past + xs)[|past|..] == xs;
    } else {
      LayerAgrees(ws[0], b, past, xs, mask);
      LayerRefPrefix(ws[0], past, xs);
      var past' := LayerRef(ws[0], past);
      var xs' := LayerRef(ws[0], past + xs)[|past|..];
      assert past' + xs' == LayerRef(ws[0], past + xs);
      StackAgrees(ws[1..], b, past', xs', mask);
      assert StackKVs(ws, b, past)[1..] == StackKVs(ws[1..], b, past');
    }
  }

  /** Caches of one batch refuse a call of another, and stay as they are. */
  lemma OtherBatchFails(ws: seq<LayerFns>, lanes: nat, past: seq<Row>, b: nat, xs: seq<Row>,
                        mask: Option<Mask>, offset: nat)
    requires ws != [] && past != [] && b != lanes
    ensures var (r, caches) := StackStep(ws, StackKVs(ws, lanes, past), b, xs, mask, offset);
      r.Err? && caches == StackKVs(ws, lanes, past)
  {
    var cs := StackKVs(ws, lanes, past);
    assert cs[0] == Held(lanes, LayerKVs(ws[0], past));
    assert [cs[0]] + cs[1..] == cs;
  }

  lemma {:induction false} StackFailsOnAnyRows(ws: seq<LayerFns>, caches: seq<Cache>, b: nat, xs: seq<Row>,
                                               mask: Option<Mask>, offset: nat)
    requires |caches| == |ws| && !WithinContext(ws, offset + |xs|)
    ensures StackStep(ws, caches, b, xs, mask, offset).0.Err?
  {
    var (h, c) := LayerStep(ws[0], caches[0], b, xs, mask, offset);
    if h.Ok? {
      assert !WithinContext(ws[1..], offset + |xs|) by {
        var i :| 0 <= i < |ws| && offset + |xs| > ws[i].attn.maxPositions;
        assert i != 0;
        assert ws[1..][i - 1] == ws[i];
      }
      StackFailsOnAnyRows(ws[1..], caches[1..], b, h.value, mask, offset);
    }
  }
}
