/**
  The objects of the Qwen3 forward pass. Each attention object owns the cache it grows; the
  methods are tied to the step functions of `Qwen3`.
*/
module Qwen3Model {
  import opened Common
  import opened Qwen3
  import Qwen3Meaning
  import opened Qwen3Runs

  // What the steps mean, where they succeed.

  lemma AttentionMeans(w: AttentionFns, cache: Cache, b: nat, xs: seq<Row>, mask: Option<Mask>, offset: nat)
    ensures var (r, cache') := AttentionStep(w, cache, b, xs, mask, offset);
      r.Ok? ==>
        && cache'.Held? && cache'.batch == b
        && Qwen3Meaning.IsAttention(w, Qwen3Meaning.Past(cache), xs, mask, offset, r.value, cache'.kvs)
  {
    if AttentionStep(w, cache, b, xs, mask, offset).0.Ok? {
      Qwen3Meaning.AttentionStepMeans(w, cache, b, xs, mask, offset);
    }
  }

  lemma LayerMeans(w: LayerFns, cache: Cache, b: nat, xs: seq<Row>, mask: Option<Mask>, offset: nat)
    ensures var (r, cache') := LayerStep(w, cache, b, xs, mask, offset);
      r.Ok? ==>
        && cache'.Held?
        && Qwen3Meaning.IsBlock(w, Qwen3Meaning.Past(cache), xs, mask, offset, r.value, cache'.kvs)
  {
    if LayerStep(w, cache, b, xs, mask, offset).0.Ok? {
      Qwen3Meaning.LayerStepMeans(w, cache, b, xs, mask, offset);
    }
  }

  lemma ModelMeans(m: ModelFns, caches: seq<Cache>, input: Tensor, offset: nat)
    requires |caches| == |m.layers| && input.rows != []
    ensures var (r, after) := ModelStep(m, caches, input, offset);
      r.Ok? ==> Qwen3Meaning.IsCall(m, caches, input, offset, r.value, after)
  {
    if ModelStep(m, caches, input, offset).0.Ok? {
      Qwen3Meaning.ModelStepMeans(m, caches, input, offset);
    }
  }

  class Attention {
    const fns: AttentionFns
    var kvCache: Cache

    constructor (fns: AttentionFns)
      ensures this.fns == fns && kvCache == Empty
    {
      this.fns := fns;
      kvCache := Empty;
    }

    method Forward(b: nat, xs: seq<Row>, mask: Option<Mask>, offset: nat) returns (r: Result<seq<Row>, Error>)
      modifies this
      ensures (r, kvCache) == AttentionStep(fns, old(kvCache), b, xs, mask, offset)
      ensures r.Ok? ==> kvCache.Held? && kvCache.batch == b
      ensures r.Ok? ==> Qwen3Meaning.IsAttention(fns, Qwen3Meaning.Past(old(kvCache)), xs, mask, offset,
                                                 r.value, kvCache.kvs)
    {
      AttentionMeans(fns, kvCache, b, xs, mask, offset);
      if offset + |xs| > fns.maxPositions {
        return Err(PositionOutOfRange);
      }
      var appended := Append(b, NewKVs(fns, xs, offset));
      if appended.Err? {
        return Err(appended.error);
      }
      var kvs := appended.value;
      if mask.Some? && !Fits(mask.value, |xs|, |kvs|) {
        return Err(ShapeMismatch);
      }
      r := Ok(AttentionRows(fns, xs, kvs, mask, offset));
    }

    /** The cache grows along the sequence; the other dimensions must fit. */
    method Append(b: nat, more: KVs) returns (r: Result<KVs, Error>)
      modifies this
      ensures r.Err? <==> old(kvCache).Held? && old(kvCache).batch != b
      ensures r.Err? ==> r.error == ShapeMismatch && kvCache == old(kvCache)
      ensures r.Ok? ==> r.value == (if old(kvCache).Held? then old(kvCache).kvs else []) + more
      ensures r.Ok? ==> kvCache == Held(b, r.value)
    {
      if kvCache.Empty? {
        kvCache := Held(b, [] + more);
      } else if kvCache.batch == b {
        kvCache := Held(b, kvCache.kvs + more);
      } else {
        return Err(ShapeMismatch);
      }
      r := Ok(kvCache.kvs);
    }

    method ClearKvCache()
      modifies this
      ensures kvCache == Empty
    {
      kvCache := Empty;
    }
  }

  class Layer {
    const fns: LayerFns
    const selfAttn: Attention

    constructor (fns: LayerFns)
      ensures this.fns == fns && selfAttn.fns == fns.attn && selfAttn.kvCache == Empty
      ensures fresh(selfAttn)
    {
      this.fns := fns;
      selfAttn := new Attention(fns.attn);
    }

    method Forward(b: nat, xs: seq<Row>, mask: Option<Mask>, offset: nat) returns (r: Result<seq<Row>, Error>)
      requires selfAttn.fns == fns.attn
      modifies selfAttn
      ensures (r, selfAttn.kvCache) == LayerStep(fns, old(selfAttn.kvCache), b, xs, mask, offset)
      ensures r.Ok? ==> selfAttn.kvCache.Held?
      ensures r.Ok? ==> Qwen3Meaning.IsBlock(fns, Qwen3Meaning.Past(old(selfAttn.kvCache)), xs, mask, offset,
                                             r.value, selfAttn.kvCache.kvs)
    {
      LayerMeans(fns, selfAttn.kvCache, b, xs, mask, offset);
      var h := selfAttn.Forward(b, Map(fns.ln1, xs), mask, offset);
      if h.Err? {
        return Err(h.error);
      }
      r := Ok(Residuals(fns, xs, h.value));
    }
  }

  /** The layer loop from layer i on, over the caches of all layers. */
  ghost function LoopFrom(ws: seq<LayerFns>, caches: seq<Cache>, i: nat, b: nat, xs: seq<Row>,
                          mask: Option<Mask>, offset: nat): (Result<seq<Row>, Error>, seq<Cache>)
    requires |caches| == |ws| && i <= |ws|
    decreases |ws| - i
  {
    if i == |ws| then (Ok(xs), caches)
    else
      var (h, c) := LayerStep(ws[i], caches[i], b, xs, mask, offset);
      if h.Err? then (Err(h.error), caches[i := c])
      else LoopFrom(ws, caches[i := c], i + 1, b, h.value, mask, offset)
  }

  lemma LoopUnfolds(ws: seq<LayerFns>, caches: seq<Cache>, i: nat, b: nat, xs: seq<Row>,
                    mask: Option<Mask>, offset: nat)
    requires |caches| == |ws| && i < |ws|
    ensures var (h, c) := LayerStep(ws[i], caches[i], b, xs, mask, offset);
      LoopFrom(ws, caches, i, b, xs, mask, offset) ==
      if h.Err? then (Err(h.error), caches[i := c]) else LoopFrom(ws, caches[i := c], i + 1, b, h.value, mask, offset)
  {
  }

  lemma UpdatePrefix(caches: seq<Cache>, i: nat, c: Cache, rest: seq<Cache>)
    requires i < |caches|
    ensures caches[i := c] == caches[..i] + ([c] + caches[i + 1..])
    ensures caches[i := c][..i + 1] + rest == caches[..i] + ([c] + rest)
    ensures caches[i := c][i + 1..] == caches[i..][1..] == caches[i + 1..]
  {
  }

  lemma {:induction false} LoopIsStack(ws: seq<LayerFns>, caches: seq<Cache>, i: nat, b: nat, xs: seq<Row>,
                                       mask: Option<Mask>, offset: nat)
    requires |caches| == |ws| && i <= |ws|
    ensures var (r, rest) := StackStep(ws[i..], caches[i..], b, xs, mask, offset);
      LoopFrom(ws, caches, i, b, xs, mask, offset) == (r, caches[..i] + rest)
    decreases |ws| - i
  {
    if i == |ws| {
      assert caches[..i] + [] == caches;
    } else {
      var (h, c) := LayerStep(ws[i], caches[i], b, xs, mask, offset);
      assert ws[i..][1..] == ws[i + 1..];
      if h.Err? {
        UpdatePrefix(caches, i, c, []);
      } else {
        LoopIsStack(ws, caches[i := c], i + 1, b, h.value, mask, offset);
        UpdatePrefix(caches, i, c, StackStep(ws[i + 1..], caches[i + 1..], b, h.value, mask, offset).1);
      }
    }
  }

  lemma WholeLoopIsStack(ws: seq<LayerFns>, caches: seq<Cache>, b: nat, xs: seq<Row>, mask: Option<Mask>, offset: nat)
    requires |caches| == |ws|
    ensures LoopFrom(ws, caches, 0, b, xs, mask, offset) == StackStep(ws, caches, b, xs, mask, offset)
  {
    LoopIsStack(ws, caches, 0, b, xs, mask, offset);
    assert ws[0..] == ws && caches[0..] == caches;
    var rest := StackStep(ws, caches, b, xs, mask, offset).1;
    assert caches[..0] + rest == rest;
  }

  class Model {
    const embed: Option<Row -> Row>
    const layers: seq<Layer>
    const norm: Option<Row -> Row>
    const lmHead: Option<Row -> Row>
    ghost const fns: ModelFns

    ghost const attns: set<Attention>

    /** Every layer has an attention object of its own. */
    ghost predicate Valid() {
      && fns.embed == embed && fns.norm == norm && fns.lmHead == lmHead
      && |fns.layers| == |layers|
      && (forall i :: 0 <= i < |layers| ==>
            fns.layers[i] == layers[i].fns && layers[i].selfAttn.fns == layers[i].fns.attn)
      && (forall i, j :: 0 <= i < j < |layers| ==> layers[i].selfAttn != layers[j].selfAttn)
      && (forall i :: 0 <= i < |layers| ==> layers[i].selfAttn in attns)
    }

    ghost function Caches(): (cs: seq<Cache>)
      requires Valid()
      reads attns
      ensures |cs| == |layers|
      ensures forall i :: 0 <= i < |layers| ==> cs[i] == layers[i].selfAttn.kvCache
    {
      seq(|layers|, i requires 0 <= i < |layers| && layers[i].selfAttn in attns reads attns =>
        layers[i].selfAttn.kvCache)
    }

    /** One layer of the loop; the caches of the other layers stay. */
    method RunLayer(i: nat, b: nat, rows: seq<Row>, mask: Option<Mask>, offset: nat)
      returns (r: Result<seq<Row>, Error>)
      requires Valid() && i < |layers|
      modifies attns
      ensures var (h, c) := LayerStep(fns.layers[i], old(Caches())[i], b, rows, mask, offset);
        r == h && Caches() == old(Caches())[i := c]
    {
      r := layers[i].Forward(b, rows, mask, offset);
    }

    /** What the loop from layer i on will make of these rows, starting from the caches as they are. */
    ghost predicate LoopGives(i: nat, b: nat, rows: seq<Row>, mask: Option<Mask>, offset: nat,
                              whole: (Result<seq<Row>, Error>, seq<Cache>))
      requires Valid() && i <= |layers|
      reads attns
    {
      LoopFrom(fns.layers, Caches(), i, b, rows, mask, offset) == whole
    }

    /** One round of the layer loop. */
    method LoopRound(i: nat, b: nat, rows: seq<Row>, mask: Option<Mask>, offset: nat,
                     ghost whole: (Result<seq<Row>, Error>, seq<Cache>))
      returns (r: Result<seq<Row>, Error>)
      requires Valid() && i < |layers| && LoopGives(i, b, rows, mask, offset, whole)
      modifies attns
      ensures r.Ok? ==> LoopGives(i + 1, b, r.value, mask, offset, whole)
      ensures r.Err? ==> whole == (r, Caches())
    {
      LoopUnfolds(fns.layers, Caches(), i, b, rows, mask, offset);
      r := RunLayer(i, b, rows, mask, offset);
    }

    /** The layer loop of `Forward`. */
    method RunLayers(b: nat, xs: seq<Row>, mask: Option<Mask>, offset: nat) returns (r: Result<seq<Row>, Error>)
      requires Valid()
      modifies attns
      ensures (r, Caches()) == StackStep(fns.layers, old(Caches()), b, xs, mask, offset)
    {
      var rows := xs;
      ghost var whole := StackStep(fns.layers, Caches(), b, xs, mask, offset);
      WholeLoopIsStack(fns.layers, Caches(), b, xs, mask, offset);
      for i := 0 to |layers|
        invariant LoopGives(i, b, rows, mask, offset, whole)
      {
        var step := LoopRound(i, b, rows, mask, offset, whole);
        if step.Err? {
          return step;
        }
        rows := step.value;
      }
      r := Ok(rows);
    }

    method Forward(input: Tensor, offset: nat) returns (r: Result<Tensor, Error>)
      requires Valid() && input.rows != []
      modifies attns
      ensures (r, Caches()) == ModelStep(fns, old(Caches()), input, offset)
      ensures r.Ok? ==> Qwen3Meaning.IsCall(fns, old(Caches()), input, offset, r.value, Caches())
    {
      ModelMeans(fns, Caches(), input, offset);
      var h := if embed.Some? then Tensor(input.batch, Map(embed.value, input.rows)) else input;
      var l := |h.rows|;
      var mask := None;
      if l != 1 {
        var causal := CausalMask(h.batch, l, offset, None);
        if causal.Err? {
          assert Caches() == old(Caches());
          return Err(causal.error);
        }
        mask := Some(causal.value);
      }
      var step := RunLayers(h.batch, h.rows, mask, offset);
      if step.Err? {
        return Err(step.error);
      }
      var rows := step.value;
      if norm.Some? && lmHead.Some? {
        r := Ok(Tensor(h.batch, [lmHead.value(norm.value(rows[|rows| - 1]))]));
      } else {
        r := Ok(Tensor(h.batch, rows));
      }
    }

    method ClearKvCache()
      requires Valid()
      modifies attns
      ensures Caches() == EmptyCaches(|layers|)
    {
      for i := 0 to |layers|
        invariant forall j :: 0 <= j < i ==> layers[j].selfAttn.kvCache == Empty
      {
        layers[i].selfAttn.ClearKvCache();
      }
    }

    /**
      One inference step by a caller that passes offset = tokens so far: the result is what a model
      without caches computes, and the caches become those of `past + xs`. A batch other than the one
      the caches hold is refused.
    */
    method Inference(ghost lanes: nat, ghost past: seq<Row>, batch: nat, xs: seq<Row>, offset: nat)
        returns (r: Result<Tensor, Error>)
      requires Valid() && xs != [] && offset == |past|
      requires Caches() == StackKVs(fns.layers, lanes, Embed(fns, past))
      modifies attns
      ensures r.Ok? <==> CanForward(fns, batch, |xs|, |past| + |xs|) && FitsCaches(fns, lanes, past, batch)
      ensures r.Ok? ==> r.value == RefOutput(fns, batch, past, xs)
      ensures r.Ok? ==> Caches() == StackKVs(fns.layers, batch, Embed(fns, past + xs))
      ensures !FitsCaches(fns, lanes, past, batch) ==> Caches() == old(Caches())
    {
      ForwardAgrees(fns, lanes, batch, past, xs);
      r := Forward(Tensor(batch, xs), offset);
    }
  }
}
