/**
  Whole runs of the Qwen3 forward pass: a run fed in chunks against one call over the whole
  sequence, and a pipeline of partial models against the complete model.
*/
module Qwen3Runs {
  import opened Common
  import opened Qwen3

  function Embed(m: ModelFns, tokens: seq<Row>): (h: seq<Row>)
    ensures |h| == |tokens|
  {
    Embedded(m, Tensor(1, tokens)).rows
  }

  lemma EmbedAppend(m: ModelFns, a: seq<Row>, b: seq<Row>)
    ensures Embed(m, a + b) == Embed(m, a) + Embed(m, b)
  {
  }

  /** `Forward` accepts a call: one batch lane or one new token, and room in the RoPE tables. */
  ghost predicate CanForward(m: ModelFns, batch: nat, n: nat, total: nat) {
    (batch == 1 || n == 1) && WithinContext(m.layers, total)
  }

  /** What `Forward` returns for `xs` after `past`, computed from scratch. */
  function RefOutput(m: ModelFns, batch: nat, past: seq<Row>, xs: seq<Row>): Tensor
    requires xs != []
  {
    Head(m, batch, StackRef(m.layers, Embed(m, past + xs))[|past|..])
  }

  lemma MaskForIsCausal(batch: nat, l: nat, past: nat)
    requires l > 0
    ensures MaskFor(batch, l, past).Ok? <==> batch == 1 || l == 1
    ensures MaskFor(batch, l, past).Ok? ==> IsCausal(MaskFor(batch, l, past).value, past, l)
  {
    if l > 1 && batch == 1 {
      var mask := CausalMask(batch, l, past, None).value;
      forall i | 0 <= i < l ensures OpensPrefix(mask[i], past + i + 1) {
        assert mask[i] == MaskRow(l, past, None, i);
      }
    }
  }

  /** The caches of `lanes` batch lanes after `past` take a call of this batch. */
  ghost predicate FitsCaches(m: ModelFns, lanes: nat, past: seq<Row>, batch: nat) {
    batch == lanes || past == [] || m.layers == []
  }

  lemma {:induction false} EmptyFitAll(ws: seq<LayerFns>, a: nat, b: nat)
    ensures StackKVs(ws, a, []) == StackKVs(ws, b, [])
  {
    if ws != [] {
      assert LayerRef(ws[0], []) == [];
      EmptyFitAll(ws[1..], a, b);
    }
  }

  /**
    One call of `Forward` with offset = tokens so far agrees with evaluation from scratch. A call that
    does not fit the caches fails, and leaves them as they were.
  */
  lemma ForwardAgrees(m: ModelFns, lanes: nat, batch: nat, past: seq<Row>, xs: seq<Row>)
    requires xs != []
    ensures var before := StackKVs(m.layers, lanes, Embed(m, past));
      var (r, caches) := ModelStep(m, before, Tensor(batch, xs), |past|);
      && (r.Ok? <==> CanForward(m, batch, |xs|, |past| + |xs|) && FitsCaches(m, lanes, past, batch))
      && (r.Ok? ==> r.value == RefOutput(m, batch, past, xs))
      && (r.Ok? ==> caches == StackKVs(m.layers, batch, Embed(m, past + xs)))
      && (!FitsCaches(m, lanes, past, batch) ==> caches == before)
  {
    EmbedAppend(m, past, xs);
    MaskForIsCausal(batch, |xs|, |past|);
    var mask := MaskFor(batch, |xs|, |past|);
    if mask.Ok? {
      var before := StackKVs(m.layers, lanes, Embed(m, past));
      if !FitsCaches(m, lanes, past, batch) {
        OtherBatchFails(m.layers, lanes, Embed(m, past), batch, Embed(m, xs), mask.value, |past|);
      } else if WithinContext(m.layers, |past| + |xs|) {
        if past == [] {
          assert Embed(m, past) == [];
          EmptyFitAll(m.layers, lanes, batch);
        }
        StackAgrees(m.layers, batch, Embed(m, past), Embed(m, xs), mask.value);
      } else {
        StackFailsOnAnyRows(m.layers, before, batch, Embed(m, xs), mask.value, |past|);
      }
    }
  }

  // ---------------------------------------------------------------- chunked runs

  ghost predicate NonEmpty(chunks: seq<seq<Row>>) {
    forall i :: 0 <= i < |chunks| ==> chunks[i] != []
  }

  function Concat(chunks: seq<seq<Row>>): seq<Row> {
    if chunks == [] then [] else chunks[0] + Concat(chunks[1..])
  }

  /** Feeds the chunks one by one, each with offset = tokens so far; stops at the first error. */
  function RunChunks(m: ModelFns, caches: seq<Cache>, batch: nat, chunks: seq<seq<Row>>, offset: nat)
    : Result<(seq<Tensor>, seq<Cache>), Error>
    requires |caches| == |m.layers|
    requires NonEmpty(chunks)
    decreases |chunks|
  {
    if chunks == [] then Ok(([], caches))
    else
      var (r, caches') := ModelStep(m, caches, Tensor(batch, chunks[0]), offset);
      if r.Err? then Err(r.error)
      else
        var rest := RunChunks(m, caches', batch, chunks[1..], offset + |chunks[0]|);
        if rest.Err? then Err(rest.error) else Ok(([r.value] + rest.value.0, rest.value.1))
  }

  function RefOutputs(m: ModelFns, batch: nat, past: seq<Row>, chunks: seq<seq<Row>>): (out: seq<Tensor>)
    requires NonEmpty(chunks)
    ensures |out| == |chunks|
    decreases |chunks|
  {
    if chunks == [] then []
    else [RefOutput(m, batch, past, chunks[0])] + RefOutputs(m, batch, past + chunks[0], chunks[1..])
  }

  ghost predicate CanRun(m: ModelFns, batch: nat, chunks: seq<seq<Row>>, total: nat) {
    && (chunks != [] ==> WithinContext(m.layers, total))
    && (batch == 1 || forall i :: 0 <= i < |chunks| ==> |chunks[i]| == 1)
  }

  lemma ConcatHead(past: seq<Row>, chunks: seq<seq<Row>>)
    requires chunks != []
    ensures past + Concat(chunks) == past + chunks[0] + Concat(chunks[1..])
    ensures |chunks| == 1 ==> past + Concat(chunks) == past + chunks[0]
  {
  }

  /** The first chunk decides with the rest whether the run goes through. */
  lemma CanRunHead(m: ModelFns, batch: nat, chunks: seq<seq<Row>>, n: nat)
    requires chunks != []
    ensures var total := n + |Concat(chunks)|;
      CanRun(m, batch, chunks, total) <==>
        CanForward(m, batch, |chunks[0]|, n + |chunks[0]|) && CanRun(m, batch, chunks[1..], total)
  {
    if |chunks| == 1 {
      assert Concat(chunks[1..]) == [];
    }
    assert forall i :: 1 <= i < |chunks| ==> chunks[i] == chunks[1..][i - 1];
    assert forall i :: 0 <= i < |chunks| - 1 ==> chunks[1..][i] == chunks[i + 1];
  }

  /** A run goes through exactly when it can, with the outputs and caches of evaluation from scratch. */
  ghost predicate IsExact(m: ModelFns, batch: nat, past: seq<Row>, chunks: seq<seq<Row>>,
                          run: Result<(seq<Tensor>, seq<Cache>), Error>)
    requires NonEmpty(chunks)
  {
    && (run.Ok? <==> CanRun(m, batch, chunks, |past| + |Concat(chunks)|))
    && (run.Ok? ==>
          run.value == (RefOutputs(m, batch, past, chunks), StackKVs(m.layers, batch, Embed(m, past + Concat(chunks)))))
  }

  function AfterFirst(r: Result<Tensor, Error>, rest: Result<(seq<Tensor>, seq<Cache>), Error>)
    : Result<(seq<Tensor>, seq<Cache>), Error>
  {
    if r.Err? then Err(r.error)
    else if rest.Err? then Err(rest.error)
    else Ok(([r.value] + rest.value.0, rest.value.1))
  }

  /** An exact first call followed by an exact run of the rest is exact. */
  lemma FirstThenRest(m: ModelFns, batch: nat, past: seq<Row>, chunks: seq<seq<Row>>, r: Result<Tensor, Error>,
                      rest: Result<(seq<Tensor>, seq<Cache>), Error>)
    requires NonEmpty(chunks) && chunks != []
    requires r.Ok? <==> CanForward(m, batch, |chunks[0]|, |past| + |chunks[0]|)
    requires r.Ok? ==> r.value == RefOutput(m, batch, past, chunks[0])
    requires r.Ok? ==> IsExact(m, batch, past + chunks[0], chunks[1..], rest)
    ensures IsExact(m, batch, past, chunks, AfterFirst(r, rest))
  {
    ConcatHead(past, chunks);
    CanRunHead(m, batch, chunks, |past|);
  }

  lemma {:induction false} RunAgrees(m: ModelFns, batch: nat, past: seq<Row>, chunks: seq<seq<Row>>, caches: seq<Cache>)
    requires NonEmpty(chunks) && caches == StackKVs(m.layers, batch, Embed(m, past))
    ensures IsExact(m, batch, past, chunks, RunChunks(m, caches, batch, chunks, |past|))
    decreases |chunks|
  {
    if chunks == [] {
      assert past + [] == past;
    } else {
      var now := past + chunks[0];
      var (r, caches') := ModelStep(m, caches, Tensor(batch, chunks[0]), |past|);
      ForwardAgrees(m, batch, batch, past, chunks[0]);
      if r.Ok? {
        RunAgrees(m, batch, now, chunks[1..], caches');
      }
      FirstThenRest(m, batch, past, chunks, r, RunChunks(m, caches', batch, chunks[1..], |now|));
      RunUnfolds(m, caches, batch, chunks, |past|);
    }
  }

  lemma RunUnfolds(m: ModelFns, caches: seq<Cache>, batch: nat, chunks: seq<seq<Row>>, offset: nat)
    requires |caches| == |m.layers| && NonEmpty(chunks) && chunks != []
    ensures var (r, caches') := ModelStep(m, caches, Tensor(batch, chunks[0]), offset);
      RunChunks(m, caches, batch, chunks, offset)
      == AfterFirst(r, RunChunks(m, caches', batch, chunks[1..], offset + |chunks[0]|))
  {
  }

  /** What the stack computed for a prefix is a prefix of what it computes for more tokens. */
  lemma {:induction false} StackRefPrefix(ws: seq<LayerFns>, past: seq<Row>, xs: seq<Row>)
    ensures StackRef(ws, past + xs)[..|past|] == StackRef(ws, past)
  {
    if ws == [] {
      assert (past + xs)[..|past|] == past;
    } else {
      LayerRefPrefix(ws[0], past, xs);
      var ys := LayerRef(ws[0], past + xs);
      assert ys == LayerRef(ws[0], past) + ys[|past|..];
      StackRefPrefix(ws[1..], LayerRef(ws[0], past), ys[|past|..]);
    }
  }

  /** The output `Forward` gives for positions from..to of a whole evaluation. */
  function SliceOutput(m: ModelFns, batch: nat, whole: seq<Row>, from: nat, n: nat): Tensor
    requires from + n <= |whole| && n > 0
  {
    Head(m, batch, whole[from..from + n])
  }

  function Start(chunks: seq<seq<Row>>, i: nat): nat
    requires i <= |chunks|
  {
    if i == 0 then 0 else |chunks[0]| + Start(chunks[1..], i - 1)
  }

  lemma {:induction false} StartBounds(chunks: seq<seq<Row>>, i: nat)
    requires i < |chunks|
    ensures Start(chunks, i) + |chunks[i]| <= |Concat(chunks)|
  {
    if i > 0 {
      StartBounds(chunks[1..], i - 1);
    }
  }

  lemma FirstOutputIsSlice(m: ModelFns, batch: nat, past: seq<Row>, xs: seq<Row>, later: seq<Row>)
    requires xs != []
    ensures RefOutput(m, batch, past, xs)
         == SliceOutput(m, batch, StackRef(m.layers, Embed(m, past + xs + later)), |past|, |xs|)
  {
    var a := past + xs;
    EmbedAppend(m, a, later);
    StackRefPrefix(m.layers, Embed(m, a), Embed(m, later));
    var whole := StackRef(m.layers, Embed(m, a + later));
    assert whole[|past|..|a|] == whole[..|a|][|past|..];
  }

  /** The output of each chunk is its slice of the evaluation of the whole sequence. */
  lemma {:induction false} OutputsAreSlices(m: ModelFns, batch: nat, past: seq<Row>, chunks: seq<seq<Row>>, i: nat)
    requires NonEmpty(chunks)
    requires i < |chunks|
    ensures Start(chunks, i) + |chunks[i]| <= |Concat(chunks)|
    ensures RefOutputs(m, batch, past, chunks)[i] ==
      SliceOutput(m, batch, StackRef(m.layers, Embed(m, past + Concat(chunks))), |past| + Start(chunks, i), |chunks[i]|)
    decreases |chunks|
  {
    StartBounds(chunks, i);
    ConcatHead(past, chunks);
    if i == 0 {
      FirstOutputIsSlice(m, batch, past, chunks[0], Concat(chunks[1..]));
    } else {
      var now := past + chunks[0];
      OutputsAreSlices(m, batch, now, chunks[1..], i - 1);
      assert |now| + Start(chunks[1..], i - 1) == |past| + Start(chunks, i);
    }
  }

  function EmptyCaches(n: nat): (cs: seq<Cache>)
    ensures |cs| == n && forall i :: 0 <= i < n ==> cs[i] == Empty
  {
    seq(n, _ => Empty)
  }

  lemma {:induction false} NoTokensNoKVs(ws: seq<LayerFns>, b: nat)
    ensures StackKVs(ws, b, []) == EmptyCaches(|ws|)
  {
    if ws != [] {
      assert LayerRef(ws[0], []) == [];
      NoTokensNoKVs(ws[1..], b);
      assert EmptyCaches(|ws|) == [Empty] + EmptyCaches(|ws[1..]|);
    }
  }

  /**
    A cache agrees with recomputation: however the tokens are cut into chunks, the run succeeds
    exactly when the shapes allow it, every chunk yields its slice of the evaluation from
    scratch, and the caches are those of the whole sequence.
  */
  lemma CachedRunIsExact(m: ModelFns, batch: nat, chunks: seq<seq<Row>>)
    requires NonEmpty(chunks)
    ensures var run := RunChunks(m, EmptyCaches(|m.layers|), batch, chunks, 0);
      var whole := StackRef(m.layers, Embed(m, Concat(chunks)));
      && (run.Ok? <==> CanRun(m, batch, chunks, |Concat(chunks)|))
      && (run.Ok? ==>
            && run.value.1 == StackKVs(m.layers, batch, Embed(m, Concat(chunks)))
            && |run.value.0| == |chunks|
            && forall i :: 0 <= i < |chunks| ==>
                 && Start(chunks, i) + |chunks[i]| <= |whole|
                 && run.value.0[i] == SliceOutput(m, batch, whole, Start(chunks, i), |chunks[i]|))
  {
    FreshRun(m, batch, chunks);
    FreshOutputs(m, batch, chunks);
  }

  /** A run from empty caches is a run after no tokens. */
  lemma FreshRun(m: ModelFns, batch: nat, chunks: seq<seq<Row>>)
    requires NonEmpty(chunks)
    ensures var run := RunChunks(m, EmptyCaches(|m.layers|), batch, chunks, 0);
      && (run.Ok? <==> CanRun(m, batch, chunks, |Concat(chunks)|))
      && (run.Ok? ==>
            run.value == (RefOutputs(m, batch, [], chunks), StackKVs(m.layers, batch, Embed(m, Concat(chunks)))))
  {
    NoTokensNoKVs(m.layers, batch);
    assert Embed(m, []) == [];
    assert [] + Concat(chunks) == Concat(chunks);
    RunAgrees(m, batch, [], chunks, EmptyCaches(|m.layers|));
  }

  lemma FreshOutputs(m: ModelFns, batch: nat, chunks: seq<seq<Row>>)
    requires NonEmpty(chunks)
    ensures var whole := StackRef(m.layers, Embed(m, Concat(chunks)));
      forall i :: 0 <= i < |chunks| ==>
        && Start(chunks, i) + |chunks[i]| <= |whole|
        && RefOutputs(m, batch, [], chunks)[i] == SliceOutput(m, batch, whole, Start(chunks, i), |chunks[i]|)
  {
    forall i | 0 <= i < |chunks|
      ensures Start(chunks, i) + |chunks[i]| <= |Concat(chunks)|
      ensures RefOutputs(m, batch, [], chunks)[i] ==
        SliceOutput(m, batch, StackRef(m.layers, Embed(m, Concat(chunks))), Start(chunks, i), |chunks[i]|)
    {
      FreshOutput(m, batch, chunks, i);
    }
  }

  lemma FreshOutput(m: ModelFns, batch: nat, chunks: seq<seq<Row>>, i: nat)
    requires NonEmpty(chunks) && i < |chunks|
    ensures Start(chunks, i) + |chunks[i]| <= |Concat(chunks)|
    ensures RefOutputs(m, batch, [], chunks)[i] ==
      SliceOutput(m, batch, StackRef(m.layers, Embed(m, Concat(chunks))), Start(chunks, i), |chunks[i]|)
  {
    OutputsAreSlices(m, batch, [], chunks, i);
    assert [] + Concat(chunks) == Concat(chunks);
  }

  function AllRows(outputs: seq<Tensor>): seq<Row> {
    if outputs == [] then [] else outputs[0].rows + AllRows(outputs[1..])
  }

  lemma SliceSplit(s: seq<Row>, i: nat, j: nat)
    requires i <= j <= |s|
    ensures s[i..j] + s[j..] == s[i..]
  {
  }

  lemma {:induction false} SlicesConcatenate(m: ModelFns, batch: nat, past: seq<Row>, chunks: seq<seq<Row>>)
    requires NonEmpty(chunks)
    requires m.norm.None? || m.lmHead.None?
    ensures AllRows(RefOutputs(m, batch, past, chunks))
         == StackRef(m.layers, Embed(m, past + Concat(chunks)))[|past|..]
    decreases |chunks|
  {
    if chunks == [] {
      assert past + [] == past;
    } else {
      var a := past + chunks[0];
      SlicesConcatenate(m, batch, a, chunks[1..]);
      assert a + Concat(chunks[1..]) == past + Concat(chunks);
      FirstOutputIsSlice(m, batch, past, chunks[0], Concat(chunks[1..]));
      var whole := StackRef(m.layers, Embed(m, past + Concat(chunks)));
      SliceSplit(whole, |past|, |a|);
    }
  }

  lemma SingleShotExact(m: ModelFns, all: seq<Row>)
    requires all != [] && WithinContext(m.layers, |all|)
    ensures ModelStep(m, EmptyCaches(|m.layers|), Tensor(1, all), 0)
         == (Ok(Head(m, 1, StackRef(m.layers, Embed(m, all)))), StackKVs(m.layers, 1, Embed(m, all)))
  {
    NoTokensNoKVs(m.layers, 1);
    assert Embed(m, []) == [];
    ForwardAgrees(m, 1, 1, [], all);
    assert [] + all == all;
    var whole := StackRef(m.layers, Embed(m, all));
    assert whole[0..] == whole;
  }

  lemma HeadlessRows(m: ModelFns, chunks: seq<seq<Row>>)
    requires NonEmpty(chunks)
    requires m.norm.None? || m.lmHead.None?
    ensures var run := RunChunks(m, EmptyCaches(|m.layers|), 1, chunks, 0);
      run.Ok? ==> AllRows(run.value.0) == StackRef(m.layers, Embed(m, Concat(chunks)))
  {
    FreshRun(m, 1, chunks);
    SlicesConcatenate(m, 1, [], chunks);
    assert [] + Concat(chunks) == Concat(chunks);
  }

  lemma LastLogits(m: ModelFns, whole: seq<Row>, from: nat)
    requires from < |whole|
    requires m.norm.Some? && m.lmHead.Some?
    ensures SliceOutput(m, 1, whole, from, |whole| - from) == Head(m, 1, whole)
  {
  }

  lemma SomeToken(chunks: seq<seq<Row>>)
    requires chunks != [] && NonEmpty(chunks)
    ensures Concat(chunks) != []
  {
    assert chunks[0] != [];
  }

  /**
    Against one call of the code over the whole sequence: both succeed, the final caches are
    equal, and a model without output head yields the same rows.
  */
  lemma ChunkedEqualsSingleShot(m: ModelFns, chunks: seq<seq<Row>>)
    requires chunks != [] && NonEmpty(chunks)
    requires WithinContext(m.layers, |Concat(chunks)|)
    ensures Concat(chunks) != []
    ensures var run := RunChunks(m, EmptyCaches(|m.layers|), 1, chunks, 0);
      var (r, caches) := ModelStep(m, EmptyCaches(|m.layers|), Tensor(1, Concat(chunks)), 0);
      && run.Ok? && r.Ok?
      && run.value.1 == caches
      && (m.norm.None? || m.lmHead.None? ==> AllRows(run.value.0) == r.value.rows)
  {
    SomeToken(chunks);
    assert CanRun(m, 1, chunks, |Concat(chunks)|);
    CachedRunIsExact(m, 1, chunks);
    SingleShotExact(m, Concat(chunks));
    if m.norm.None? || m.lmHead.None? {
      HeadlessRows(m, chunks);
    }
  }

  /** A model with output head ends a chunked run on the logits of the single call. */
  lemma ChunkedLogitsEqual(m: ModelFns, chunks: seq<seq<Row>>)
    requires chunks != [] && NonEmpty(chunks)
    requires WithinContext(m.layers, |Concat(chunks)|)
    requires m.norm.Some? && m.lmHead.Some?
    ensures Concat(chunks) != []
    ensures var run := RunChunks(m, EmptyCaches(|m.layers|), 1, chunks, 0);
      && run.Ok? && |run.value.0| == |chunks|
      && ModelStep(m, EmptyCaches(|m.layers|), Tensor(1, Concat(chunks)), 0).0 == Ok(run.value.0[|chunks| - 1])
  {
    SomeToken(chunks);
    assert CanRun(m, 1, chunks, |Concat(chunks)|);
    CachedRunIsExact(m, 1, chunks);
    SingleShotExact(m, Concat(chunks));
    LastEndsAtTotal(chunks);
    LastLogits(m, StackRef(m.layers, Embed(m, Concat(chunks))), Start(chunks, |chunks| - 1));
  }

  lemma {:induction false} LastEndsAtTotal(chunks: seq<seq<Row>>)
    requires chunks != []
    ensures Start(chunks, |chunks| - 1) + |chunks[|chunks| - 1]| == |Concat(chunks)|
  {
    if |chunks| > 1 {
      LastEndsAtTotal(chunks[1..]);
    }
  }

  /** A prefill with several batch lanes fails: the causal mask is built for one lane only. */
  lemma BatchedPrefillFails(m: ModelFns, caches: seq<Cache>, input: Tensor, offset: nat)
    requires |caches| == |m.layers| && |input.rows| > 1 && input.batch != 1
    ensures ModelStep(m, caches, input, offset) == (Err(ShapeMismatch), caches)
  {
  }

  /** So does any call of another batch than the caches hold. */
  lemma BatchChangeFails(m: ModelFns, lanes: nat, past: seq<Row>, input: Tensor, offset: nat)
    requires past != [] && m.layers != [] && input.rows != [] && input.batch != lanes
    ensures var caches := StackKVs(m.layers, lanes, Embed(m, past));
      var (r, after) := ModelStep(m, caches, input, offset);
      r.Err? && after == caches
  {
    var h := Embedded(m, input);
    var mask := MaskFor(h.batch, |h.rows|, offset);
    if mask.Ok? {
      OtherBatchFails(m.layers, lanes, Embed(m, past), h.batch, h.rows, mask.value, offset);
    }
  }

  // ---------------------------------------------------------------- pipelines of partial models

  /** The blocks among layers a..=b: layer i is block i-1. */
  function Blocks(layers: seq<LayerFns>, a: nat, b: nat): seq<LayerFns> {
    var blockStart := if a > 1 then a else 1;
    var blockEnd := if b < |layers| then b else |layers|;
    if blockStart <= blockEnd then layers[blockStart - 1..blockEnd] else []
  }

  /** `GGUF_Load_Model` over layers a..=b, numbered 0 = embedding, 1..N = blocks, N+1 = output. */
  function Part(m: ModelFns, a: nat, b: nat): ModelFns {
    var output := b == |m.layers| + 1;
    ModelFns(if a == 0 then m.embed else None,
             Blocks(m.layers, a, b),
             if output then m.norm else None,
             if output then m.lmHead else None)
  }

  function Join(m1: ModelFns, m2: ModelFns): ModelFns {
    ModelFns(m1.embed, m1.layers + m2.layers, m2.norm, m2.lmHead)
  }

  lemma {:induction false} StackSplits(ws1: seq<LayerFns>, ws2: seq<LayerFns>, c1: seq<Cache>, c2: seq<Cache>,
                                       b: nat, xs: seq<Row>, mask: Option<Mask>, offset: nat)
    requires |c1| == |ws1| && |c2| == |ws2|
    ensures StackStep(ws1 + ws2, c1 + c2, b, xs, mask, offset) ==
      var (r1, c1') := StackStep(ws1, c1, b, xs, mask, offset);
      if r1.Err? then (r1, c1' + c2)
      else
        var (r2, c2') := StackStep(ws2, c2, b, r1.value, mask, offset);
        (r2, c1' + c2')
  {
    if ws1 == [] {
      assert ws1 + ws2 == ws2 && c1 + c2 == c2;
      var (r2, c2') := StackStep(ws2, c2, b, xs, mask, offset);
      assert [] + c2' == c2';
    } else {
      assert (ws1 + ws2)[1..] == ws1[1..] + ws2 && (c1 + c2)[1..] == c1[1..] + c2;
      var (h, cache') := LayerStep(ws1[0], c1[0], b, xs, mask, offset);
      if h.Ok? {
        StackSplits(ws1[1..], ws2, c1[1..], c2, b, h.value, mask, offset);
        var (r1, rest) := StackStep(ws1[1..], c1[1..], b, h.value, mask, offset);
        var c2' := if r1.Err? then c2 else StackStep(ws2, c2, b, r1.value, mask, offset).1;
        assert [cache'] + (rest + c2') == ([cache'] + rest) + c2';
      } else {
        assert [cache'] + (c1[1..] + c2) == ([cache'] + c1[1..]) + c2;
      }
    }
  }

  lemma JoinedStep(m1: ModelFns, m2: ModelFns, c1: seq<Cache>, c2: seq<Cache>, input: Tensor, offset: nat)
    requires |c1| == |m1.layers| && |c2| == |m2.layers| && input.rows != []
    requires m1.norm.None? && m2.embed.None?
    ensures ModelStep(Join(m1, m2), c1 + c2, input, offset) ==
      var (r1, c1') := ModelStep(m1, c1, input, offset);
      if r1.Err? then (r1, c1' + c2)
      else
        var (r2, c2') := ModelStep(m2, c2, r1.value, offset);
        (r2, c1' + c2')
  {
    var h := Embedded(m1, input);
    var mask := MaskFor(h.batch, |h.rows|, offset);
    if mask.Ok? {
      StackSplits(m1.layers, m2.layers, c1, c2, h.batch, h.rows, mask.value, offset);
    }
  }

  ghost predicate Shaped(parts: seq<ModelFns>, cs: seq<seq<Cache>>) {
    |cs| == |parts| && forall i :: 0 <= i < |parts| ==> |cs[i]| == |parts[i].layers|
  }

  /** Node after node: each feeds its output to the next, an error stops the chain. */
  ghost function Chain(parts: seq<ModelFns>, cs: seq<seq<Cache>>, input: Tensor, offset: nat)
    : (r: (Result<Tensor, Error>, seq<seq<Cache>>))
    requires Shaped(parts, cs) && input.rows != []
    ensures Shaped(parts, r.1)
  {
    if parts == [] then (Ok(input), [])
    else
      var (r, c) := ModelStep(parts[0], cs[0], input, offset);
      if r.Err? then (r, [c] + cs[1..])
      else
        var (r', rest) := Chain(parts[1..], cs[1..], r.value, offset);
        (r', [c] + rest)
  }

  function Flatten(cs: seq<seq<Cache>>): seq<Cache> {
    if cs == [] then [] else cs[0] + Flatten(cs[1..])
  }

  /** Strictly increasing cut points ending at N+2. */
  ghost predicate IsCut(m: ModelFns, cuts: seq<nat>) {
    && |cuts| >= 2
    && cuts[|cuts| - 1] == |m.layers| + 2
    && forall i, j :: 0 <= i < j < |cuts| ==> cuts[i] < cuts[j]
  }

  /** Node i holds layers cuts[i]..=cuts[i+1]-1. */
  ghost function Parts(m: ModelFns, cuts: seq<nat>): (parts: seq<ModelFns>)
    requires IsCut(m, cuts)
    ensures |parts| == |cuts| - 1
    ensures forall i {:trigger parts[i]} :: 0 <= i < |parts| ==>
      cuts[i] < cuts[i + 1] && parts[i] == Part(m, cuts[i], cuts[i + 1] - 1)
  {
    seq(|cuts| - 1, i requires 0 <= i < |cuts| - 1 => Part(m, cuts[i], cuts[i + 1] - 1))
  }

  /** The model the nodes of a chain hold together. */
  ghost function JoinAll(parts: seq<ModelFns>): ModelFns
    requires parts != []
  {
    if |parts| == 1 then parts[0] else Join(parts[0], JoinAll(parts[1..]))
  }

  /** Only the first node embeds and only the last one has an output head. */
  ghost predicate Linked(parts: seq<ModelFns>) {
    && parts != []
    && (forall i :: 0 < i < |parts| ==> parts[i].embed.None?)
    && forall i :: 0 <= i < |parts| - 1 ==> parts[i].norm.None?
  }

  lemma {:induction false} LinkedTail(parts: seq<ModelFns>)
    requires Linked(parts) && |parts| > 1
    ensures Linked(parts[1..])
    ensures JoinAll(parts[1..]).embed.None?
  {
    if |parts| > 2 {
      assert parts[1..][1..] == parts[2..];
    }
  }

  lemma {:induction false} JoinedCaches(parts: seq<ModelFns>, cs: seq<seq<Cache>>)
    requires parts != [] && Shaped(parts, cs)
    ensures |Flatten(cs)| == |JoinAll(parts).layers|
  {
    if |parts| == 1 {
      assert Flatten(cs[1..]) == [];
    } else {
      JoinedCaches(parts[1..], cs[1..]);
    }
  }

  /** One call of the chain is one call of the joined model, errors and caches included. */
  lemma {:induction false} ChainIsJoin(parts: seq<ModelFns>, cs: seq<seq<Cache>>, input: Tensor, offset: nat)
    requires Linked(parts) && Shaped(parts, cs) && input.rows != []
    ensures |Flatten(cs)| == |JoinAll(parts).layers|
    ensures ModelStep(JoinAll(parts), Flatten(cs), input, offset)
         == (Chain(parts, cs, input, offset).0, Flatten(Chain(parts, cs, input, offset).1))
    decreases |parts|
  {
    JoinedCaches(parts, cs);
    var (r, c) := ModelStep(parts[0], cs[0], input, offset);
    if |parts| == 1 {
      assert cs == [cs[0]] && parts[1..] == [] && cs[1..] == [];
      assert Flatten(cs) == cs[0] + [] == cs[0];
      assert Flatten([c]) == c + [] == c;
      assert Chain(parts, cs, input, offset).1 == [c];
    } else {
      LinkedTail(parts);
      JoinedCaches(parts[1..], cs[1..]);
      JoinedStep(parts[0], JoinAll(parts[1..]), cs[0], Flatten(cs[1..]), input, offset);
      if r.Ok? {
        ChainIsJoin(parts[1..], cs[1..], r.value, offset);
        var rest := Chain(parts[1..], cs[1..], r.value, offset).1;
        assert ([c] + rest)[1..] == rest;
      } else {
        assert ([c] + cs[1..])[1..] == cs[1..];
      }
    }
  }

  lemma PartsJoin(m: ModelFns, a: nat, c: nat)
    requires a < c <= |m.layers| + 1
    ensures Join(Part(m, a, c - 1), Part(m, c, |m.layers| + 1)) == Part(m, a, |m.layers| + 1)
  {
    var n := |m.layers|;
    var p1, p2, p := Part(m, a, c - 1), Part(m, c, n + 1), Part(m, a, n + 1);
    assert p1.layers + p2.layers == p.layers;
  }

  lemma PartEnds(m: ModelFns, a: nat, b: nat)
    ensures a > 0 ==> Part(m, a, b).embed.None?
    ensures b <= |m.layers| ==> Part(m, a, b).norm.None?
  {
  }

  lemma CutLinks(m: ModelFns, cuts: seq<nat>)
    requires IsCut(m, cuts)
    ensures Linked(Parts(m, cuts))
  {
    var parts := Parts(m, cuts);
    forall i | 0 <= i < |parts|
      ensures i > 0 ==> parts[i].embed.None?
      ensures i < |parts| - 1 ==> parts[i].norm.None?
    {
      assert parts[i] == Part(m, cuts[i], cuts[i + 1] - 1);
      assert i > 0 ==> cuts[0] < cuts[i];
      assert i < |parts| - 1 ==> cuts[i + 1] < cuts[|cuts| - 1];
      PartEnds(m, cuts[i], cuts[i + 1] - 1);
    }
  }

  lemma TailCut(m: ModelFns, cuts: seq<nat>)
    requires IsCut(m, cuts) && |cuts| > 2
    ensures IsCut(m, cuts[1..])
    ensures Parts(m, cuts)[1..] == Parts(m, cuts[1..])
  {
    var rest := cuts[1..];
    assert forall i :: 0 <= i < |rest| ==> rest[i] == cuts[i + 1];
    var tail := Parts(m, rest);
    forall i | 0 <= i < |tail|
      ensures tail[i] == Parts(m, cuts)[1..][i]
    {
      assert Parts(m, cuts)[i + 1] == Part(m, cuts[i + 1], cuts[i + 2] - 1);
    }
  }

  /** The partial models of a cut hold together exactly the layers that were cut. */
  lemma {:induction false} CutCovers(m: ModelFns, cuts: seq<nat>)
    requires IsCut(m, cuts)
    ensures JoinAll(Parts(m, cuts)) == Part(m, cuts[0], |m.layers| + 1)
  {
    if |cuts| > 2 {
      TailCut(m, cuts);
      CutCovers(m, cuts[1..]);
      assert cuts[1] < cuts[|cuts| - 1];
      PartsJoin(m, cuts[0], cuts[1]);
    }
  }

  lemma WholePart(m: ModelFns)
    ensures Part(m, 0, |m.layers| + 1) == m
  {
    assert m.layers[0..|m.layers|] == m.layers;
  }

  ghost function RunModel(m: ModelFns, caches: seq<Cache>, calls: seq<(Tensor, nat)>)
    : (seq<Result<Tensor, Error>>, seq<Cache>)
    requires |caches| == |m.layers|
    requires forall i :: 0 <= i < |calls| ==> calls[i].0.rows != []
    decreases |calls|
  {
    if calls == [] then ([], caches)
    else
      var (r, caches') := ModelStep(m, caches, calls[0].0, calls[0].1);
      var (rs, final) := RunModel(m, caches', calls[1..]);
      ([r] + rs, final)
  }

  ghost function RunPipeline(parts: seq<ModelFns>, cs: seq<seq<Cache>>, calls: seq<(Tensor, nat)>)
    : (r: (seq<Result<Tensor, Error>>, seq<seq<Cache>>))
    requires Shaped(parts, cs)
    requires forall i :: 0 <= i < |calls| ==> calls[i].0.rows != []
    ensures Shaped(parts, r.1)
    decreases |calls|
  {
    if calls == [] then ([], cs)
    else
      var (r, cs') := Chain(parts, cs, calls[0].0, calls[0].1);
      var (rs, final) := RunPipeline(parts, cs', calls[1..]);
      ([r] + rs, final)
  }

  /**
    A pipeline equals the monolith: for every cut of layers 0..=N+1 into consecutive ranges and
    every run of calls, failed ones included, results and per-layer caches are those of the
    complete model.
  */
  lemma {:induction false} PipelineEqualsMonolith(m: ModelFns, cuts: seq<nat>, cs: seq<seq<Cache>>,
                                                  calls: seq<(Tensor, nat)>)
    requires IsCut(m, cuts) && cuts[0] == 0 && Shaped(Parts(m, cuts), cs)
    requires forall i :: 0 <= i < |calls| ==> calls[i].0.rows != []
    ensures |Flatten(cs)| == |m.layers|
    ensures var (rs, cs') := RunPipeline(Parts(m, cuts), cs, calls);
      RunModel(m, Flatten(cs), calls) == (rs, Flatten(cs'))
    decreases |calls|
  {
    WholePart(m);
    CutCovers(m, cuts);
    CutLinks(m, cuts);
    JoinedCaches(Parts(m, cuts), cs);
    if calls != [] {
      ChainIsJoin(Parts(m, cuts), cs, calls[0].0, calls[0].1);
      PipelineEqualsMonolith(m, cuts, Chain(Parts(m, cuts), cs, calls[0].0, calls[0].1).1, calls[1..]);
    }
  }
}
