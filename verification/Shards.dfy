/** Loading from the shards of a model file, against loading from the file itself. */
module Shards {
  import opened Common
  import opened Bitmaps
  import opened Decimal
  import opened TensorNames
  import opened ShardLoading
  import opened ShardSplit
  import Qwen3
  import Qwen3Runs

  // ---------------------------------------------------------------- load commutes with split

  /** A layer of the range is whole in the shard. */
  lemma LayerSurvives<T>(c: Content<T>, s: nat, e: nat, k: nat)
    requires Split(c, s, e).Ok? && s <= k <= e
    ensures LoadLayer(Split(c, s, e).value, k) == LoadLayer(c, k)
  {
    var shard := Split(c, s, e).value;
    assert LayerTensors(shard, k) == LayerTensors(c, k);
  }

  /** The embedding is in the last shard of a tied model even when layer 0 is not. */
  lemma TiedEmbedSurvives<T>(c: Content<T>, s: nat)
    requires Split(c, s, c.numLayers + 1).Ok? && Tied(c)
    ensures LoadEmbed(Split(c, s, c.numLayers + 1).value) == LoadEmbed(c)
  {
    var shard := Split(c, s, c.numLayers + 1).value;
    assert LayerTensors(shard, 0) == LayerTensors(c, 0);
  }

  lemma {:induction false} CollectSame<B>(f: nat -> Result<B, LoadError>, g: nat -> Result<B, LoadError>,
                                          lo: nat, hi: nat)
    requires forall k: nat :: lo <= k < hi ==> f(k) == g(k)
    ensures Collect(f, lo, hi) == Collect(g, lo, hi)
    decreases hi
  {
    if lo < hi {
      CollectSame(f, g, lo, hi - 1);
    }
  }

  lemma BlocksSurvive<T>(c: Content<T>, s: nat, e: nat, lo: nat, hi: nat)
    requires Split(c, s, e).Ok? && 1 <= lo && (lo < hi ==> s <= lo && hi <= e + 1)
    ensures LoadBlocks(Split(c, s, e).value, lo, hi) == LoadBlocks(c, lo, hi)
  {
    var shard := Split(c, s, e).value;
    forall k: nat | lo <= k < hi ensures BlockLoader(shard)(k) == BlockLoader(c)(k) {
      LayerSurvives(c, s, e, k);
    }
    CollectSame(BlockLoader(shard), BlockLoader(c), lo, hi);
  }

  lemma EmbedSurvives<T>(c: Content<T>, s: nat, e: nat, a: nat)
    requires Split(c, s, e).Ok? && s <= a <= e
    ensures EmbedPart(Split(c, s, e).value, a) == EmbedPart(c, a)
  {
    if a == 0 {
      LayerSurvives(c, s, e, 0);
    }
  }

  lemma OutputSurvives<T>(c: Content<T>, s: nat, e: nat, b: nat)
    requires Split(c, s, e).Ok? && s <= b <= e
    ensures OutputPart(Split(c, s, e).value, b) == OutputPart(c, b)
  {
    if b == c.numLayers + 1 {
      LayerSurvives(c, s, e, b);
      if Tied(c) {
        TiedEmbedSurvives(c, s);
      } else {
        assert OUTPUT in LayerTensors(c, b);
      }
    }
  }

  /**
    Loading layers a..=b from the shard of s..=e is loading them from the complete file: the same
    embedding, blocks, norm and head, a tied head included, or the same error.
  */
  lemma LoadCommutesWithSplit<T>(c: Content<T>, s: nat, e: nat, a: nat, b: nat)
    requires c.split.None? && Split(c, s, e).Ok? && s <= a <= b <= e
    ensures LoadModel(Split(c, s, e).value, a, b) == LoadModel(c, a, b)
  {
    EmbedSurvives(c, s, e, a);
    BlocksSurvive(c, s, e, Max(a, 1), Min(b, c.numLayers) + 1);
    OutputSurvives(c, s, e, b);
    SameParts(Split(c, s, e).value, c, a, b);
    LoadsAsParts(Split(c, s, e).value, a, b);
    LoadsAsParts(c, a, b);
  }

  lemma LoadsAsParts<T>(c: Content<T>, a: nat, b: nat)
    requires a <= b <= c.numLayers + 1
    requires c.split.Some? ==> c.split.value.start <= a && b <= c.split.value.end
    ensures LoadModel(c, a, b) == LoadParts(c, a, b)
  {
  }

  lemma SameParts<T>(c: Content<T>, d: Content<T>, a: nat, b: nat)
    requires c.numLayers == d.numLayers && EmbedPart(c, a) == EmbedPart(d, a) && OutputPart(c, b) == OutputPart(d, b)
    requires LoadBlocks(c, Max(a, 1), Min(b, c.numLayers) + 1) == LoadBlocks(d, Max(a, 1), Min(b, c.numLayers) + 1)
    ensures LoadParts(c, a, b) == LoadParts(d, a, b)
  {
  }

  /** A range that loads can be split off. */
  lemma LoadableSplits<T>(c: Content<T>, s: nat, e: nat, k: nat)
    requires s <= k <= e <= c.numLayers + 1 && LoadLayer(c, k).Ok?
    ensures Split(c, s, e).Ok?
  {
    var n :| n in LayerTensors(c, k);
    assert n in Kept(c, s, e);
  }

  // ---------------------------------------------------------------- consecutive shards

  /** Cut points 0 = cuts[0] < .. < cuts[last] = N+2; shard i holds layers cuts[i]..=cuts[i+1]-1. */
  ghost predicate IsCut(n: nat, cuts: seq<nat>) {
    && |cuts| >= 2 && cuts[0] == 0 && cuts[|cuts| - 1] == n + 2
    && forall i, j :: 0 <= i < j < |cuts| ==> cuts[i] < cuts[j]
  }

  lemma CutBounds(n: nat, cuts: seq<nat>, i: nat)
    requires IsCut(n, cuts) && i < |cuts| - 1
    ensures cuts[i] < cuts[i + 1] <= n + 2
  {
    assert i + 1 < |cuts| - 1 ==> cuts[i + 1] < cuts[|cuts| - 1];
  }

  ghost predicate KeepsIn<T>(c: Content<T>, cuts: seq<nat>, i: nat, name: Name)
    requires IsCut(c.numLayers, cuts) && i < |cuts| - 1
  {
    Keeps(c, cuts[i], cuts[i + 1] - 1, name)
  }

  /** Shard i keeps the tensor and no other shard does. */
  ghost predicate OnlyIn<T>(c: Content<T>, cuts: seq<nat>, i: nat, name: Name)
    requires IsCut(c.numLayers, cuts)
  {
    forall j :: 0 <= j < |cuts| - 1 ==> (KeepsIn(c, cuts, j, name) <==> j == i)
  }

  lemma {:induction false} HolderExists(cuts: seq<nat>, k: nat)
    requires |cuts| >= 2 && cuts[0] <= k < cuts[|cuts| - 1]
    ensures exists i :: 0 <= i < |cuts| - 1 && cuts[i] <= k < cuts[i + 1]
    decreases |cuts|
  {
    var m := |cuts| - 2;
    if cuts[m] <= k {
      assert cuts[m] <= k < cuts[m + 1];
    } else {
      HolderExists(cuts[..m + 1], k);
      var i :| 0 <= i < m && cuts[..m + 1][i] <= k < cuts[..m + 1][i + 1];
      assert cuts[i] <= k < cuts[i + 1];
    }
  }

  /** The last shard, which holds the output. */
  function Last(cuts: seq<nat>): int {
    |cuts| - 2
  }

  /**
    Shard j keeps a tensor of layer k exactly when it holds the layer or, last of a tied model, reuses
    the embedding.
  */
  lemma WhoKeeps<T>(c: Content<T>, cuts: seq<nat>, k: nat, name: Name, j: nat)
    requires IsCut(c.numLayers, cuts) && InLayer(c.numLayers, k, name) && j < |cuts| - 1
    ensures KeepsIn(c, cuts, j, name) <==>
      cuts[j] <= k < cuts[j + 1] || (j == Last(cuts) && Tied(c) && k == 0)
  {
    if l :| cuts[j] <= l <= cuts[j + 1] - 1 && InLayer(c.numLayers, l, name) {
      OneLayer(c.numLayers, k, l, name);
    }
    if name == EMBED {
      OneLayer(c.numLayers, k, 0, name);
    }
    assert j < Last(cuts) ==> cuts[j + 1] < cuts[|cuts| - 1];
  }

  lemma OneHolder(n: nat, cuts: seq<nat>, k: nat, i: nat, j: nat)
    requires IsCut(n, cuts) && i < |cuts| - 1 && j < |cuts| - 1 && cuts[i] <= k < cuts[i + 1]
    ensures cuts[j] <= k < cuts[j + 1] <==> j == i
  {
    assert j < i ==> cuts[j + 1] <= cuts[i];
    assert i < j ==> cuts[i + 1] <= cuts[j];
  }

  /**
    Consecutive shards hold every layer tensor exactly once, except the embedding of a tied model,
    which is in the first and in the last shard.
  */
  lemma EveryTensorOnce<T>(c: Content<T>, cuts: seq<nat>, k: nat, name: Name)
    requires IsCut(c.numLayers, cuts) && InLayer(c.numLayers, k, name) && k <= c.numLayers + 1
    ensures !(k == 0 && Tied(c)) ==>
      exists i :: 0 <= i < |cuts| - 1 && OnlyIn(c, cuts, i, name)
    ensures k == 0 && Tied(c) ==>
      forall j :: 0 <= j < |cuts| - 1 ==> (KeepsIn(c, cuts, j, name) <==> j == 0 || j == Last(cuts))
  {
    HolderExists(cuts, k);
    assert cuts[0] < cuts[1];
    var i :| 0 <= i < |cuts| - 1 && cuts[i] <= k < cuts[i + 1] && (k == 0 ==> i == 0);
    forall j | 0 <= j < |cuts| - 1
      ensures KeepsIn(c, cuts, j, name) <==> j == i || (j == Last(cuts) && Tied(c) && k == 0)
    {
      WhoKeeps(c, cuts, k, name, j);
      OneHolder(c.numLayers, cuts, k, i, j);
    }
    assert !(k == 0 && Tied(c)) ==> OnlyIn(c, cuts, i, name);
  }

  /** A tensor of no layer is in no shard. */
  lemma StrayTensorDropped<T>(c: Content<T>, s: nat, e: nat, name: Name)
    requires forall k :: 0 <= k <= c.numLayers + 1 ==> !InLayer(c.numLayers, k, name)
    requires e <= c.numLayers + 1
    ensures !Keeps(c, s, e, name)
  {
    assert !InLayer(c.numLayers, 0, name);
  }

  // ---------------------------------------------------------------- bitmaps

  /** The bitmap of the shard of layers s..=e. */
  function ShardBitmap<T>(c: Content<T>, s: nat, e: nat): Bitmap {
    BitmapOf(BlocksNamed(Kept(c, s, e).Keys))
  }

  /** The bitmap of the complete file: blocks below the block count that some name shows. */
  function FullBitmap<T>(c: Content<T>): Bitmap {
    BitmapOf(set i | i in BlocksNamed(c.tensors.Keys) && i < c.numLayers)
  }

  lemma OneMoreNamed(names: seq<Name>, i: nat)
    requires i < |names|
    ensures var block := BlockIndex(names[i]);
      BlocksNamed(NameSet(names[..i + 1])) ==
        BlocksNamed(NameSet(names[..i])) + if block.Some? then {block.value} else {}
  {
    assert names[..i + 1] == names[..i] + [names[i]];
    assert NameSet(names[..i + 1]) == NameSet(names[..i]) + {names[i]};
  }

  /** The block numbers of the names. */
  method CollectBlocks<T>(c: Content<T>, names: seq<Name>) returns (present: set<nat>)
    requires Enumerates(names, c.tensors)
    ensures present == BlocksNamed(c.tensors.Keys)
  {
    present := {};
    for i := 0 to |names|
      invariant present == BlocksNamed(NameSet(names[..i]))
    {
      OneMoreNamed(names, i);
      var block := BlockIndex(names[i]);
      if block.Some? {
        present := present + {block.value};
      }
    }
    assert names[..|names|] == names && NameSet(names) == c.tensors.Keys;
  }

  /** The bitmap a complete file is given: collects the block numbers of the names, then sets a bit for each. */
  method AnalyzeBitmap<T>(c: Content<T>, names: seq<Name>) returns (bitmap: array<bv8>)
    requires Enumerates(names, c.tensors)
    ensures fresh(bitmap) && bitmap.Length == 32 && bitmap[..] == FullBitmap(c)
  {
    var present := CollectBlocks(c, names);
    bitmap := BuildLayerBitmap(present, c.numLayers);
    LayersOfBitmap(set i | i in BlocksNamed(c.tensors.Keys) && i < c.numLayers);
    LayersDetermine(bitmap[..], FullBitmap(c));
  }

  /** Some tensor belongs to block b. */
  ghost predicate HasBlock<T>(c: Content<T>, b: nat) {
    exists n :: n in c.tensors && StartsWith(n, BlockPrefix(b))
  }

  /** The blocks that a bitmap has bits for and that have tensors. */
  ghost function Present<T>(c: Content<T>): (s: set<nat>)
    ensures forall b: nat :: b in s <==> b < 256 && b < c.numLayers && HasBlock(c, b)
  {
    set b: nat | b < 256 && b < c.numLayers && HasBlock(c, b)
  }

  lemma ShardBlocks<T>(c: Content<T>, s: nat, e: nat, b: nat)
    requires e <= c.numLayers + 1
    ensures b in Layers(ShardBitmap(c, s, e)) <==> b < 256 && s <= b + 1 <= e && b < c.numLayers && HasBlock(c, b)
  {
    var kept := Kept(c, s, e);
    LayersOfBitmap(BlocksNamed(kept.Keys));
    if b in BlocksNamed(kept.Keys) {
      var n :| n in kept && BlockIndex(n) == Some(b);
      KeptBlock(c, s, e, n, b);
    }
    if b < 256 && s <= b + 1 <= e && b < c.numLayers && HasBlock(c, b) {
      var n :| n in c.tensors && StartsWith(n, BlockPrefix(b));
      assert InLayer(c.numLayers, b + 1, n);
      assert n in kept;
      IndexOfBlock(b, n);
    }
  }

  /** A kept tensor with a block number is a tensor of that block, however other names write it. */
  lemma KeptBlock<T>(c: Content<T>, s: nat, e: nat, n: Name, b: nat)
    requires n in c.tensors && Keeps(c, s, e, n) && BlockIndex(n) == Some(b) && e <= c.numLayers + 1
    ensures s <= b + 1 <= e && b < c.numLayers && HasBlock(c, b)
  {
    if n == EMBED || n == NORM || n == OUTPUT {
      NotABlock(n);
      assert false;
    } else {
      var k :| s <= k <= e && InLayer(c.numLayers, k, n);
      IndexOfBlock(k - 1, n);
    }
  }

  lemma FullBlocks<T>(c: Content<T>, b: nat)
    ensures b in Layers(FullBitmap(c)) <==> b < 256 && b < c.numLayers && b in BlocksNamed(c.tensors.Keys)
    ensures b < 256 && HasBlock(c, b) ==> b in BlocksNamed(c.tensors.Keys)
  {
    LayersOfBitmap(set i | i in BlocksNamed(c.tensors.Keys) && i < c.numLayers);
    if b < 256 && HasBlock(c, b) {
      var n :| n in c.tensors && StartsWith(n, BlockPrefix(b));
      IndexOfBlock(b, n);
    }
  }

  /** The blocks among these that a range of layers lo..hi-1 holds; block b is layer b+1. */
  ghost function Between(blocks: set<nat>, lo: nat, hi: nat): set<nat> {
    set b | b in blocks && lo <= b + 1 < hi
  }

  /** A shard shows the blocks of its layers that have tensors. */
  lemma ShardShows<T>(c: Content<T>, s: nat, e: nat)
    requires e <= c.numLayers + 1
    ensures Layers(ShardBitmap(c, s, e)) == Between(Present(c), s, e + 1)
  {
    forall b ensures b in Layers(ShardBitmap(c, s, e)) <==> b in Between(Present(c), s, e + 1) {
      ShardBlocks(c, s, e, b);
    }
  }

  /** The bitmap that a split writes shows those blocks. */
  lemma SplitShows<T>(c: Content<T>, s: nat, e: nat)
    requires Split(c, s, e).Ok?
    ensures Split(c, s, e).value.bitmap == Some(ShardBitmap(c, s, e))
    ensures Layers(Split(c, s, e).value.bitmap.value) == Between(Present(c), s, e + 1)
  {
    ShardShows(c, s, e);
  }

  /** Shards of ranges that do not meet have no bit in common. */
  lemma BitmapsDisjoint<T>(c: Content<T>, s: nat, e: nat, s': nat, e': nat)
    requires e < s' && e <= c.numLayers + 1 && e' <= c.numLayers + 1
    ensures And(ShardBitmap(c, s, e), ShardBitmap(c, s', e')) == NoLayers()
  {
    ShardShows(c, s, e);
    ShardShows(c, s', e');
    NoBitInCommon(ShardBitmap(c, s, e), ShardBitmap(c, s', e'));
  }

  lemma NoBitInCommon(a: Bitmap, b: Bitmap)
    requires Layers(a) !! Layers(b)
    ensures And(a, b) == NoLayers()
  {
    AndIsIntersection(a, b);
    NoneIsEmpty();
    LayersDetermine(And(a, b), NoLayers());
  }

  /** Each bitmap shows the blocks between its cut points. */
  ghost predicate CutsOf(blocks: set<nat>, cuts: seq<nat>, bs: seq<Bitmap>) {
    && |cuts| == |bs| + 1
    && (forall i {:trigger bs[i]} :: 0 <= i < |bs| ==> cuts[i] <= cuts[i + 1])
    && (forall i {:trigger bs[i]} :: 0 <= i < |bs| ==> Layers(bs[i]) == Between(blocks, cuts[i], cuts[i + 1]))
  }

  lemma {:induction false} CutsUnite(blocks: set<nat>, cuts: seq<nat>, bs: seq<Bitmap>)
    requires CutsOf(blocks, cuts, bs)
    ensures cuts[0] <= cuts[|bs|] && Layers(OrAll(bs)) == Between(blocks, cuts[0], cuts[|bs|])
    decreases |bs|
  {
    if bs == [] {
      NoneIsEmpty();
      assert Between(blocks, cuts[0], cuts[0]) == {};
    } else {
      var m := |bs| - 1;
      var last := bs[m];
      forall i | 0 <= i < m
        ensures cuts[i] <= cuts[i + 1] && Layers(bs[..m][i]) == Between(blocks, cuts[i], cuts[i + 1])
      {
        assert bs[..m][i] == bs[i];
      }
      CutsUnite(blocks, cuts[..m + 1], bs[..m]);
      OrIsUnion(OrAll(bs[..m]), bs[m]);
    }
  }

  /** The bitmaps of the shards of a cut, in order. */
  ghost predicate AreBitmaps<T>(c: Content<T>, cuts: seq<nat>, bs: seq<Bitmap>)
    requires IsCut(c.numLayers, cuts)
  {
    && |bs| == |cuts| - 1
    && forall i {:trigger bs[i]} :: 0 <= i < |bs| ==> bs[i] == ShardBitmap(c, cuts[i], cuts[i + 1] - 1)
  }

  /** A name shows block b only in another form, such as "blk.00.", that no shard selects. */
  predicate OnlyMisnamed<T>(c: Content<T>, b: nat) {
    (exists n :: n in c.tensors && BlockIndex(n) == Some(b))
    && forall n :: n in c.tensors ==> !StartsWith(n, BlockPrefix(b))
  }

  lemma ShardsAreCuts<T>(c: Content<T>, cuts: seq<nat>, bs: seq<Bitmap>)
    requires IsCut(c.numLayers, cuts) && AreBitmaps(c, cuts, bs)
    ensures CutsOf(Present(c), cuts, bs)
  {
    forall i | 0 <= i < |bs|
      ensures cuts[i] <= cuts[i + 1] && Layers(bs[i]) == Between(Present(c), cuts[i], cuts[i + 1])
    {
      CutBounds(c.numLayers, cuts, i);
      ShardShows(c, cuts[i], cuts[i + 1] - 1);
    }
  }

  /** Such a file: its only tensor counts as block 0 and is selected by no shard. */
  lemma MisnamedBlock<T>(t: T)
    ensures OnlyMisnamed(Content(1, map["blk.00.w" := t], None, None), 0)
  {
    PaddedNumber();
  }

  /** Together the shards show the blocks that have tensors. */
  lemma ShardsShowPresent<T>(c: Content<T>, cuts: seq<nat>, bs: seq<Bitmap>)
    requires IsCut(c.numLayers, cuts) && AreBitmaps(c, cuts, bs)
    ensures Layers(OrAll(bs)) == Present(c)
  {
    ShardsAreCuts(c, cuts, bs);
    CutsUnite(Present(c), cuts, bs);
    assert Between(Present(c), 0, c.numLayers + 2) == Present(c);
  }

  /**
    Together the shards show exactly the bitmap of the complete file, unless a block that has a bit
    there is shown by names in another form only.
  */
  lemma BitmapsUnite<T>(c: Content<T>, cuts: seq<nat>, bs: seq<Bitmap>)
    requires IsCut(c.numLayers, cuts) && AreBitmaps(c, cuts, bs)
    ensures OrAll(bs) == FullBitmap(c) <==> forall b: nat :: b < 256 && b < c.numLayers ==> !OnlyMisnamed(c, b)
    ensures Layers(OrAll(bs)) <= Layers(FullBitmap(c))
  {
    ShardsShowPresent(c, cuts, bs);
    forall b: nat
      ensures b in Present(c) ==> b in Layers(FullBitmap(c))
      ensures b < 256 && b < c.numLayers ==>
        (OnlyMisnamed(c, b) <==> b in Layers(FullBitmap(c)) && b !in Present(c))
    {
      FullBlocks(c, b);
    }
    if forall b: nat :: b < 256 && b < c.numLayers ==> !OnlyMisnamed(c, b) {
      forall b ensures b in Layers(OrAll(bs)) <==> b in Layers(FullBitmap(c)) {
        FullBlocks(c, b);
      }
      LayersDetermine(OrAll(bs), FullBitmap(c));
    }
  }

  // ---------------------------------------------------------------- from shards to a pipeline

  /** How tensors become the functions of a model; the same on every node. */
  datatype Builders<!T> = Builders(embed: T -> (Qwen3.Row -> Qwen3.Row), block: Block<T> -> Qwen3.LayerFns,
                                   norm: T -> (Qwen3.Row -> Qwen3.Row), head: T -> (Qwen3.Row -> Qwen3.Row))

  function Build<A, B>(f: A -> B, x: Option<A>): Option<B> {
    if x.Some? then Some(f(x.value)) else None
  }

  function Assemble<T>(w: Builders<T>, m: Loaded<T>): Qwen3.ModelFns {
    Qwen3.ModelFns(Build(w.embed, m.embed), seq(|m.blocks|, i requires 0 <= i < |m.blocks| => w.block(m.blocks[i])),
                   Build(w.norm, m.norm), Build(w.head, m.lmHead))
  }

  /** Each part of the model is made from its own tensors, and is there when they are. */
  lemma AssembledParts<T>(w: Builders<T>, m: Loaded<T>)
    ensures var fns := Assemble(w, m);
      && |fns.layers| == |m.blocks| && (forall i :: 0 <= i < |m.blocks| ==> fns.layers[i] == w.block(m.blocks[i]))
      && fns.embed == (if m.embed.Some? then Some(w.embed(m.embed.value)) else None)
      && fns.norm == (if m.norm.Some? then Some(w.norm(m.norm.value)) else None)
      && fns.lmHead == (if m.lmHead.Some? then Some(w.head(m.lmHead.value)) else None)
  {
  }

  lemma AssemblePart<T>(w: Builders<T>, m: Loaded<T>, a: nat, b: nat)
    requires a <= b <= |m.blocks| + 1
    ensures Assemble(w, Sub(m, a, b)) == Qwen3Runs.Part(Assemble(w, m), a, b)
  {
    var x, y := Assemble(w, Sub(m, a, b)).layers, Qwen3Runs.Part(Assemble(w, m), a, b).layers;
    assert |x| == |y|;
    assert x == y;
  }

  /** What a node runs after it loaded layers s..=e from the shard of s..=e. */
  function Node<T>(c: Content<T>, w: Builders<T>, s: nat, e: nat): Option<Qwen3.ModelFns> {
    var shard := Split(c, s, e);
    if shard.Err? then None
    else
      var loaded := LoadModel(shard.value, s, e);
      if loaded.Err? then None else Some(Assemble(w, loaded.value))
  }

  /** A layer of a model that loads has tensors. */
  lemma FirstLayerLoads<T>(c: Content<T>, k: nat)
    requires c.split.None? && k <= c.numLayers + 1 && LoadModel(c, 0, c.numLayers + 1).Ok?
    ensures LoadLayer(c, k).Ok?
  {
    RangeOfWhole(c, k, k);
    if 1 <= k <= c.numLayers {
      assert LoadBlocks(c, k, k + 1).Ok?;
      assert BlockLoader(c)(k).Ok?;
    }
  }

  /** If the file loads, every range splits off, its shard loads, and gives that part of the model. */
  lemma NodeIsPart<T>(c: Content<T>, w: Builders<T>, s: nat, e: nat)
    requires c.split.None? && s <= e <= c.numLayers + 1 && LoadModel(c, 0, c.numLayers + 1).Ok?
    ensures RunsShard(c, w, s, e, Qwen3Runs.Part(Assemble(w, LoadModel(c, 0, c.numLayers + 1).value), s, e))
  {
    FirstLayerLoads(c, s);
    LoadableSplits(c, s, e, s);
    LoadCommutesWithSplit(c, s, e, s, e);
    RangeOfWhole(c, s, e);
    AssemblePart(w, LoadModel(c, 0, c.numLayers + 1).value, s, e);
  }

  /** Node i runs shard i of the cut. */
  ghost predicate Deployed<T>(c: Content<T>, w: Builders<T>, cuts: seq<nat>, nodes: seq<Qwen3.ModelFns>)
    requires IsCut(c.numLayers, cuts)
  {
    && |nodes| == |cuts| - 1
    && forall i {:trigger nodes[i]} :: 0 <= i < |nodes| ==> RunsShard(c, w, cuts[i], cuts[i + 1] - 1, nodes[i])
  }

  ghost predicate RunsShard<T>(c: Content<T>, w: Builders<T>, s: nat, e: nat, node: Qwen3.ModelFns) {
    Node(c, w, s, e) == Some(node)
  }

  lemma CutOfWhole<T>(c: Content<T>, w: Builders<T>, cuts: seq<nat>)
    requires c.split.None? && IsCut(c.numLayers, cuts) && LoadModel(c, 0, c.numLayers + 1).Ok?
    ensures Qwen3Runs.IsCut(Assemble(w, LoadModel(c, 0, c.numLayers + 1).value), cuts)
  {
    RangeOfWhole(c, 0, c.numLayers + 1);
  }

  lemma DeployedIsParts<T>(c: Content<T>, w: Builders<T>, cuts: seq<nat>, nodes: seq<Qwen3.ModelFns>)
    requires c.split.None? && IsCut(c.numLayers, cuts) && LoadModel(c, 0, c.numLayers + 1).Ok?
    requires Deployed(c, w, cuts, nodes)
    ensures var whole := Assemble(w, LoadModel(c, 0, c.numLayers + 1).value);
      Qwen3Runs.IsCut(whole, cuts) && nodes == Qwen3Runs.Parts(whole, cuts)
  {
    var whole := Assemble(w, LoadModel(c, 0, c.numLayers + 1).value);
    CutOfWhole(c, w, cuts);
    var parts := Qwen3Runs.Parts(whole, cuts);
    forall i | 0 <= i < |nodes| ensures nodes[i] == parts[i] {
      CutBounds(c.numLayers, cuts, i);
      NodeIsPart(c, w, cuts[i], cuts[i + 1] - 1);
    }
  }

  /**
    End to end: split a model file at any cut points, load every shard on a node of its own and chain
    the nodes. Over every run of calls, results and per-layer caches are those of the file loaded whole.
  */
  lemma ShardedPipelineEqualsModel<T>(c: Content<T>, w: Builders<T>, cuts: seq<nat>, nodes: seq<Qwen3.ModelFns>,
                                      cs: seq<seq<Qwen3.Cache>>, calls: seq<(Qwen3.Tensor, nat)>)
    requires c.split.None? && IsCut(c.numLayers, cuts) && LoadModel(c, 0, c.numLayers + 1).Ok?
    requires Deployed(c, w, cuts, nodes)
    requires Qwen3Runs.Shaped(nodes, cs) && forall i :: 0 <= i < |calls| ==> calls[i].0.rows != []
    ensures var whole := Assemble(w, LoadModel(c, 0, c.numLayers + 1).value);
      var (rs, cs') := Qwen3Runs.RunPipeline(nodes, cs, calls);
      && |Qwen3Runs.Flatten(cs)| == |whole.layers|
      && Qwen3Runs.RunModel(whole, Qwen3Runs.Flatten(cs), calls) == (rs, Qwen3Runs.Flatten(cs'))
  {
    DeployedIsParts(c, w, cuts, nodes);
    Qwen3Runs.PipelineEqualsMonolith(Assemble(w, LoadModel(c, 0, c.numLayers + 1).value), cuts, cs, calls);
  }
}
