/**
  Loading a range of pipeline layers from a model file. A file is its tensors and the metadata that
  loading reads; `T` is whatever a tensor is.
*/
module ShardLoading {
  import opened Common
  import opened Bitmaps
  import opened TensorNames

  datatype SplitRange = SplitRange(start: nat, end: nat)

  datatype Content<T> = Content(
    numLayers: nat,                 // N, the block_count of the architecture
    tensors: map<Name, T>,
    split: Option<SplitRange>,      // pleiades.split.start and .end
    bitmap: Option<Bitmap>)         // pleiades.layer_bitmap

  datatype LoadError =
    | InvalidLayer(layer: nat)
    | NoTensors(layer: nat)
    | MissingTensor(name: Name)
    | InvalidRange(start: nat, end: nat)
    | OutsideSplit(start: nat, end: nat)

  // ---------------------------------------------------------------- one layer

  function LayerTensors<T>(c: Content<T>, k: nat): (m: map<Name, T>)
    ensures forall n :: n in m <==> n in c.tensors && InLayer(c.numLayers, k, n)
  {
    map n | n in c.tensors && InLayer(c.numLayers, k, n) :: c.tensors[n]
  }

  function LoadLayer<T>(c: Content<T>, k: nat): Result<map<Name, T>, LoadError> {
    if k > c.numLayers + 1 then Err(InvalidLayer(k))
    else if LayerTensors(c, k) == map[] then Err(NoTensors(k))
    else Ok(LayerTensors(c, k))
  }

  /** The keys of the tensor table, in whatever order the hash map yields them. */
  ghost predicate Enumerates<T>(names: seq<Name>, tensors: map<Name, T>) {
    && (forall i :: 0 <= i < |names| ==> names[i] in tensors)
    && (forall n :: n in tensors ==> n in names)
    && (forall i, j :: 0 <= i < j < |names| ==> names[i] != names[j])
  }

  method GgufLoadLayer<T>(c: Content<T>, names: seq<Name>, k: nat) returns (r: Result<map<Name, T>, LoadError>)
    requires Enumerates(names, c.tensors)
    ensures r == LoadLayer(c, k)
  {
    if k > c.numLayers + 1 {
      return Err(InvalidLayer(k));
    }
    var tensors: map<Name, T> := map[];
    if k == 0 {
      if EMBED in c.tensors {
        tensors := tensors[EMBED := c.tensors[EMBED]];
      } else {
        assert EMBED !in LayerTensors(c, k);
        return Err(NoTensors(k));
      }
    } else if k <= c.numLayers {
      var prefix := BlockPrefix(k - 1);
      for i := 0 to |names|
        invariant forall n :: n in tensors ==>
          n in c.tensors && InLayer(c.numLayers, k, n) && tensors[n] == c.tensors[n]
        invariant forall j :: 0 <= j < i && InLayer(c.numLayers, k, names[j]) ==> names[j] in tensors
      {
        if StartsWith(names[i], prefix) {
          tensors := tensors[names[i] := c.tensors[names[i]]];
        }
      }
    } else {
      if NORM in c.tensors {
        tensors := tensors[NORM := c.tensors[NORM]];
      }
      if OUTPUT in c.tensors {
        tensors := tensors[OUTPUT := c.tensors[OUTPUT]];
      }
    }
    assert tensors == LayerTensors(c, k);
    if tensors == map[] {
      return Err(NoTensors(k));
    }
    r := Ok(tensors);
  }

  /** The weights of a block, in the order they are taken from the table. */
  datatype Block<T> = Block(qProj: T, kProj: T, vProj: T, oProj: T, qNorm: T, kNorm: T,
                            gateProj: T, upProj: T, downProj: T, ln1: T, ln2: T)

  const WEIGHTS: nat := 11

  function Suffix(i: nat): string
    requires i < WEIGHTS
  {
    match i
    case 0 => ".attn_q.weight"
    case 1 => ".attn_k.weight"
    case 2 => ".attn_v.weight"
    case 3 => ".attn_output.weight"
    case 4 => ".attn_q_norm.weight"
    case 5 => ".attn_k_norm.weight"
    case 6 => ".ffn_gate.weight"
    case 7 => ".ffn_up.weight"
    case 8 => ".ffn_down.weight"
    case 9 => ".attn_norm.weight"
    case _ => ".ffn_norm.weight"
  }

  function BlockTensor(block: nat, i: nat): Name
    requires i < WEIGHTS
  {
    "blk." + Decimal.Text(block) + Suffix(i)
  }

  /** The results of a loop over lo..hi-1 that stops at the first failure. */
  function Collect<B>(load: nat -> Result<B, LoadError>, lo: nat, hi: nat): (r: Result<seq<B>, LoadError>)
    ensures r.Ok? ==> |r.value| == if lo <= hi then hi - lo else 0
    decreases hi
  {
    if hi <= lo then Ok([])
    else
      var before := Collect(load, lo, hi - 1);
      if before.Err? then before
      else
        var last := load(hi - 1);
        if last.Err? then Err(last.error) else Ok(before.value + [last.value])
  }

  function Taker<T>(tensors: map<Name, T>, block: nat): nat -> Result<T, LoadError> {
    (i: nat) =>
      if i >= WEIGHTS || BlockTensor(block, i) !in tensors then
        Err(MissingTensor(if i < WEIGHTS then BlockTensor(block, i) else ""))
      else Ok(tensors[BlockTensor(block, i)])
  }

  /** Takes the weights one after the other; their names differ, so taking one does not lose another. */
  function FromExtracted<T>(tensors: map<Name, T>, block: nat): Result<Block<T>, LoadError> {
    var taken := Collect(Taker(tensors, block), 0, WEIGHTS);
    if taken.Err? then Err(taken.error)
    else
      var w := taken.value;
      Ok(Block(w[0], w[1], w[2], w[3], w[4], w[5], w[6], w[7], w[8], w[9], w[10]))
  }

  // ---------------------------------------------------------------- a range of layers

  /** What a node holds: embedding, blocks, output norm and head, each where its range has it. */
  datatype Loaded<T> = Loaded(embed: Option<T>, blocks: seq<Block<T>>, norm: Option<T>, lmHead: Option<T>)

  function LoadEmbed<T>(c: Content<T>): Result<T, LoadError> {
    var layer := LoadLayer(c, 0);
    if layer.Err? then Err(layer.error)
    else if EMBED !in layer.value then Err(MissingTensor(EMBED))
    else Ok(layer.value[EMBED])
  }

  function LoadBlock<T>(c: Content<T>, k: nat): Result<Block<T>, LoadError>
    requires k >= 1
  {
    var layer := LoadLayer(c, k);
    if layer.Err? then Err(layer.error) else FromExtracted(layer.value, k - 1)
  }

  function BlockLoader<T>(c: Content<T>): nat -> Result<Block<T>, LoadError> {
    (k: nat) => if k == 0 then Err(InvalidLayer(0)) else LoadBlock(c, k)
  }

  /** Layers lo up to but not including hi. */
  function LoadBlocks<T>(c: Content<T>, lo: nat, hi: nat): (r: Result<seq<Block<T>>, LoadError>)
    requires lo >= 1
  {
    Collect(BlockLoader(c), lo, hi)
  }

  /** Output norm and head; a file without an output weight reuses the embedding. */
  function LoadOutput<T>(c: Content<T>): Result<(T, T), LoadError> {
    var layer := LoadLayer(c, c.numLayers + 1);
    if layer.Err? then Err(layer.error)
    else if NORM !in layer.value then Err(MissingTensor(NORM))
    else if OUTPUT in layer.value then Ok((layer.value[NORM], layer.value[OUTPUT]))
    else
      var tied := LoadEmbed(c);
      if tied.Err? then Err(tied.error) else Ok((layer.value[NORM], tied.value))
  }

  function Min(a: nat, b: nat): nat { if a < b then a else b }
  function Max(a: nat, b: nat): nat { if a > b then a else b }

  /** The range check: a shard must hold the whole range, a complete file only caps the end. */
  function CheckRange<T>(c: Content<T>, start: nat, end: nat): Result<nat, LoadError> {
    if start > end then Err(InvalidRange(start, end))
    else if c.split.Some? then
      if start < c.split.value.start || end > c.split.value.end then Err(OutsideSplit(start, end)) else Ok(end)
    else Ok(Min(end, c.numLayers + 1))
  }

  function EmbedPart<T>(c: Content<T>, start: nat): Result<Option<T>, LoadError> {
    if start != 0 then Ok(None)
    else
      var embed := LoadEmbed(c);
      if embed.Err? then Err(embed.error) else Ok(Some(embed.value))
  }

  function OutputPart<T>(c: Content<T>, last: nat): Result<(Option<T>, Option<T>), LoadError> {
    if last != c.numLayers + 1 then Ok((None, None))
    else
      var output := LoadOutput(c);
      if output.Err? then Err(output.error) else Ok((Some(output.value.0), Some(output.value.1)))
  }

  /** The parts of a range whose end is already checked; the first failure wins. */
  function LoadParts<T>(c: Content<T>, start: nat, last: nat): Result<Loaded<T>, LoadError> {
    var embed := EmbedPart(c, start);
    if embed.Err? then Err(embed.error)
    else
      var blocks := LoadBlocks(c, Max(start, 1), Min(last, c.numLayers) + 1);
      if blocks.Err? then Err(blocks.error)
      else
        var output := OutputPart(c, last);
        if output.Err? then Err(output.error)
        else Ok(Loaded(embed.value, blocks.value, output.value.0, output.value.1))
  }

  function LoadModel<T>(c: Content<T>, start: nat, end: nat): Result<Loaded<T>, LoadError> {
    var checked := CheckRange(c, start, end);
    if checked.Err? then Err(checked.error) else LoadParts(c, start, checked.value)
  }

  // ---------------------------------------------------------------- where the parts come from

  /** What stands under the name, if anything. */
  function Named<T>(c: Content<T>, name: string): Option<T> {
    if name in c.tensors then Some(c.tensors[name]) else None
  }

  /** The weights of a block are the tensors of these names. */
  ghost predicate IsBlockOf<T>(c: Content<T>, block: nat, w: Block<T>) {
    var p := "blk." + Decimal.Text(block);
    && Named(c, p + ".attn_q.weight") == Some(w.qProj) && Named(c, p + ".attn_k.weight") == Some(w.kProj)
    && Named(c, p + ".attn_v.weight") == Some(w.vProj) && Named(c, p + ".attn_output.weight") == Some(w.oProj)
    && Named(c, p + ".attn_q_norm.weight") == Some(w.qNorm) && Named(c, p + ".attn_k_norm.weight") == Some(w.kNorm)
    && Named(c, p + ".ffn_gate.weight") == Some(w.gateProj) && Named(c, p + ".ffn_up.weight") == Some(w.upProj)
    && Named(c, p + ".ffn_down.weight") == Some(w.downProj)
    && Named(c, p + ".attn_norm.weight") == Some(w.ln1) && Named(c, p + ".ffn_norm.weight") == Some(w.ln2)
  }

  /** The file has every weight of the block. */
  ghost predicate HasWeights<T>(c: Content<T>, block: nat) {
    var p := "blk." + Decimal.Text(block);
    && p + ".attn_q.weight" in c.tensors && p + ".attn_k.weight" in c.tensors
    && p + ".attn_v.weight" in c.tensors && p + ".attn_output.weight" in c.tensors
    && p + ".attn_q_norm.weight" in c.tensors && p + ".attn_k_norm.weight" in c.tensors
    && p + ".ffn_gate.weight" in c.tensors && p + ".ffn_up.weight" in c.tensors
    && p + ".ffn_down.weight" in c.tensors
    && p + ".attn_norm.weight" in c.tensors && p + ".ffn_norm.weight" in c.tensors
  }

  /** The output head of the file: its own weight, or else the embedding. */
  function HeadOf<T>(c: Content<T>): Option<T> {
    if "output.weight" in c.tensors then Named(c, "output.weight") else Named(c, "token_embd.weight")
  }

  /** The last layer that is loaded: a complete file caps the end of the range. */
  function LastLayer<T>(c: Content<T>, end: nat): nat {
    if c.split.None? && end > c.numLayers + 1 then c.numLayers + 1 else end
  }

  /** The blocks of layers start..=last. */
  ghost predicate BlocksFrom<T>(c: Content<T>, start: nat, last: nat, blocks: seq<Block<T>>) {
    var first := if start == 0 then 1 else start;
    var end := if last > c.numLayers then c.numLayers else last;
    && |blocks| == (if first <= end then end + 1 - first else 0)
    && forall i :: 0 <= i < |blocks| ==> IsBlockOf(c, first - 1 + i, blocks[i])
  }

  ghost predicate OutputFrom<T>(c: Content<T>, last: nat, norm: Option<T>, head: Option<T>) {
    && norm == (if last == c.numLayers + 1 then Named(c, "output_norm.weight") else None)
    && head == (if last == c.numLayers + 1 then HeadOf(c) else None)
  }

  /** The model holds just the parts of its range, each from the tensor of its name. */
  ghost predicate ComesFrom<T>(c: Content<T>, start: nat, last: nat, m: Loaded<T>) {
    && m.embed == (if start == 0 then Named(c, "token_embd.weight") else None)
    && BlocksFrom(c, start, last, m.blocks) && OutputFrom(c, last, m.norm, m.lmHead)
  }

  ghost predicate HasBlocks<T>(c: Content<T>, start: nat, last: nat) {
    forall block: nat :: block < c.numLayers && start <= block + 1 <= last ==> HasWeights(c, block)
  }

  ghost predicate HasOutput<T>(c: Content<T>) {
    "output_norm.weight" in c.tensors && HeadOf(c).Some?
  }

  /** The file has all that the range needs. */
  ghost predicate Suffices<T>(c: Content<T>, start: nat, last: nat) {
    && (start == 0 ==> "token_embd.weight" in c.tensors)
    && HasBlocks(c, start, last)
    && (last == c.numLayers + 1 ==> HasOutput(c))
  }

  lemma {:induction false} CollectAll<B>(load: nat -> Result<B, LoadError>, lo: nat, hi: nat)
    ensures Collect(load, lo, hi).Ok? <==> forall k :: lo <= k < hi ==> load(k).Ok?
    ensures Collect(load, lo, hi).Ok? ==>
      forall i :: 0 <= i < |Collect(load, lo, hi).value| ==> Ok(Collect(load, lo, hi).value[i]) == load(lo + i)
    decreases hi
  {
    if lo < hi {
      CollectAll(load, lo, hi - 1);
    }
  }

  lemma WeightHasPrefix(block: nat, i: nat)
    requires i < WEIGHTS
    ensures StartsWith(BlockTensor(block, i), BlockPrefix(block))
  {
    var suffix := Suffix(i);
    assert suffix[0] == '.' && suffix == "." + suffix[1..];
    assert "blk." + Decimal.Text(block) + suffix == BlockPrefix(block) + suffix[1..];
  }

  lemma WeightInLayer<T>(c: Content<T>, k: nat, i: nat)
    requires 1 <= k <= c.numLayers && i < WEIGHTS
    ensures BlockTensor(k - 1, i) in LayerTensors(c, k) <==> BlockTensor(k - 1, i) in c.tensors
  {
    WeightHasPrefix(k - 1, i);
  }

  /** What the loop over the weights takes, weight by weight. */
  lemma ExtractedWeights<T>(c: Content<T>, k: nat, i: nat)
    requires 1 <= k <= c.numLayers && i < WEIGHTS
    ensures var taken := Taker(LayerTensors(c, k), k - 1)(i);
      (taken.Ok? <==> BlockTensor(k - 1, i) in c.tensors)
      && (taken.Ok? ==> taken.value == c.tensors[BlockTensor(k - 1, i)])
  {
    WeightInLayer(c, k, i);
  }

  lemma BlockComesFrom<T>(c: Content<T>, k: nat)
    requires 1 <= k <= c.numLayers
    ensures LoadBlock(c, k).Ok? ==> IsBlockOf(c, k - 1, LoadBlock(c, k).value)
    ensures LoadBlock(c, k).Ok? <==> HasWeights(c, k - 1)
  {
    var tensors, b := LayerTensors(c, k), k - 1;
    CollectAll(Taker(tensors, b), 0, WEIGHTS);
    forall i: nat | i < WEIGHTS
      ensures Taker(tensors, b)(i).Ok? <==> BlockTensor(b, i) in c.tensors
      ensures Taker(tensors, b)(i).Ok? ==> Named(c, BlockTensor(b, i)) == Some(Taker(tensors, b)(i).value)
    {
      ExtractedWeights(c, k, i);
    }
    AttentionNames(b);
    OtherNames(b);
    AllWeights(c, b);
    if HasWeights(c, b) {
      WeightInLayer(c, k, 0);
      assert tensors != map[];
    }
  }

  /** The names of the table, written out. */
  lemma AttentionNames(b: nat)
    ensures var p := "blk." + Decimal.Text(b);
      && BlockTensor(b, 0) == p + ".attn_q.weight" && BlockTensor(b, 1) == p + ".attn_k.weight"
      && BlockTensor(b, 2) == p + ".attn_v.weight" && BlockTensor(b, 3) == p + ".attn_output.weight"
      && BlockTensor(b, 4) == p + ".attn_q_norm.weight" && BlockTensor(b, 5) == p + ".attn_k_norm.weight"
  {
  }

  lemma OtherNames(b: nat)
    ensures var p := "blk." + Decimal.Text(b);
      && BlockTensor(b, 6) == p + ".ffn_gate.weight" && BlockTensor(b, 7) == p + ".ffn_up.weight"
      && BlockTensor(b, 8) == p + ".ffn_down.weight"
      && BlockTensor(b, 9) == p + ".attn_norm.weight" && BlockTensor(b, 10) == p + ".ffn_norm.weight"
  {
  }

  lemma AllWeights<T>(c: Content<T>, b: nat)
    ensures HasWeights(c, b) <==> forall i: nat :: i < WEIGHTS ==> BlockTensor(b, i) in c.tensors
  {
    AttentionNames(b);
    OtherNames(b);
    if HasWeights(c, b) {
      forall i: nat | i < WEIGHTS ensures BlockTensor(b, i) in c.tensors {
        assert i <= 5 || i == 6 || i == 7 || i == 8 || i == 9 || i == 10;
      }
    }
  }

  /** What a range of items is made of, from what one item is made of. */
  lemma RangeOfItems<B>(load: nat -> Result<B, LoadError>, n: nat, start: nat, last: nat,
                        ok: nat -> bool, fits: (nat, B) -> bool)
    requires forall k: nat :: 1 <= k <= n ==> (load(k).Ok? <==> ok(k - 1))
    requires forall k: nat :: 1 <= k <= n && load(k).Ok? ==> fits(k - 1, load(k).value)
    ensures var items := Collect(load, Max(start, 1), Min(last, n) + 1);
      var first := if start == 0 then 1 else start;
      var end := if last > n then n else last;
      && (items.Ok? <==> forall block: nat :: block < n && start <= block + 1 <= last ==> ok(block))
      && (items.Ok? ==> |items.value| == (if first <= end then end + 1 - first else 0))
      && (items.Ok? ==> forall i :: 0 <= i < |items.value| ==> fits(first - 1 + i, items.value[i]))
  {
    var lo, hi := Max(start, 1), Min(last, n) + 1;
    CollectAll(load, lo, hi);
    if forall k :: lo <= k < hi ==> load(k).Ok? {
      forall block: nat | block < n && start <= block + 1 <= last ensures ok(block) {
        assert load(block + 1).Ok?;
      }
    }
    if forall block: nat :: block < n && start <= block + 1 <= last ==> ok(block) {
      forall k | lo <= k < hi ensures load(k).Ok? {
        assert ok(k - 1);
      }
    }
  }

  /** A loader that gives each block from the tensors of its names. */
  ghost predicate LoadsBlocks<T>(c: Content<T>, load: nat -> Result<Block<T>, LoadError>) {
    forall k: nat :: 1 <= k <= c.numLayers ==>
      (load(k).Ok? <==> HasWeights(c, k - 1)) && (load(k).Ok? ==> IsBlockOf(c, k - 1, load(k).value))
  }

  lemma LoaderComesFrom<T>(c: Content<T>)
    ensures LoadsBlocks(c, BlockLoader(c))
  {
    var load := BlockLoader(c);
    forall k: nat | 1 <= k <= c.numLayers
      ensures (load(k).Ok? <==> HasWeights(c, k - 1)) && (load(k).Ok? ==> IsBlockOf(c, k - 1, load(k).value))
    {
      BlockComesFrom(c, k);
    }
  }

  lemma BlocksAsFits<T>(c: Content<T>, start: nat, last: nat, blocks: seq<Block<T>>, fits: (nat, Block<T>) -> bool)
    requires fits == ((block: nat, w: Block<T>) => IsBlockOf(c, block, w))
    requires var first := if start == 0 then 1 else start;
      var end := if last > c.numLayers then c.numLayers else last;
      && |blocks| == (if first <= end then end + 1 - first else 0)
      && forall i :: 0 <= i < |blocks| ==> fits(first - 1 + i, blocks[i])
    ensures BlocksFrom(c, start, last, blocks)
  {
    var first := if start == 0 then 1 else start;
    forall i | 0 <= i < |blocks| ensures IsBlockOf(c, first - 1 + i, blocks[i]) {
      assert fits(first - 1 + i, blocks[i]);
    }
  }

  lemma BlocksAsOk<T>(c: Content<T>, start: nat, last: nat, ok: nat -> bool)
    requires ok == ((block: nat) => HasWeights(c, block))
    ensures HasBlocks(c, start, last) <==>
      forall block: nat :: block < c.numLayers && start <= block + 1 <= last ==> ok(block)
  {
    forall block: nat ensures ok(block) <==> HasWeights(c, block) {
    }
  }

  lemma LoadedRange<T>(c: Content<T>, load: nat -> Result<Block<T>, LoadError>, start: nat, last: nat)
    requires LoadsBlocks(c, load)
    ensures var blocks := Collect(load, Max(start, 1), Min(last, c.numLayers) + 1);
      && (blocks.Ok? <==> HasBlocks(c, start, last))
      && (blocks.Ok? ==> BlocksFrom(c, start, last, blocks.value))
  {
    var ok := (block: nat) => HasWeights(c, block);
    var fits := (block: nat, w: Block<T>) => IsBlockOf(c, block, w);
    RangeOfItems(load, c.numLayers, start, last, ok, fits);
    BlocksAsOk(c, start, last, ok);
    var blocks := Collect(load, Max(start, 1), Min(last, c.numLayers) + 1);
    if blocks.Ok? {
      BlocksAsFits(c, start, last, blocks.value, fits);
    }
  }

  lemma RangeComesFrom<T>(c: Content<T>, start: nat, last: nat)
    ensures var blocks := LoadBlocks(c, Max(start, 1), Min(last, c.numLayers) + 1);
      && (blocks.Ok? <==> HasBlocks(c, start, last))
      && (blocks.Ok? ==> BlocksFrom(c, start, last, blocks.value))
  {
    LoaderComesFrom(c);
    LoadedRange(c, BlockLoader(c), start, last);
  }

  /** The result of loading the blocks of layers lo..=hi: the blocks, or an error when one is not complete. */
  ghost predicate AreBlocks<T>(c: Content<T>, lo: nat, hi: nat, r: Result<seq<Block<T>>, LoadError>) {
    (r.Ok? <==> HasBlocks(c, lo, hi)) && (r.Ok? ==> BlocksFrom(c, lo, hi, r.value))
  }

  lemma BlocksCome<T>(c: Content<T>, lo: nat, hi: nat)
    requires lo >= 1
    ensures hi <= c.numLayers ==> AreBlocks(c, lo, hi, LoadBlocks(c, lo, hi + 1))
  {
    RangeComesFrom(c, lo, hi);
  }

  lemma EmbedComesFrom<T>(c: Content<T>)
    ensures LoadEmbed(c).Ok? <==> "token_embd.weight" in c.tensors
    ensures LoadEmbed(c).Ok? ==> Some(LoadEmbed(c).value) == Named(c, "token_embd.weight")
  {
    if EMBED in c.tensors {
      assert EMBED in LayerTensors(c, 0);
    }
  }

  lemma OutputComesFrom<T>(c: Content<T>, last: nat)
    ensures OutputPart(c, last).Ok? <==> last == c.numLayers + 1 ==> HasOutput(c)
    ensures OutputPart(c, last).Ok? ==> OutputFrom(c, last, OutputPart(c, last).value.0, OutputPart(c, last).value.1)
  {
    EmbedComesFrom(c);
    var k := c.numLayers + 1;
    assert NORM in LayerTensors(c, k) <==> NORM in c.tensors;
    assert OUTPUT in LayerTensors(c, k) <==> OUTPUT in c.tensors;
  }

  /**
    A load succeeds exactly when the range is in order, within the shard and the file has what it needs;
    then every part is the tensor of its literal name.
  */
  lemma LoadComesFrom<T>(c: Content<T>, start: nat, end: nat)
    requires start <= end && (c.split.Some? ==> c.split.value.start <= start && end <= c.split.value.end)
    ensures LoadModel(c, start, end).Ok? <==> Suffices(c, start, LastLayer(c, end))
    ensures LoadModel(c, start, end).Ok? ==>
      ComesFrom(c, start, LastLayer(c, end), LoadModel(c, start, end).value)
  {
    var last := LastLayer(c, end);
    assert LoadModel(c, start, end) == LoadParts(c, start, last);
    EmbedComesFrom(c);
    RangeComesFrom(c, start, last);
    OutputComesFrom(c, last);
  }

  // ---------------------------------------------------------------- the loops

  method LoadEmbedding<T>(c: Content<T>, names: seq<Name>) returns (r: Result<T, LoadError>)
    requires Enumerates(names, c.tensors)
    ensures r == LoadEmbed(c)
  {
    var layer := GgufLoadLayer(c, names, 0);
    if layer.Err? {
      return Err(layer.error);
    }
    if EMBED !in layer.value {
      return Err(MissingTensor(EMBED));
    }
    r := Ok(layer.value[EMBED]);
  }

  method LoadOneBlock<T>(c: Content<T>, names: seq<Name>, k: nat) returns (r: Result<Block<T>, LoadError>)
    requires Enumerates(names, c.tensors) && k >= 1
    ensures r == BlockLoader(c)(k)
  {
    var layer := GgufLoadLayer(c, names, k);
    if layer.Err? {
      return Err(layer.error);
    }
    r := FromExtracted(layer.value, k - 1);
  }

  method LoadBlockRange<T>(c: Content<T>, names: seq<Name>, lo: nat, hi: nat)
    returns (r: Result<seq<Block<T>>, LoadError>)
    requires Enumerates(names, c.tensors) && lo >= 1
    ensures r == LoadBlocks(c, lo, hi + 1)
    ensures hi <= c.numLayers ==> AreBlocks(c, lo, hi, r)
  {
    BlocksCome(c, lo, hi);
    var blocks: seq<Block<T>> := [];
    ghost var load := BlockLoader(c);
    var i := lo;
    while i <= hi
      invariant if lo <= hi then lo <= i <= hi + 1 else i == lo
      invariant Collect(load, lo, i) == Ok(blocks)
      decreases if i <= hi then hi + 1 - i else 0
    {
      var block := LoadOneBlock(c, names, i);
      if block.Err? {
        LaterFailure(load, lo, i, hi + 1);
        return Err(block.error);
      }
      blocks := blocks + [block.value];
      i := i + 1;
    }
    assert lo <= hi ==> i == hi + 1;
    assert Collect(load, lo, hi + 1) == Ok(blocks);
    r := Ok(blocks);
  }

  method LoadOutputHead<T>(c: Content<T>, names: seq<Name>) returns (r: Result<(T, T), LoadError>)
    requires Enumerates(names, c.tensors)
    ensures r == LoadOutput(c)
    ensures r.Ok? <==> HasOutput(c)
    ensures r.Ok? ==> OutputFrom(c, c.numLayers + 1, Some(r.value.0), Some(r.value.1))
  {
    OutputComesFrom(c, c.numLayers + 1);
    var layer := GgufLoadLayer(c, names, c.numLayers + 1);
    if layer.Err? {
      return Err(layer.error);
    }
    if NORM !in layer.value {
      return Err(MissingTensor(NORM));
    }
    var norm := layer.value[NORM];
    if OUTPUT in layer.value {
      return Ok((norm, layer.value[OUTPUT]));
    }
    var tied := LoadEmbedding(c, names);
    if tied.Err? {
      return Err(tied.error);
    }
    r := Ok((norm, tied.value));
  }

  method GgufLoadModel<T>(c: Content<T>, names: seq<Name>, start: nat, end: nat)
    returns (r: Result<Loaded<T>, LoadError>)
    requires Enumerates(names, c.tensors)
    ensures r == LoadModel(c, start, end)
    ensures start > end ==> r == Err(InvalidRange(start, end))
    ensures start <= end && c.split.Some? && !(c.split.value.start <= start && end <= c.split.value.end) ==>
      r == Err(OutsideSplit(start, end))
    ensures start <= end && (c.split.Some? ==> c.split.value.start <= start && end <= c.split.value.end) ==>
      (r.Ok? <==> Suffices(c, start, LastLayer(c, end)))
    ensures r.Ok? ==> ComesFrom(c, start, LastLayer(c, end), r.value)
  {
    if start <= end && (c.split.Some? ==> c.split.value.start <= start && end <= c.split.value.end) {
      LoadComesFrom(c, start, end);
    }
    var checked := CheckRange(c, start, end);
    if checked.Err? {
      return Err(checked.error);
    }
    var last := checked.value;
    var model: Loaded<T> := Loaded(None, [], None, None);
    if start == 0 {
      var embed := LoadEmbedding(c, names);
      if embed.Err? {
        return Err(embed.error);
      }
      model := model.(embed := Some(embed.value));
    }
    var blocks := LoadBlockRange(c, names, Max(start, 1), Min(last, c.numLayers));
    if blocks.Err? {
      return Err(blocks.error);
    }
    model := model.(blocks := blocks.value);
    if last == c.numLayers + 1 {
      var output := LoadOutputHead(c, names);
      if output.Err? {
        return Err(output.error);
      }
      model := model.(norm := Some(output.value.0), lmHead := Some(output.value.1));
    }
    r := Ok(model);
  }

  /** A block that fails to load fails every longer range with the same error. */
  lemma {:induction false} LaterFailure<B>(load: nat -> Result<B, LoadError>, lo: nat, k: nat, hi: nat)
    requires lo <= k < hi && Collect(load, lo, k).Ok? && load(k).Err?
    ensures Collect(load, lo, hi) == Err(load(k).error)
    decreases hi
  {
    if hi > k + 1 {
      LaterFailure(load, lo, k, hi - 1);
    }
  }

  // ---------------------------------------------------------------- a range of a model that loads

  lemma {:induction false} CollectSlice<B>(load: nat -> Result<B, LoadError>, all: nat, lo: nat, hi: nat)
    requires 1 <= lo <= hi <= all && Collect(load, 1, all).Ok?
    ensures Collect(load, lo, hi) == Ok(Collect(load, 1, all).value[lo - 1..hi - 1])
    decreases all, hi
  {
    var items := Collect(load, 1, all).value;
    if hi < all {
      CollectSlice(load, all - 1, lo, hi);
      var before := Collect(load, 1, all - 1).value;
      assert items[..all - 2] == before;
      assert items[lo - 1..hi - 1] == before[lo - 1..hi - 1];
    } else if lo < hi {
      CollectSlice(load, all, lo, hi - 1);
      assert items[lo - 1..hi - 1] == items[lo - 1..hi - 2] + [items[hi - 2]];
    }
  }

  /** Layers a..=b of a loaded model. */
  function Sub<T>(m: Loaded<T>, a: nat, b: nat): Loaded<T> {
    var n := |m.blocks|;
    var lo, hi := Max(a, 1) - 1, Min(b, n);
    Loaded(if a == 0 then m.embed else None,
           if lo <= hi then m.blocks[lo..hi] else [],
           if b == n + 1 then m.norm else None,
           if b == n + 1 then m.lmHead else None)
  }

  lemma WholeParts<T>(c: Content<T>)
    requires LoadParts(c, 0, c.numLayers + 1).Ok?
    ensures var m := LoadParts(c, 0, c.numLayers + 1).value;
      && EmbedPart(c, 0) == Ok(m.embed)
      && LoadBlocks(c, 1, c.numLayers + 1) == Ok(m.blocks)
      && OutputPart(c, c.numLayers + 1) == Ok((m.norm, m.lmHead))
  {
  }

  lemma BlocksOfRange<T>(c: Content<T>, lo: nat, hi: nat)
    requires 1 <= lo && hi <= c.numLayers + 1
    requires LoadBlocks(c, 1, c.numLayers + 1).Ok?
    ensures LoadBlocks(c, lo, hi) ==
      Ok(if lo <= hi then LoadBlocks(c, 1, c.numLayers + 1).value[lo - 1..hi - 1] else [])
  {
    if lo <= hi {
      CollectSlice(BlockLoader(c), c.numLayers + 1, lo, hi);
    }
  }

  lemma SubParts<T>(c: Content<T>, m: Loaded<T>, a: nat, b: nat)
    requires |m.blocks| == c.numLayers && a <= b <= c.numLayers + 1
    requires EmbedPart(c, a) == Ok(Sub(m, a, b).embed)
    requires LoadBlocks(c, Max(a, 1), Min(b, c.numLayers) + 1) == Ok(Sub(m, a, b).blocks)
    requires OutputPart(c, b) == Ok((Sub(m, a, b).norm, Sub(m, a, b).lmHead))
    ensures LoadParts(c, a, b) == Ok(Sub(m, a, b))
  {
  }

  /** If the whole file loads, every range loads, and gives just its part of the whole. */
  lemma RangeOfWhole<T>(c: Content<T>, a: nat, b: nat)
    requires c.split.None? && a <= b <= c.numLayers + 1
    requires LoadModel(c, 0, c.numLayers + 1).Ok?
    ensures |LoadModel(c, 0, c.numLayers + 1).value.blocks| == c.numLayers
    ensures LoadModel(c, a, b) == Ok(Sub(LoadModel(c, 0, c.numLayers + 1).value, a, b))
  {
    var m := LoadModel(c, 0, c.numLayers + 1).value;
    WholeParts(c);
    BlocksOfRange(c, Max(a, 1), Min(b, c.numLayers) + 1);
    SubParts(c, m, a, b);
  }
}
