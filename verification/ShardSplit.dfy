/**
  Splitting a complete model file into shards of consecutive pipeline layers, and what loading from
  the shards gives. Writing a shard and reading it back is taken to keep its tensors and metadata.
*/
module ShardSplit {
  import opened Common
  import opened Bitmaps
  import opened Decimal
  import opened TensorNames
  import opened ShardLoading

  datatype SplitError = BadOrder(start: nat, end: nat) | EndTooLarge(end: nat) | NothingSelected

  /** The output head of the file is its embedding. */
  predicate Tied<T>(c: Content<T>) {
    OUTPUT !in c.tensors
  }

  /** A shard of layers start..=end keeps the tensors of its layers, and the embedding when its output needs it. */
  predicate Keeps<T>(c: Content<T>, start: nat, end: nat, name: Name) {
    || (exists k :: start <= k <= end && InLayer(c.numLayers, k, name))
    || (end == c.numLayers + 1 && Tied(c) && name == EMBED)
  }

  function Kept<T>(c: Content<T>, start: nat, end: nat): (m: map<Name, T>)
    ensures forall n :: n in m <==> n in c.tensors && Keeps(c, start, end, n)
    ensures forall n :: n in m ==> m[n] == c.tensors[n]
  {
    map n | n in c.tensors && Keeps(c, start, end, n) :: c.tensors[n]
  }

  /** The block numbers that the names show. */
  function BlocksNamed(names: set<Name>): set<nat> {
    set n | n in names && BlockIndex(n).Some? :: BlockIndex(n).value
  }

  function Split<T>(c: Content<T>, start: nat, end: nat): Result<Content<T>, SplitError> {
    if start > end then Err(BadOrder(start, end))
    else if end > c.numLayers + 1 then Err(EndTooLarge(end))
    else
      var kept := Kept(c, start, end);
      if kept == map[] then Err(NothingSelected)
      else Ok(Content(c.numLayers, kept, Some(SplitRange(start, end)), Some(BitmapOf(BlocksNamed(kept.Keys)))))
  }

  // ---------------------------------------------------------------- what a shard holds, by name

  /** A tensor of the range: of one of its blocks, the embedding, or the output; a tied output takes the embedding. */
  ghost predicate Belongs<T>(c: Content<T>, start: nat, end: nat, name: Name) {
    || (exists block: nat :: start <= block + 1 <= end && block < c.numLayers
                             && "blk." + Decimal.Text(block) + "." <= name)
    || (start == 0 && name == "token_embd.weight")
    || (end == c.numLayers + 1 && (name == "output_norm.weight" || name == "output.weight"))
    || (end == c.numLayers + 1 && "output.weight" !in c.tensors && name == "token_embd.weight")
  }

  lemma KeepsMeans<T>(c: Content<T>, start: nat, end: nat, name: Name)
    requires start <= end <= c.numLayers + 1
    ensures Keeps(c, start, end, name) <==> Belongs(c, start, end, name)
  {
    if k :| start <= k <= end && InLayer(c.numLayers, k, name) {
      if 1 <= k <= c.numLayers {
        assert "blk." + Decimal.Text(k - 1) + "." <= name;
        assert start <= (k - 1) + 1 <= end;
      }
    }
    if block: nat :| start <= block + 1 <= end && block < c.numLayers && "blk." + Decimal.Text(block) + "." <= name {
      assert InLayer(c.numLayers, block + 1, name);
    }
    assert InLayer(c.numLayers, 0, name) <==> name == "token_embd.weight";
    assert InLayer(c.numLayers, c.numLayers + 1, name) <==> name == "output_norm.weight" || name == "output.weight";
  }

  /** The shard has just the tensors of its range, as they were, and shows the blocks its names have. */
  ghost predicate IsShard<T>(c: Content<T>, start: nat, end: nat, shard: Content<T>) {
    && shard.numLayers == c.numLayers && shard.split == Some(SplitRange(start, end))
    && (forall n :: n in shard.tensors <==> n in c.tensors && Belongs(c, start, end, n))
    && (forall n :: n in shard.tensors ==> n in c.tensors && shard.tensors[n] == c.tensors[n])
    && shard.bitmap.Some?
    && forall b: nat :: b in Layers(shard.bitmap.value) <==>
         b < 256 && exists n :: n in shard.tensors && BlockIndex(n) == Some(b)
  }

  /** The split fails outside the file and when nothing belongs to the range; otherwise it gives the shard. */
  lemma SplitMeans<T>(c: Content<T>, start: nat, end: nat)
    ensures start > end ==> Split(c, start, end) == Err(BadOrder(start, end))
    ensures start <= end && end > c.numLayers + 1 ==> Split(c, start, end) == Err(EndTooLarge(end))
    ensures start <= end <= c.numLayers + 1 ==>
      (Split(c, start, end).Ok? <==> exists n :: n in c.tensors && Belongs(c, start, end, n))
    ensures Split(c, start, end).Ok? ==> IsShard(c, start, end, Split(c, start, end).value)
    ensures start <= end <= c.numLayers + 1 && Split(c, start, end).Err? ==>
      Split(c, start, end) == Err(NothingSelected)
  {
    if start <= end <= c.numLayers + 1 {
      forall n ensures Keeps(c, start, end, n) <==> Belongs(c, start, end, n) {
        KeepsMeans(c, start, end, n);
      }
      var kept := Kept(c, start, end);
      assert kept == map[] <==> forall n :: n !in kept;
      LayersOfBitmap(BlocksNamed(kept.Keys));
    }
  }

  // ---------------------------------------------------------------- the loops

  ghost predicate NoDup(names: seq<Name>) {
    forall i, j :: 0 <= i < j < |names| ==> names[i] != names[j]
  }

  lemma PushNew(names: seq<Name>, n: Name)
    requires NoDup(names) && n !in names
    ensures NoDup(names + [n])
    ensures forall m :: m in names + [n] <==> m in names || m == n
  {
  }

  /** Appends the tensors of a block. */
  method SelectBlock<T>(c: Content<T>, names: seq<Name>, k: nat, before: seq<Name>) returns (selected: seq<Name>)
    requires Enumerates(names, c.tensors) && 1 <= k <= c.numLayers
    requires NoDup(before) && forall n :: n in before ==> !InLayer(c.numLayers, k, n)
    ensures NoDup(selected)
    ensures forall n :: n in selected <==> n in before || (n in c.tensors && InLayer(c.numLayers, k, n))
  {
    selected := before;
    var prefix := BlockPrefix(k - 1);
    for i := 0 to |names|
      invariant NoDup(selected)
      invariant forall n :: n in selected <==> n in before || (n in names[..i] && InLayer(c.numLayers, k, n))
    {
      assert names[..i + 1] == names[..i] + [names[i]];
      if StartsWith(names[i], prefix) {
        PushNew(selected, names[i]);
        selected := selected + [names[i]];
      }
    }
    assert names[..|names|] == names;
  }

  method PushIfPresent<T>(c: Content<T>, n: Name, before: seq<Name>) returns (selected: seq<Name>)
    requires NoDup(before) && n !in before
    ensures NoDup(selected)
    ensures forall m :: m in selected <==> m in before || (m == n && n in c.tensors)
  {
    selected := before;
    if n in c.tensors {
      PushNew(selected, n);
      selected := selected + [n];
    }
  }

  /** What is selected once the layers before k are done. */
  ghost predicate KeepsBefore<T>(c: Content<T>, start: nat, k: nat, n: Name) {
    || (exists j :: start <= j < k && InLayer(c.numLayers, j, n))
    || (k == c.numLayers + 2 && Tied(c) && n == EMBED)
  }

  lemma KeepsOneMore<T>(c: Content<T>, start: nat, k: nat, n: Name)
    requires start <= k <= c.numLayers + 1
    ensures KeepsBefore(c, start, k + 1, n) <==>
      KeepsBefore(c, start, k, n) || InLayer(c.numLayers, k, n) || (k == c.numLayers + 1 && Tied(c) && n == EMBED)
    ensures KeepsBefore(c, start, k, n) ==> !InLayer(c.numLayers, k, n)
  {
    if j :| start <= j < k && InLayer(c.numLayers, j, n) {
      if InLayer(c.numLayers, k, n) {
        OneLayer(c.numLayers, j, k, n);
      }
    }
  }

  method SelectOutput<T>(c: Content<T>, before: seq<Name>) returns (selected: seq<Name>)
    requires NoDup(before) && forall n :: n in before ==> !InLayer(c.numLayers, c.numLayers + 1, n)
    requires EMBED in before ==> EMBED in c.tensors
    ensures NoDup(selected)
    ensures forall n :: n in selected <==>
      n in before || (n in c.tensors && (InLayer(c.numLayers, c.numLayers + 1, n) || (Tied(c) && n == EMBED)))
  {
    selected := PushIfPresent(c, NORM, before);
    assert NORM != OUTPUT && NORM != EMBED && OUTPUT != EMBED;
    selected := PushIfPresent(c, OUTPUT, selected);
    if OUTPUT !in c.tensors {
      if EMBED in c.tensors && EMBED !in selected {
        PushNew(selected, EMBED);
        selected := selected + [EMBED];
      }
    }
  }

  method SelectTensors<T>(c: Content<T>, names: seq<Name>, start: nat, end: nat) returns (selected: seq<Name>)
    requires Enumerates(names, c.tensors) && start <= end <= c.numLayers + 1
    ensures NoDup(selected)
    ensures forall n :: n in selected <==> n in c.tensors && Keeps(c, start, end, n)
    ensures forall n :: n in selected <==> n in c.tensors && Belongs(c, start, end, n)
  {
    forall n ensures Keeps(c, start, end, n) <==> Belongs(c, start, end, n) {
      KeepsMeans(c, start, end, n);
    }
    selected := [];
    for k := start to end + 1
      invariant NoDup(selected)
      invariant forall n :: n in selected <==> n in c.tensors && KeepsBefore(c, start, k, n)
    {
      forall n {
        KeepsOneMore(c, start, k, n);
      }
      if k == 0 {
        selected := PushIfPresent(c, EMBED, selected);
      } else if k <= c.numLayers {
        selected := SelectBlock(c, names, k, selected);
      } else {
        selected := SelectOutput(c, selected);
      }
    }
  }

  ghost function NameSet(names: seq<Name>): (s: set<Name>)
    ensures forall n :: n in s <==> n in names
  {
    set n | n in names
  }

  /** The bitmap of the selected names: bit i for `blk.i`. */
  method MarkBlocks(selected: seq<Name>) returns (bitmap: array<bv8>)
    ensures fresh(bitmap) && bitmap.Length == 32
    ensures forall b :: b in Layers(bitmap[..]) <==> b < 256 && b in BlocksNamed(NameSet(selected))
  {
    bitmap := new bv8[32](_ => 0);
    assert bitmap[..] == NoLayers();
    NoneIsEmpty();
    for i := 0 to |selected|
      invariant forall b :: b in Layers(bitmap[..]) <==>
        b < 256 && exists j :: 0 <= j < i && BlockIndex(selected[j]) == Some(b)
    {
      var block := BlockIndex(selected[i]);
      if block.Some? && block.value < 256 {
        Set(bitmap, block.value);
      }
    }
  }

  method LoadTensors<T>(c: Content<T>, selected: seq<Name>) returns (tensors: map<Name, T>)
    requires forall n :: n in selected ==> n in c.tensors
    ensures forall n :: n in tensors <==> n in selected
    ensures forall n :: n in tensors ==> tensors[n] == c.tensors[n]
  {
    tensors := map[];
    for i := 0 to |selected|
      invariant forall n :: n in tensors <==> n in selected[..i]
      invariant forall n :: n in tensors ==> n in c.tensors && tensors[n] == c.tensors[n]
    {
      assert selected[..i + 1] == selected[..i] + [selected[i]];
      assert selected[i] in selected;
      tensors := tensors[selected[i] := c.tensors[selected[i]]];
    }
    assert selected[..|selected|] == selected;
  }

  method GgufSplitModel<T>(c: Content<T>, names: seq<Name>, start: nat, end: nat)
    returns (r: Result<Content<T>, SplitError>)
    requires Enumerates(names, c.tensors)
    ensures r == Split(c, start, end)
    ensures start > end ==> r == Err(BadOrder(start, end))
    ensures start <= end && end > c.numLayers + 1 ==> r == Err(EndTooLarge(end))
    ensures start <= end <= c.numLayers + 1 ==>
      (r == Err(NothingSelected) <==> forall n :: n in c.tensors ==> !Belongs(c, start, end, n))
    ensures r.Ok? ==> IsShard(c, start, end, r.value)
    ensures start <= end <= c.numLayers + 1 && r.Err? ==> r.error == NothingSelected
  {
    SplitMeans(c, start, end);
    if start > end {
      return Err(BadOrder(start, end));
    }
    if end > c.numLayers + 1 {
      return Err(EndTooLarge(end));
    }
    var selected := SelectTensors(c, names, start, end);
    if selected == [] {
      assert Kept(c, start, end) == map[];
      return Err(NothingSelected);
    }
    assert selected[0] in Kept(c, start, end);
    var tensors := LoadTensors(c, selected);
    assert tensors == Kept(c, start, end);
    var bitmap := MarkBlocks(selected);
    assert NameSet(selected) == tensors.Keys;
    LayersOfBitmap(BlocksNamed(tensors.Keys));
    LayersDetermine(bitmap[..], BitmapOf(BlocksNamed(tensors.Keys)));
    r := Ok(Content(c.numLayers, tensors, Some(SplitRange(start, end)), Some(bitmap[..])));
  }
}
