/**
  `streaming_write_pgguf`: header, metadata and tensor infos with placeholder offsets, a second
  pass that seeks back to patch the offsets, and the raw copy of the tensor data.
*/
module PggufWriter {
  import opened Bytes
  import opened Common
  import opened PggufLayout
  import PggufReader
  import Sorting

  /** The output file behind the buffered writer. */
  class SeekWriter {
    var data: seq<Byte>
    var pos: nat

    constructor ()
      ensures data == [] && pos == 0
    {
      data, pos := [], 0;
    }

    method WriteAll(bs: seq<Byte>)
      requires pos <= |data|
      modifies this
      ensures data == Overwrite(old(data), old(pos), bs)
      ensures pos == old(pos) + |bs|
    {
      data := Overwrite(data, pos, bs);
      pos := pos + |bs|;
    }

    /** `write_all` with the cursor at the end of the file. */
    method Append(bs: seq<Byte>)
      requires pos == |data|
      modifies this
      ensures pos == |data| && data == old(data) + bs
    {
      WriteAll(bs);
    }

    method Seek(p: nat)
      modifies this`pos
      ensures pos == p
    {
      pos := p;
    }
  }

  /** The source file; a read returns some of the bytes left, none only at the end. */
  class Reader {
    const src: seq<Byte>
    var pos: nat

    constructor (src: seq<Byte>)
      ensures this.src == src && pos == 0
    {
      this.src, pos := src, 0;
    }

    method Read(capacity: nat) returns (chunk: seq<Byte>)
      requires capacity > 0
      modifies this`pos
      ensures |chunk| <= capacity
      ensures chunk == [] <==> old(pos) >= |src|
      ensures old(pos) < |src| ==> pos == old(pos) + |chunk| <= |src| && chunk == src[old(pos)..pos]
    {
      if pos >= |src| {
        return [];
      }
      var n :| 0 < n <= capacity && pos + n <= |src|;
      chunk := src[pos..pos + n];
      pos := pos + n;
    }
  }

  datatype Content = Content(metadata: Metadata, tensors: seq<TensorInfo>, tensorDataOffset: nat)

  datatype Error = UnsupportedDType

  /** U8/I8/U16/I16 become U32/I32. */
  function Normalize(v: Value): Value {
    match v
    case U8(u) => U32(u)
    case I8(i) => I32(i)
    case U16(u) => U32(u)
    case I16(i) => I32(i)
    case _ => v
  }

  function Normalized(md: Metadata): (r: Metadata)
    ensures |r| == |md|
  {
    seq(|md|, i requires 0 <= i < |md| => (md[i].0, Normalize(md[i].1)))
  }

  /** Numbers are kept, small integers in 32 bits of the same signedness; everything else is as it was. */
  ghost predicate Widened(v: Value, w: Value) {
    && (v.U8? || v.U16? ==> w.U32? && w.u == v.u)
    && (v.I8? || v.I16? ==> w.I32? && w.i == v.i)
    && (!v.U8? && !v.U16? && !v.I8? && !v.I16? ==> w == v)
  }

  lemma NormalizedIsWidened(md: Metadata)
    ensures forall i :: 0 <= i < |md| ==> Normalized(md)[i].0 == md[i].0 && Widened(md[i].1, Normalized(md)[i].1)
  {
  }

  /** Bytewise order. */
  predicate LexLeq(a: Text, b: Text) {
    a == [] || (b != [] && (a[0] < b[0] || (a[0] == b[0] && LexLeq(a[1..], b[1..]))))
  }

  lemma {:induction false} LexTotal(a: Text, b: Text)
    ensures LexLeq(a, b) || LexLeq(b, a)
  {
    if a != [] && b != [] {
      LexTotal(a[1..], b[1..]);
    }
  }

  lemma {:induction false} LexTransitive(a: Text, b: Text, c: Text)
    requires LexLeq(a, b) && LexLeq(b, c)
    ensures LexLeq(a, c)
  {
    if a != [] && a[0] == b[0] == c[0] {
      LexTransitive(a[1..], b[1..], c[1..]);
    }
  }

  lemma {:induction false} LexAntisymmetric(a: Text, b: Text)
    requires LexLeq(a, b) && LexLeq(b, a)
    ensures a == b
  {
    if a != [] {
      LexAntisymmetric(a[1..], b[1..]);
      assert a == [a[0]] + a[1..] && b == [b[0]] + b[1..];
    }
  }

  /** k is where two texts part: they agree before, and one ends there or has another byte. */
  ghost predicate PartAt(a: Text, b: Text, k: nat) {
    && k <= |a| && k <= |b| && a[..k] == b[..k]
    && (k < |a| && k < |b| ==> a[k] != b[k])
  }

  /** Where two texts part, the lesser one has ended or has the lesser byte. */
  lemma {:induction false} LexMeans(a: Text, b: Text, k: nat)
    requires PartAt(a, b, k)
    ensures LexLeq(a, b) <==> k == |a| || (k < |b| && a[k] < b[k])
  {
    if k > 0 {
      assert a[0] == a[..k][0] == b[..k][0] == b[0];
      assert a[1..][..k - 1] == a[..k][1..] == b[..k][1..] == b[1..][..k - 1];
      LexMeans(a[1..], b[1..], k - 1);
    }
  }

  function ByName(): (TensorInfo, TensorInfo) -> bool {
    (a: TensorInfo, b: TensorInfo) => LexLeq(a.name, b.name)
  }

  function ByKey(): ((Text, Value), (Text, Value)) -> bool {
    (a: (Text, Value), b: (Text, Value)) => LexLeq(a.0, b.0)
  }

  ghost predicate NameOrdered(ts: seq<TensorInfo>) {
    forall i, j :: 0 <= i < j < |ts| ==> LexLeq(ts[i].name, ts[j].name)
  }

  ghost predicate KeyOrdered(md: Metadata) {
    forall i, j :: 0 <= i < j < |md| ==> LexLeq(md[i].0, md[j].0)
  }

  lemma ByNameOrders()
    ensures Sorting.TotalPreorder(ByName())
  {
    forall x: TensorInfo, y: TensorInfo ensures ByName()(x, y) || ByName()(y, x) {
      LexTotal(x.name, y.name);
    }
    forall x: TensorInfo, y: TensorInfo, z: TensorInfo | ByName()(x, y) && ByName()(y, z) ensures ByName()(x, z) {
      LexTransitive(x.name, y.name, z.name);
    }
  }

  lemma ByKeyOrders()
    ensures Sorting.TotalPreorder(ByKey())
  {
    forall x: (Text, Value), y: (Text, Value) ensures ByKey()(x, y) || ByKey()(y, x) {
      LexTotal(x.0, y.0);
    }
    forall x: (Text, Value), y: (Text, Value), z: (Text, Value) | ByKey()(x, y) && ByKey()(y, z) ensures ByKey()(x, z) {
      LexTransitive(x.0, y.0, z.0);
    }
  }

  function ModelIdKey(): Text {
    [112, 108, 101, 105, 97, 100, 101, 115, 46, 109, 111, 100, 101, 108, 95, 105, 100]
  }

  function BitmapKey(): Text {
    [112, 108, 101, 105, 97, 100, 101, 115, 46, 108, 97, 121, 101, 114, 95, 98, 105, 116, 109, 97, 112]
  }

  /** The metadata of the converted file, in key order. */
  function OutputMetadata(c: Content, modelId: nat, bitmapHex: Text): Metadata {
    Sorting.Sort(Normalized(c.metadata) + [(ModelIdKey(), U32(modelId)), (BitmapKey(), String(bitmapHex))],
                 ByKey())
  }

  /** The tensors in name order. */
  function OutputTensors(c: Content): seq<TensorInfo> {
    Sorting.Sort(c.tensors, ByName())
  }

  /** The tensors written are in name order, and are those there are to write. */
  lemma TensorsInOrder(c: Content)
    ensures NameOrdered(OutputTensors(c)) && multiset(OutputTensors(c)) == multiset(c.tensors)
  {
    ByNameOrders();
    Sorting.SortSorts(c.tensors, ByName());
    var ts := OutputTensors(c);
    assert forall i, j :: 0 <= i < j < |ts| ==> ByName()(ts[i], ts[j]);
  }

  /** The metadata written is in key order: that of the source, and the two entries added. */
  lemma MetadataInOrder(c: Content, modelId: nat, bitmapHex: Text)
    ensures KeyOrdered(OutputMetadata(c, modelId, bitmapHex))
    ensures multiset(OutputMetadata(c, modelId, bitmapHex))
         == multiset(Normalized(c.metadata)) + multiset{(ModelIdKey(), U32(modelId)), (BitmapKey(), String(bitmapHex))}
  {
    ByKeyOrders();
    var added := [(ModelIdKey(), U32(modelId)), (BitmapKey(), String(bitmapHex))];
    Sorting.SortSorts(Normalized(c.metadata) + added, ByKey());
    assert multiset(added) == multiset{added[0], added[1]};
    var md := OutputMetadata(c, modelId, bitmapHex);
    assert forall i, j :: 0 <= i < j < |md| ==> ByKey()(md[i], md[j]);
  }

  /** Names tell the tensors apart. */
  ghost predicate NamesDiffer(ts: multiset<TensorInfo>) {
    forall s, t :: s in ts && t in ts && s.name == t.name ==> s == t
  }

  /** Tensors with names of their own have just one name order. */
  lemma OrderedIsUnique(a: seq<TensorInfo>, b: seq<TensorInfo>)
    requires NameOrdered(a) && NameOrdered(b) && multiset(a) == multiset(b) && NamesDiffer(multiset(a))
    ensures a == b
  {
    ByNameOrders();
    forall s, t | s in multiset(a) && t in multiset(a) && ByName()(s, t) && ByName()(t, s) ensures s == t {
      LexAntisymmetric(s.name, t.name);
    }
    Sorting.SortedIsUnique(a, b, ByName());
  }

  /** The order in which the tensors come out of their hash map does not show. */
  lemma OutputIgnoresMapOrder(c: Content, d: Content)
    requires multiset(c.tensors) == multiset(d.tensors) && NamesDiffer(multiset(c.tensors))
    ensures OutputTensors(c) == OutputTensors(d)
  {
    TensorsInOrder(c);
    TensorsInOrder(d);
    OrderedIsUnique(OutputTensors(c), OutputTensors(d));
  }

  /** The output metadata: the two entries of the program, and those of the source widened. */
  ghost predicate IsOutput(c: Content, modelId: nat, bitmapHex: Text, md: Metadata) {
    exists widened: Metadata ::
      && |widened| == |c.metadata|
      && (forall i :: 0 <= i < |widened| ==>
            widened[i].0 == c.metadata[i].0 && Widened(c.metadata[i].1, widened[i].1))
      && multiset(md) == multiset(widened) + multiset{
           (Ascii("pleiades.model_id"), U32(modelId)),
           (Ascii("pleiades.layer_bitmap"), String(bitmapHex))}
  }

  lemma KeysAreSpelt()
    ensures ModelIdKey() == Ascii("pleiades.model_id")
    ensures BitmapKey() == Ascii("pleiades.layer_bitmap")
  {
  }

  lemma OutputMeans(c: Content, modelId: nat, bitmapHex: Text)
    ensures IsOutput(c, modelId, bitmapHex, OutputMetadata(c, modelId, bitmapHex))
  {
    MetadataInOrder(c, modelId, bitmapHex);
    NormalizedIsWidened(c.metadata);
    KeysAreSpelt();
  }

  function RawData(c: Content, src: seq<Byte>): seq<Byte> {
    if c.tensorDataOffset <= |src| then src[c.tensorDataOffset..] else []
  }

  lemma Assoc(a: seq<Byte>, b: seq<Byte>, c: seq<Byte>)
    ensures (a + b) + c == a + (b + c)
  {
  }

  method WriteString(w: SeekWriter, s: Text)
    requires w.pos == |w.data|
    modifies w
    ensures w.pos == |w.data| && w.data == old(w.data) + GgufString(s)
  {
    w.Append(LE(|s|, 8));
    w.Append(s);
    Assoc(old(w.data), LE(|s|, 8), s);
  }

  method WriteEntry(w: SeekWriter, name: Text, value: Value)
    requires w.pos == |w.data|
    modifies w
    ensures w.pos == |w.data| && w.data == old(w.data) + MetaEntry((name, value))
  {
    WriteString(w, name);
    w.Append(LE(TypeCode(value), 4));
    Assoc(old(w.data), GgufString(name), LE(TypeCode(value), 4));
    w.Append(Emit(value));
    Assoc(old(w.data), GgufString(name) + LE(TypeCode(value), 4), Emit(value));
  }

  method WriteHeader(w: SeekWriter, tensors: nat, keys: nat)
    requires w.data == [] && w.pos == 0
    modifies w
    ensures w.pos == |w.data| && w.data == Header(tensors, keys)
  {
    w.Append(LE(0x46554747, 4));
    w.Append(LE(2, 4));
    w.Append(LE(tensors, 8));
    w.Append(LE(keys, 8));
  }

  method WriteMetadata(w: SeekWriter, md: Metadata)
    requires w.pos == |w.data|
    modifies w
    ensures w.pos == |w.data| && w.data == old(w.data) + MetaBytes(md)
  {
    for i := 0 to |md|
      invariant w.pos == |w.data|
      invariant w.data == old(w.data) + MetaBytes(md[..i])
    {
      assert md[..i + 1][..i] == md[..i];
      WriteEntry(w, md[i].0, md[i].1);
      Assoc(old(w.data), MetaBytes(md[..i]), MetaEntry(md[i]));
    }
    assert md[..|md|] == md;
  }

  method WriteDims(w: SeekWriter, dims: seq<nat>)
    requires w.pos == |w.data|
    modifies w
    ensures w.pos == |w.data| && w.data == old(w.data) + ReversedDims(dims)
  {
    var k := |dims|;
    assert dims[..k] == dims;
    while k > 0
      invariant 0 <= k <= |dims| && w.pos == |w.data|
      invariant w.data + ReversedDims(dims[..k]) == old(w.data) + ReversedDims(dims)
    {
      k := k - 1;
      assert dims[..k + 1][..k] == dims[..k];
      Assoc(w.data, LE(dims[k], 8), ReversedDims(dims[..k]));
      w.Append(LE(dims[k], 8));
    }
    assert w.data + ReversedDims(dims[..0]) == w.data;
  }

  method WriteInfo(w: SeekWriter, t: TensorInfo)
    requires w.pos == |w.data| && Writable(t)
    modifies w
    ensures w.pos == |w.data| && w.data == old(w.data) + InfoHead(t) + LE(0, 8)
  {
    ghost var a, b, c := GgufString(t.name), LE(|t.dims|, 4), ReversedDims(t.dims);
    WriteString(w, t.name);
    w.Append(LE(|t.dims|, 4));
    Assoc(old(w.data), a, b);
    WriteDims(w, t.dims);
    Assoc(old(w.data), a + b, c);
    w.Append(LE(DTypeCode(t.dtype), 4));
    Assoc(old(w.data), a + b + c, LE(DTypeCode(t.dtype), 4));
    w.Append(LE(0, 8));
  }

  lemma ExtendInfos(ts: seq<TensorInfo>, i: nat)
    requires i < |ts| && AllWritable(ts[..i + 1])
    ensures AllWritable(ts[..i])
    ensures InfoBytes(ts[..i + 1], ZeroFields(i + 1)) == InfoBytes(ts[..i], ZeroFields(i)) + InfoHead(ts[i]) + LE(0, 8)
  {
    assert ts[..i + 1][..i] == ts[..i] && ZeroFields(i + 1)[..i] == ZeroFields(i);
  }

  lemma OneMoreInfo(before: seq<Byte>, ts: seq<TensorInfo>, i: nat)
    requires i < |ts| && AllWritable(ts[..i]) && Writable(ts[i])
    ensures AllWritable(ts[..i + 1])
    ensures before + InfoBytes(ts[..i], ZeroFields(i)) + InfoHead(ts[i]) + LE(0, 8)
         == before + InfoBytes(ts[..i + 1], ZeroFields(i + 1))
  {
    ExtendInfos(ts, i);
    Assoc(before, InfoBytes(ts[..i], ZeroFields(i)), InfoHead(ts[i]));
    Assoc(before, InfoBytes(ts[..i], ZeroFields(i)) + InfoHead(ts[i]), LE(0, 8));
  }

  /** Tensor infos with placeholders; bails out at the first dtype it cannot write. */
  method WriteInfos(w: SeekWriter, ts: seq<TensorInfo>) returns (r: Result<seq<nat>, Error>)
    requires w.pos == |w.data|
    requires forall i :: 0 <= i < |ts| ==> ts[i].blockSize > 0
    modifies w
    ensures r.Ok? <==> AllWritable(ts)
    ensures r.Ok? ==> w.pos == |w.data| && w.data == old(w.data) + InfoBytes(ts, ZeroFields(|ts|))
    ensures r.Ok? ==> |r.value| == |ts| && forall i :: 0 <= i < |ts| ==> r.value[i] == SizeInBytes(ts[i])
  {
    var sizes: seq<nat> := [];
    for i := 0 to |ts|
      invariant AllWritable(ts[..i])
      invariant w.pos == |w.data| && w.data == old(w.data) + InfoBytes(ts[..i], ZeroFields(i))
      invariant |sizes| == i && forall j :: 0 <= j < i ==> sizes[j] == SizeInBytes(ts[j])
    {
      if ts[i].dtype == OtherDType {
        return Err(UnsupportedDType);
      }
      assert Writable(ts[i]);
      WriteInfo(w, ts[i]);
      OneMoreInfo(old(w.data), ts, i);
      sizes := sizes + [SizeInBytes(ts[i])];
    }
    assert ts[..|ts|] == ts;
    r := Ok(sizes);
  }

  /** Recomputes the position of every offset field from scratch. */
  method OffsetPositions(md: Metadata, ts: seq<TensorInfo>, sizes: seq<nat>) returns (fields: seq<(nat, nat)>)
    requires |sizes| == |ts|
    ensures |fields| == |ts|
    ensures forall i :: 0 <= i < |ts| ==> fields[i] == (FieldPosition(md, ts, i), sizes[i])
  {
    var pos := 24;
    for i := 0 to |md|
      invariant pos == MetaEnd(md[..i])
    {
      assert md[..i + 1][..i] == md[..i];
      pos := pos + (8 + |md[i].0|);
      pos := pos + 4;
      pos := pos + Size(md[i].1);
    }
    assert md[..|md|] == md;
    fields := [];
    for i := 0 to |ts|
      invariant pos == InfoEnd(md, ts, i)
      invariant |fields| == i && forall j :: 0 <= j < i ==> fields[j] == (FieldPosition(md, ts, j), sizes[j])
    {
      pos := pos + (8 + |ts[i].name|);
      pos := pos + 4;
      pos := pos + |ts[i].dims| * 8;
      pos := pos + 4;
      fields := fields + [(pos, sizes[i])];
      pos := pos + 8;
    }
  }

  /** The first n offset fields patched, the others still placeholders. */
  ghost function Patched(ts: seq<TensorInfo>, n: nat): (fields: seq<nat>)
    requires AllWritable(ts) && n <= |ts|
    ensures |fields| == |ts|
    ensures forall i :: 0 <= i < |ts| ==> fields[i] == if i < n then RecordedOffset(ts, i) else 0
  {
    seq(|ts|, i requires 0 <= i < |ts| => if i < n then RecordedOffset(ts, i) else 0)
  }

  lemma PatchedEnds(ts: seq<TensorInfo>)
    requires AllWritable(ts)
    ensures Patched(ts, 0) == ZeroFields(|ts|) && Patched(ts, |ts|) == RecordedOffsets(ts)
  {
  }

  lemma PatchNext(md: Metadata, ts: seq<TensorInfo>, i: nat, rest: seq<Byte>)
    requires AllWritable(ts) && i < |ts|
    ensures var d := Front(md, ts, Patched(ts, i)) + rest;
      && FieldPosition(md, ts, i) <= |d|
      && Overwrite(d, FieldPosition(md, ts, i), LE(RecordedOffset(ts, i), 8))
         == Front(md, ts, Patched(ts, i + 1)) + rest
  {
    PatchSetsField(md, ts, Patched(ts, i), i, RecordedOffset(ts, i), rest);
    assert Patched(ts, i)[i := RecordedOffset(ts, i)] == Patched(ts, i + 1);
  }

  lemma NextOffset(ts: seq<TensorInfo>, i: nat, offset: nat, size: nat)
    requires AllWritable(ts) && i < |ts| && offset == RecordedOffset(ts, i) && size == SizeInBytes(ts[i])
    ensures RecordedOffset(ts, i + 1) == offset + size + Padding(size)
  {
  }

  method PatchOne(w: SeekWriter, ghost md: Metadata, ghost ts: seq<TensorInfo>, ghost i: nat,
                  at: nat, offset: nat, ghost rest: seq<Byte>)
    requires AllWritable(ts) && i < |ts| && at == FieldPosition(md, ts, i) && offset == RecordedOffset(ts, i)
    requires w.data == Front(md, ts, Patched(ts, i)) + rest
    modifies w
    ensures w.data == Front(md, ts, Patched(ts, i + 1)) + rest
  {
    PatchNext(md, ts, i, rest);
    w.Seek(at);
    w.WriteAll(LE(offset, 8));
  }

  method PatchOffsets(w: SeekWriter, ghost md: Metadata, ghost ts: seq<TensorInfo>, fields: seq<(nat, nat)>,
                      ghost rest: seq<Byte>)
    requires AllWritable(ts) && |fields| == |ts|
    requires forall i :: 0 <= i < |ts| ==> fields[i] == (FieldPosition(md, ts, i), SizeInBytes(ts[i]))
    requires w.data == Front(md, ts, ZeroFields(|ts|)) + rest
    modifies w
    ensures w.data == Front(md, ts, RecordedOffsets(ts)) + rest
  {
    var offset: nat := 0;
    PatchedEnds(ts);
    for i := 0 to |fields|
      invariant offset == RecordedOffset(ts, i)
      invariant w.data == Front(md, ts, Patched(ts, i)) + rest
    {
      var (at, size) := fields[i];
      PatchOne(w, md, ts, i, at, offset, rest);
      NextOffset(ts, i, offset, size);
      offset := offset + size + Padding(size);
    }
  }

  /** Copies everything from the tensor data offset to the end of the source. */
  method CopyTensorData(w: SeekWriter, reader: Reader, c: Content)
    requires w.pos == |w.data|
    modifies w, reader
    ensures w.data == old(w.data) + RawData(c, reader.src)
  {
    reader.pos := c.tensorDataOffset;
    var start := c.tensorDataOffset;
    while true
      invariant w.pos == |w.data|
      invariant start <= |reader.src| ==> start <= reader.pos <= |reader.src| &&
                                          w.data == old(w.data) + reader.src[start..reader.pos]
      invariant start > |reader.src| ==> reader.pos == start && w.data == old(w.data)
      decreases |reader.src| - reader.pos
    {
      var from := reader.pos;
      var chunk := reader.Read(8 * 1024 * 1024);
      if chunk == [] {
        break;
      }
      assert reader.src[start..from] + chunk == reader.src[start..reader.pos];
      w.Append(chunk);
    }
  }

  method WriteFront(w: SeekWriter, md: Metadata, ts: seq<TensorInfo>) returns (r: Result<seq<nat>, Error>)
    requires w.data == [] && w.pos == 0
    requires forall i :: 0 <= i < |ts| ==> ts[i].blockSize > 0
    modifies w
    ensures r.Ok? <==> AllWritable(ts)
    ensures r.Ok? ==> w.pos == |w.data| && w.data == Front(md, ts, ZeroFields(|ts|))
    ensures r.Ok? ==> |r.value| == |ts| && forall i :: 0 <= i < |ts| ==> r.value[i] == SizeInBytes(ts[i])
  {
    WriteHeader(w, |ts|, |md|);
    WriteMetadata(w, md);
    r := WriteInfos(w, ts);
  }

  method WritePadding(w: SeekWriter)
    requires w.pos == |w.data|
    modifies w
    ensures w.pos == |w.data| && w.data == old(w.data) + Zeros(Padding(|old(w.data)|))
  {
    var padding := Padding(w.pos);
    if padding > 0 {
      w.Append(Zeros(padding));
    } else {
      assert Zeros(0) == [];
    }
  }

  lemma FrontSize(md: Metadata, ts: seq<TensorInfo>)
    requires AllWritable(ts)
    ensures |Front(md, ts, ZeroFields(|ts|))| == |Front(md, ts, RecordedOffsets(ts))|
  {
    FieldsKeepLength(ts, ZeroFields(|ts|), RecordedOffsets(ts));
  }

  lemma FileInParts(md: Metadata, ts: seq<TensorInfo>, padding: nat, tensorData: seq<Byte>)
    requires AllWritable(ts) && padding == Padding(|Front(md, ts, RecordedOffsets(ts))|)
    ensures FileBytes(md, ts, tensorData) == Front(md, ts, RecordedOffsets(ts)) + Zeros(padding) + tensorData
  {
  }

  /** The two passes over sorted metadata and tensors. */
  method WriteFile(w: SeekWriter, reader: Reader, c: Content, md: Metadata, ts: seq<TensorInfo>)
    returns (r: Result<(), Error>)
    requires w.data == [] && w.pos == 0
    requires forall i :: 0 <= i < |ts| ==> ts[i].blockSize > 0
    modifies w, reader
    ensures r.Ok? <==> AllWritable(ts)
    ensures r.Ok? ==> w.data == FileBytes(md, ts, RawData(c, reader.src))
  {
    var sizes := WriteFront(w, md, ts);
    if sizes.Err? {
      return Err(sizes.error);
    }
    ghost var padding := Padding(w.pos);
    FrontSize(md, ts);
    WritePadding(w);
    var dataStart := w.pos;
    var fields := OffsetPositions(md, ts, sizes.value);
    PatchOffsets(w, md, ts, fields, Zeros(padding));
    w.Seek(dataStart);
    CopyTensorData(w, reader, c);
    FileInParts(md, ts, padding, RawData(c, reader.src));
    r := Ok(());
  }

  lemma SortedKeepsBlocks(c: Content)
    requires forall t :: t in c.tensors ==> t.blockSize > 0
    ensures forall i :: 0 <= i < |OutputTensors(c)| ==> OutputTensors(c)[i].blockSize > 0
  {
    var ts := OutputTensors(c);
    forall i | 0 <= i < |ts| ensures ts[i].blockSize > 0 {
      assert ts[i] in multiset(ts);
    }
  }

  /**
    The two passes leave the file that a writer knowing the offsets beforehand would have
    written front to back; a reader of its bytes finds what was to be written. The call fails exactly
    when some dtype is not supported.
  */
  method StreamingWritePgguf(reader: Reader, c: Content, modelId: nat, bitmapHex: Text)
      returns (w: SeekWriter, r: Result<(), Error>)
    requires forall t :: t in c.tensors ==> t.blockSize > 0
    modifies reader
    ensures NameOrdered(OutputTensors(c)) && KeyOrdered(OutputMetadata(c, modelId, bitmapHex))
    ensures r.Ok? <==> AllWritable(OutputTensors(c))
    ensures r.Ok? ==>
      w.data == FileBytes(OutputMetadata(c, modelId, bitmapHex), OutputTensors(c), RawData(c, reader.src))
    ensures IsOutput(c, modelId, bitmapHex, OutputMetadata(c, modelId, bitmapHex))
    ensures multiset(OutputTensors(c)) == multiset(c.tensors)
    ensures r.Ok? && PggufReader.Representable(OutputMetadata(c, modelId, bitmapHex), OutputTensors(c)) ==>
      PggufReader.Holds(w.data, OutputMetadata(c, modelId, bitmapHex), OutputTensors(c),
                        if c.tensorDataOffset <= |reader.src| then reader.src[c.tensorDataOffset..] else [])
  {
    w := new SeekWriter();
    TensorsInOrder(c);
    MetadataInOrder(c, modelId, bitmapHex);
    SortedKeepsBlocks(c);
    OutputMeans(c, modelId, bitmapHex);
    ghost var md, ts := OutputMetadata(c, modelId, bitmapHex), OutputTensors(c);
    r := WriteFile(w, reader, c, OutputMetadata(c, modelId, bitmapHex), OutputTensors(c));
    if PggufReader.Representable(md, ts) {
      PggufReader.WrittenFileReads(md, ts, RawData(c, reader.src));
    }
  }
}
