/**
  The bytes of a PGGUF file (GGUF specification, section "File Structure", version 2) and the
  positions the converter computes for them.
*/
module PggufLayout {
  import opened Bytes

  type Text = seq<Byte>

  /** A metadata value; integers are values, floats are their bit patterns. */
  datatype Value =
    | U8(u: nat) | I8(i: int) | U16(u: nat) | I16(i: int)
    | U32(u: nat) | I32(i: int) | U64(u: nat) | I64(i: int)
    | F32(bits: nat) | F64(bits: nat) | Bool(b: bool)
    | String(s: Text) | Array(elems: seq<Value>)

  function TypeCode(v: Value): nat {
    match v
    case U8(_) => 0    case I8(_) => 1    case U16(_) => 2   case I16(_) => 3
    case U32(_) => 4   case I32(_) => 5   case F32(_) => 6   case Bool(_) => 7
    case String(_) => 8  case Array(_) => 9
    case U64(_) => 10  case I64(_) => 11  case F64(_) => 12
  }

  function GgufString(s: Text): (bs: seq<Byte>)
    ensures |bs| == 8 + |s|
  {
    LE(|s|, 8) + s
  }

  function Signed(i: int, width: nat): seq<Byte> {
    LE(i % Pow256(width), width)
  }

  /** `write_gguf_value`. */
  function Emit(v: Value): seq<Byte>
    decreases v, 1
  {
    match v
    case U8(u) => LE(u, 1)
    case I8(i) => Signed(i, 1)
    case U16(u) => LE(u, 2)
    case I16(i) => Signed(i, 2)
    case U32(u) => LE(u, 4)
    case I32(i) => Signed(i, 4)
    case U64(u) => LE(u, 8)
    case I64(i) => Signed(i, 8)
    case F32(bits) => LE(bits, 4)
    case F64(bits) => LE(bits, 8)
    case Bool(b) => [if b then 1 else 0]
    case String(s) => GgufString(s)
    case Array(elems) =>
      LE(if elems == [] then 4 else TypeCode(elems[0]), 4) + LE(|elems|, 8) + EmitAll(elems)
  }

  function EmitAll(vs: seq<Value>): seq<Byte>
    decreases vs, 0
  {
    if vs == [] then [] else Emit(vs[0]) + EmitAll(vs[1..])
  }

  /** `gguf_value_size`. */
  function Size(v: Value): nat
    decreases v, 1
  {
    match v
    case U8(_) => 1    case I8(_) => 1    case Bool(_) => 1
    case U16(_) => 2   case I16(_) => 2
    case U32(_) => 4   case I32(_) => 4   case F32(_) => 4
    case U64(_) => 8   case I64(_) => 8   case F64(_) => 8
    case String(s) => 8 + |s|
    case Array(elems) => 12 + SizeAll(elems)
  }

  function SizeAll(vs: seq<Value>): nat
    decreases vs, 0
  {
    if vs == [] then 0 else Size(vs[0]) + SizeAll(vs[1..])
  }

  /** The size used to recompute positions is the number of bytes written, nested arrays included. */
  lemma {:induction false} SizeIsEmittedLength(v: Value)
    ensures |Emit(v)| == Size(v)
    decreases v, 1
  {
    if v.Array? {
      SizeIsEmittedLengthAll(v.elems);
    }
  }

  lemma {:induction false} SizeIsEmittedLengthAll(vs: seq<Value>)
    ensures |EmitAll(vs)| == SizeAll(vs)
    decreases vs, 0
  {
    if vs != [] {
      SizeIsEmittedLength(vs[0]);
      SizeIsEmittedLengthAll(vs[1..]);
    }
  }

  type Metadata = seq<(Text, Value)>

  function MetaEntry(kv: (Text, Value)): seq<Byte> {
    GgufString(kv.0) + LE(TypeCode(kv.1), 4) + Emit(kv.1)
  }

  function MetaBytes(md: Metadata): seq<Byte> {
    if md == [] then [] else MetaBytes(md[..|md| - 1]) + MetaEntry(md[|md| - 1])
  }

  function Header(tensors: nat, keys: nat): (bs: seq<Byte>)
    ensures |bs| == 24
  {
    LE(0x46554747, 4) + LE(2, 4) + LE(tensors, 8) + LE(keys, 8)
  }

  datatype GgmlDType = F32 | F16 | Q4_0 | Q4_1 | Q5_0 | Q5_1 | Q8_0 | Q8_1
                     | Q2K | Q3K | Q4K | Q5K | Q6K | OtherDType

  function DTypeCode(d: GgmlDType): nat
    requires d != OtherDType
  {
    match d
    case F32 => 0   case F16 => 1   case Q4_0 => 2  case Q4_1 => 3
    case Q5_0 => 6  case Q5_1 => 7  case Q8_0 => 8  case Q8_1 => 9
    case Q2K => 10  case Q3K => 11  case Q4K => 12  case Q5K => 13  case Q6K => 14
  }

  /** A tensor of the source file; block and type size are those of its dtype. */
  datatype TensorInfo = TensorInfo(name: Text, dims: seq<nat>, dtype: GgmlDType,
                                   blockSize: nat, typeSize: nat, offset: nat)

  predicate Writable(t: TensorInfo) {
    t.dtype != OtherDType && t.blockSize > 0
  }

  function ElemCount(dims: seq<nat>): nat {
    if dims == [] then 1 else ElemCount(dims[..|dims| - 1]) * dims[|dims| - 1]
  }

  function SizeInBytes(t: TensorInfo): nat
    requires t.blockSize > 0
  {
    ElemCount(t.dims) / t.blockSize * t.typeSize
  }

  function ReversedDims(dims: seq<nat>): (bs: seq<Byte>)
    ensures |bs| == 8 * |dims|
  {
    if dims == [] then [] else LE(dims[|dims| - 1], 8) + ReversedDims(dims[..|dims| - 1])
  }

  /** A tensor info up to its offset field. */
  function InfoHead(t: TensorInfo): (bs: seq<Byte>)
    requires Writable(t)
    ensures |bs| == 8 + |t.name| + 4 + 8 * |t.dims| + 4
  {
    GgufString(t.name) + LE(|t.dims|, 4) + ReversedDims(t.dims) + LE(DTypeCode(t.dtype), 4)
  }

  ghost predicate AllWritable(ts: seq<TensorInfo>) {
    forall i :: 0 <= i < |ts| ==> Writable(ts[i])
  }

  /** The tensor infos with the given values in their offset fields. */
  function InfoBytes(ts: seq<TensorInfo>, fields: seq<nat>): (bs: seq<Byte>)
    requires AllWritable(ts) && |fields| == |ts|
  {
    if ts == [] then []
    else
      var n := |ts| - 1;
      InfoBytes(ts[..n], fields[..n]) + InfoHead(ts[n]) + LE(fields[n], 8)
  }

  function Padding(n: nat): (p: nat)
    ensures p < 32
    ensures (n + p) % 32 == 0
  {
    (32 - n % 32) % 32
  }

  function Zeros(n: nat): (z: seq<Byte>)
    ensures |z| == n && forall i :: 0 <= i < n ==> z[i] == 0
  {
    seq(n, _ => 0)
  }

  function ZeroFields(n: nat): (z: seq<nat>)
    ensures |z| == n && forall i :: 0 <= i < n ==> z[i] == 0
  {
    seq(n, _ => 0)
  }

  /** Offset recorded for tensor i: the padded sizes of the tensors before it. */
  function RecordedOffset(ts: seq<TensorInfo>, i: nat): nat
    requires AllWritable(ts) && i <= |ts|
  {
    if i == 0 then 0
    else
      var size := SizeInBytes(ts[i - 1]);
      RecordedOffset(ts, i - 1) + size + Padding(size)
  }

  function RecordedOffsets(ts: seq<TensorInfo>): (fields: seq<nat>)
    requires AllWritable(ts)
    ensures |fields| == |ts|
    ensures forall i :: 0 <= i < |ts| ==> fields[i] == RecordedOffset(ts, i)
  {
    seq(|ts|, i requires 0 <= i < |ts| => RecordedOffset(ts, i))
  }

  /** Everything before the tensor data, offset fields as given. */
  function Front(md: Metadata, ts: seq<TensorInfo>, fields: seq<nat>): seq<Byte>
    requires AllWritable(ts) && |fields| == |ts|
  {
    Header(|ts|, |md|) + MetaBytes(md) + InfoBytes(ts, fields)
  }

  /** The whole file, written front to back with the offsets known beforehand. */
  function FileBytes(md: Metadata, ts: seq<TensorInfo>, tensorData: seq<Byte>): seq<Byte>
    requires AllWritable(ts)
  {
    var front := Front(md, ts, RecordedOffsets(ts));
    front + Zeros(Padding(|front|)) + tensorData
  }

  // ---------------------------------------------------------------- positions of the second pass

  /** The running `pos` of the second pass after the metadata. */
  function MetaEnd(md: Metadata): nat {
    if md == [] then 24
    else
      var kv := md[|md| - 1];
      MetaEnd(md[..|md| - 1]) + (8 + |kv.0|) + 4 + Size(kv.1)
  }

  /** The running `pos` after i tensor infos. */
  function InfoEnd(md: Metadata, ts: seq<TensorInfo>, i: nat): nat
    requires i <= |ts|
  {
    if i == 0 then MetaEnd(md)
    else InfoEnd(md, ts, i - 1) + (8 + |ts[i - 1].name|) + 4 + 8 * |ts[i - 1].dims| + 4 + 8
  }

  /** Where the second pass believes the offset field of tensor i to be. */
  function FieldPosition(md: Metadata, ts: seq<TensorInfo>, i: nat): nat
    requires i < |ts|
  {
    InfoEnd(md, ts, i) + (8 + |ts[i].name|) + 4 + 8 * |ts[i].dims| + 4
  }

  lemma {:induction false} MetaEndIsLength(md: Metadata)
    ensures MetaEnd(md) == 24 + |MetaBytes(md)|
  {
    if md != [] {
      MetaEndIsLength(md[..|md| - 1]);
      SizeIsEmittedLength(md[|md| - 1].1);
    }
  }

  lemma {:induction false} InfoEndIsLength(md: Metadata, ts: seq<TensorInfo>, fields: seq<nat>, i: nat)
    requires AllWritable(ts) && |fields| == |ts| && i <= |ts|
    ensures InfoEnd(md, ts, i) == 24 + |MetaBytes(md)| + |InfoBytes(ts[..i], fields[..i])|
  {
    if i == 0 {
      MetaEndIsLength(md);
    } else {
      InfoEndIsLength(md, ts, fields, i - 1);
      assert ts[..i][..i - 1] == ts[..i - 1] && fields[..i][..i - 1] == fields[..i - 1];
    }
  }

  /** The infos after the first k, offset fields as given. */
  function InfoTail(ts: seq<TensorInfo>, fields: seq<nat>, k: nat): seq<Byte>
    requires AllWritable(ts) && |fields| == |ts| && k <= |ts|
    decreases |ts| - k
  {
    if k == |ts| then [] else InfoHead(ts[k]) + LE(fields[k], 8) + InfoTail(ts, fields, k + 1)
  }

  lemma Regroup(a: seq<Byte>, b: seq<Byte>, c: seq<Byte>, d: seq<Byte>)
    ensures (a + b + c) + d == a + (b + c + d)
  {
  }

  lemma {:induction false} InfoSplit(ts: seq<TensorInfo>, fields: seq<nat>, k: nat)
    requires AllWritable(ts) && |fields| == |ts| && k <= |ts|
    ensures InfoBytes(ts, fields) == InfoBytes(ts[..k], fields[..k]) + InfoTail(ts, fields, k)
    decreases |ts| - k
  {
    if k == |ts| {
      assert ts[..k] == ts && fields[..k] == fields;
    } else {
      InfoSplit(ts, fields, k + 1);
      assert ts[..k + 1][..k] == ts[..k] && fields[..k + 1][..k] == fields[..k];
      Regroup(InfoBytes(ts[..k], fields[..k]), InfoHead(ts[k]), LE(fields[k], 8), InfoTail(ts, fields, k + 1));
    }
  }

  lemma {:induction false} TailIgnoresEarlierFields(ts: seq<TensorInfo>, f: seq<nat>, g: seq<nat>, k: nat)
    requires AllWritable(ts) && |f| == |ts| == |g| && k <= |ts|
    requires forall j :: k <= j < |ts| ==> f[j] == g[j]
    ensures InfoTail(ts, f, k) == InfoTail(ts, g, k)
    decreases |ts| - k
  {
    if k < |ts| {
      TailIgnoresEarlierFields(ts, f, g, k + 1);
    }
  }

  /** Writing at position p over what is there, as a seek followed by `write_all` does. */
  function Overwrite(d: seq<Byte>, p: nat, bs: seq<Byte>): seq<Byte>
    requires p <= |d|
  {
    d[..p] + bs + if p + |bs| < |d| then d[p + |bs|..] else []
  }

  lemma OverwriteMiddle(a: seq<Byte>, b: seq<Byte>, b': seq<Byte>, c: seq<Byte>)
    requires |b| == |b'|
    ensures Overwrite(a + b + c, |a|, b') == a + b' + c
  {
    var d := a + b + c;
    assert d[..|a|] == a;
    assert (if |a| + |b'| < |d| then d[|a| + |b'|..] else []) == c;
  }

  /** Everything before the offset field of tensor k. */
  function BeforeField(md: Metadata, ts: seq<TensorInfo>, fields: seq<nat>, k: nat): seq<Byte>
    requires AllWritable(ts) && |fields| == |ts| && k < |ts|
  {
    Header(|ts|, |md|) + MetaBytes(md) + InfoBytes(ts[..k], fields[..k]) + InfoHead(ts[k])
  }

  lemma FrontAroundField(md: Metadata, ts: seq<TensorInfo>, fields: seq<nat>, k: nat)
    requires AllWritable(ts) && |fields| == |ts| && k < |ts|
    ensures |BeforeField(md, ts, fields, k)| == FieldPosition(md, ts, k)
    ensures Front(md, ts, fields)
         == BeforeField(md, ts, fields, k) + LE(fields[k], 8) + InfoTail(ts, fields, k + 1)
  {
    InfoSplit(ts, fields, k);
    InfoEndIsLength(md, ts, fields, k);
    RegroupField(Header(|ts|, |md|) + MetaBytes(md), InfoBytes(ts[..k], fields[..k]), InfoHead(ts[k]),
                 LE(fields[k], 8), InfoTail(ts, fields, k + 1));
  }

  lemma RegroupField(a: seq<Byte>, b: seq<Byte>, c: seq<Byte>, d: seq<Byte>, e: seq<Byte>)
    ensures a + (b + (c + d + e)) == a + b + c + d + e
  {
  }

  /** Before patching, the bytes at each recomputed position are the placeholder of that tensor. */
  lemma FieldPositionIsPlaceholder(md: Metadata, ts: seq<TensorInfo>, fields: seq<nat>, k: nat)
    requires AllWritable(ts) && |fields| == |ts| && k < |ts|
    ensures var p := FieldPosition(md, ts, k);
      p + 8 <= |Front(md, ts, fields)| && Front(md, ts, fields)[p..p + 8] == LE(fields[k], 8)
  {
    FrontAroundField(md, ts, fields, k);
    MiddleSlice(BeforeField(md, ts, fields, k), LE(fields[k], 8), InfoTail(ts, fields, k + 1));
  }

  lemma MiddleSlice(a: seq<Byte>, b: seq<Byte>, c: seq<Byte>)
    ensures (a + b + c)[|a|..|a| + |b|] == b
  {
  }

  /**
    A patch at the recomputed position rewrites the offset field of tensor k and nothing else:
    the file is the one that was written with that field.
  */
  lemma PatchSetsField(md: Metadata, ts: seq<TensorInfo>, fields: seq<nat>, k: nat, value: nat, rest: seq<Byte>)
    requires AllWritable(ts) && |fields| == |ts| && k < |ts|
    ensures FieldPosition(md, ts, k) + 8 <= |Front(md, ts, fields)|
    ensures Overwrite(Front(md, ts, fields) + rest, FieldPosition(md, ts, k), LE(value, 8))
         == Front(md, ts, fields[k := value]) + rest
  {
    var fields' := fields[k := value];
    FrontAroundField(md, ts, fields, k);
    FrontAroundField(md, ts, fields', k);
    assert fields'[..k] == fields[..k];
    TailIgnoresEarlierFields(ts, fields, fields', k + 1);
    var before, tail := BeforeField(md, ts, fields, k), InfoTail(ts, fields, k + 1);
    Regroup3(before, LE(fields[k], 8), tail, rest);
    Regroup3(before, LE(value, 8), tail, rest);
    OverwriteMiddle(before, LE(fields[k], 8), LE(value, 8), tail + rest);
  }

  lemma Regroup3(a: seq<Byte>, b: seq<Byte>, c: seq<Byte>, d: seq<Byte>)
    ensures (a + b + c) + d == a + b + (c + d)
  {
  }

  lemma {:induction false} FieldsKeepLength(ts: seq<TensorInfo>, f: seq<nat>, g: seq<nat>)
    requires AllWritable(ts) && |f| == |ts| == |g|
    ensures |InfoBytes(ts, f)| == |InfoBytes(ts, g)|
  {
    if ts != [] {
      var n := |ts| - 1;
      FieldsKeepLength(ts[..n], f[..n], g[..n]);
    }
  }

  // ---------------------------------------------------------------- offsets and tensor data

  lemma {:induction false} OffsetsAligned(ts: seq<TensorInfo>, i: nat)
    requires AllWritable(ts) && i <= |ts|
    ensures RecordedOffset(ts, i) % 32 == 0
  {
    if i > 0 {
      OffsetsAligned(ts, i - 1);
      AlignedSum(RecordedOffset(ts, i - 1), SizeInBytes(ts[i - 1]));
    }
  }

  lemma AlignedSum(a: nat, size: nat)
    requires a % 32 == 0
    ensures (a + size + Padding(size)) % 32 == 0
  {
    var b := size + Padding(size);
    assert a == a / 32 * 32 && b == b / 32 * 32;
    assert a + b == (a / 32 + b / 32) * 32;
  }

  /** Recorded tensors never overlap, and non-empty ones have strictly increasing offsets. */
  lemma {:induction false} OffsetsDisjoint(ts: seq<TensorInfo>, i: nat, j: nat)
    requires AllWritable(ts) && i < j <= |ts|
    ensures RecordedOffset(ts, i) + SizeInBytes(ts[i]) <= RecordedOffset(ts, j)
    ensures SizeInBytes(ts[i]) > 0 ==> RecordedOffset(ts, i) < RecordedOffset(ts, j)
  {
    if i < j - 1 {
      OffsetsDisjoint(ts, i, j - 1);
    }
  }

  /** The tensor data area starts on a 32-byte boundary, at the first one after the infos. */
  function DataStart(md: Metadata, ts: seq<TensorInfo>): (p: nat)
    requires AllWritable(ts)
    ensures p % 32 == 0
  {
    var n := |Front(md, ts, RecordedOffsets(ts))|;
    n + Padding(n)
  }

  /** The source file lays the tensors in this order, each padded to 32 bytes. */
  ghost predicate PackedInOrder(ts: seq<TensorInfo>)
    requires AllWritable(ts)
  {
    && (|ts| > 0 ==> ts[0].offset == 0)
    && forall i {:trigger ts[i].offset} :: 0 < i < |ts| ==>
         ts[i].offset == ts[i - 1].offset + SizeInBytes(ts[i - 1]) + Padding(SizeInBytes(ts[i - 1]))
  }

  lemma {:induction false} PackedOffset(ts: seq<TensorInfo>, i: nat)
    requires AllWritable(ts) && PackedInOrder(ts) && i < |ts|
    ensures RecordedOffset(ts, i) == ts[i].offset
  {
    if i > 0 {
      PackedOffset(ts, i - 1);
      assert ts[i].offset == ts[i - 1].offset + SizeInBytes(ts[i - 1]) + Padding(SizeInBytes(ts[i - 1]));
    }
  }

  /** The recorded offsets are the source offsets exactly when the source is packed in this order. */
  lemma OffsetsMatchIff(ts: seq<TensorInfo>)
    requires AllWritable(ts)
    ensures PackedInOrder(ts) <==> forall i :: 0 <= i < |ts| ==> RecordedOffset(ts, i) == ts[i].offset
  {
    if PackedInOrder(ts) {
      forall i | 0 <= i < |ts| ensures RecordedOffset(ts, i) == ts[i].offset {
        PackedOffset(ts, i);
      }
    }
    if forall i :: 0 <= i < |ts| ==> RecordedOffset(ts, i) == ts[i].offset {
      forall i | 0 < i < |ts|
        ensures ts[i].offset == ts[i - 1].offset + SizeInBytes(ts[i - 1]) + Padding(SizeInBytes(ts[i - 1]))
      {
        assert RecordedOffset(ts, i) == ts[i].offset && RecordedOffset(ts, i - 1) == ts[i - 1].offset;
      }
    }
  }
}
