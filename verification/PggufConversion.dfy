/**
  What the conversion to PGGUF does to the tensors. The offsets are recorded in name order, the data is
  copied as it lies, and a reader finds the data area at the alignment that the metadata names.
*/
module PggufConversion {
  import opened Bytes
  import opened Common
  import opened PggufLayout
  import opened PggufReader
  import opened PggufWriter

  /** Where a reader takes the tensor data to start. */
  function ReaderStart(md: Metadata, ts: seq<TensorInfo>): nat
    requires AllWritable(ts)
  {
    RoundUp(|Front(md, ts, RecordedOffsets(ts))|, Alignment(md))
  }

  /** Unless the metadata names another alignment, reader and writer agree on the data area. */
  lemma DefaultStart(md: Metadata, ts: seq<TensorInfo>)
    requires AllWritable(ts) && Alignment(md) == 32
    ensures ReaderStart(md, ts) == DataStart(md, ts)
  {
    RoundUp32(|Front(md, ts, RecordedOffsets(ts))|);
  }

  /** n bytes from position p on, if they are there. */
  function ReadAt(file: seq<Byte>, p: nat, n: nat): Option<seq<Byte>> {
    if n == 0 then Some([]) else if p + n <= |file| then Some(file[p..p + n]) else None
  }

  /** Tensor i of the source, from its data area. */
  function FromSource(ts: seq<TensorInfo>, tensorData: seq<Byte>, i: nat): Option<seq<Byte>>
    requires AllWritable(ts) && i < |ts|
  {
    ReadAt(tensorData, ts[i].offset, SizeInBytes(ts[i]))
  }

  /** Tensor i of a converted file, for a reader that takes the data to start at `start`. */
  function FromConverted(file: seq<Byte>, ts: seq<TensorInfo>, start: nat, i: nat): Option<seq<Byte>>
    requires AllWritable(ts) && i < |ts|
  {
    ReadAt(file, start + RecordedOffset(ts, i), SizeInBytes(ts[i]))
  }

  /** The bytes of the converted file before the tensor data. */
  function BeforeData(md: Metadata, ts: seq<TensorInfo>): (bs: seq<Byte>)
    requires AllWritable(ts)
    ensures |bs| == DataStart(md, ts)
  {
    var front := Front(md, ts, RecordedOffsets(ts));
    front + Zeros(Padding(|front|))
  }

  lemma FileIsBeforeAndData(md: Metadata, ts: seq<TensorInfo>, tensorData: seq<Byte>)
    requires AllWritable(ts)
    ensures FileBytes(md, ts, tensorData) == BeforeData(md, ts) + tensorData
  {
  }

  /**
    With this front of the file, reading tensor i from the converted file gives what reading it from
    the source gives, failures included, whatever the data of that length.
  */
  ghost predicate AlwaysKept(before: seq<Byte>, ts: seq<TensorInfo>, start: nat, i: nat, len: nat)
    requires AllWritable(ts) && i < |ts|
  {
    forall data: seq<Byte> :: |data| == len ==> FromConverted(before + data, ts, start, i) == FromSource(ts, data, i)
  }

  lemma ReadBehind(before: seq<Byte>, d: seq<Byte>, p: nat, n: nat)
    ensures ReadAt(before + d, |before| + p, n) == ReadAt(d, p, n)
  {
    if n > 0 && p + n <= |d| {
      assert (before + d)[|before| + p..|before| + p + n] == d[p..p + n];
    }
  }

  /** Data that a read at p of the file and a read at q of the data itself tell apart. */
  function Telltale(before: seq<Byte>, len: nat, p: nat, q: nat): (d: seq<Byte>)
    ensures |d| == len
  {
    var mark: Byte := if p < |before| && before[p] == 1 then 2 else 1;
    seq(len, k => if k == q then mark else 0)
  }

  lemma TelltaleTells(before: seq<Byte>, len: nat, p: nat, q: nat, n: nat)
    requires n > 0 && p != |before| + q && (q + n <= len || p + n <= |before| + len)
    ensures var d := Telltale(before, len, p, q);
      ReadAt(before + d, p, n) != ReadAt(d, q, n)
  {
    var d := Telltale(before, len, p, q);
    if q + n <= len && p + n <= |before| + len {
      assert (before + d)[p..p + n][0] == (before + d)[p];
      assert d[q..q + n][0] == d[q];
    }
  }

  /** Two reads of any data of a length agree exactly when both are empty, at the same place, or both fail. */
  lemma ReadsAgreeIff(before: seq<Byte>, len: nat, p: nat, q: nat, n: nat)
    ensures (forall d: seq<Byte> :: |d| == len ==> ReadAt(before + d, p, n) == ReadAt(d, q, n)) <==>
      n == 0 || p == |before| + q || (q + n > len && p + n > |before| + len)
  {
    if n == 0 || p == |before| + q || (q + n > len && p + n > |before| + len) {
      forall d: seq<Byte> | |d| == len ensures ReadAt(before + d, p, n) == ReadAt(d, q, n) {
        if p == |before| + q {
          ReadBehind(before, d, q, n);
        }
      }
    } else {
      TelltaleTells(before, len, p, q, n);
    }
  }

  /**
    A tensor reads the same from the converted file, whatever the data, exactly when it is empty, its
    recorded offset leads to where it was copied, or neither file has all of its bytes.
  */
  lemma TensorKeptIff(before: seq<Byte>, ts: seq<TensorInfo>, start: nat, i: nat, len: nat)
    requires AllWritable(ts) && i < |ts|
    ensures var from, to, size := ts[i].offset, start + RecordedOffset(ts, i), SizeInBytes(ts[i]);
      AlwaysKept(before, ts, start, i, len) <==>
        size == 0 || to == |before| + from || (from + size > len && to + size > |before| + len)
  {
    ReadsAgreeIff(before, len, start + RecordedOffset(ts, i), ts[i].offset, SizeInBytes(ts[i]));
  }

  /** Every tensor of the converted file, whatever the data. */
  ghost predicate AllKept(before: seq<Byte>, ts: seq<TensorInfo>, start: nat, len: nat)
    requires AllWritable(ts)
  {
    forall i :: 0 <= i < |ts| ==> AlwaysKept(before, ts, start, i, len)
  }

  /** The source holds its tensors, none of them empty. */
  predicate Holds(ts: seq<TensorInfo>, len: nat)
    requires AllWritable(ts)
  {
    forall i :: 0 <= i < |ts| ==> SizeInBytes(ts[i]) > 0 && ts[i].offset + SizeInBytes(ts[i]) <= len
  }

  lemma AllKeptIffPacked(before: seq<Byte>, ts: seq<TensorInfo>, len: nat)
    requires AllWritable(ts) && Holds(ts, len)
    ensures AllKept(before, ts, |before|, len) <==> PackedInOrder(ts)
  {
    OffsetsMatchIff(ts);
    forall i | 0 <= i < |ts|
      ensures AlwaysKept(before, ts, |before|, i, len) <==> RecordedOffset(ts, i) == ts[i].offset
    {
      TensorKeptIff(before, ts, |before|, i, len);
    }
  }

  /**
    The conversion of a sound source with the default alignment keeps all tensors exactly when the
    source lays them in name order, each padded to 32 bytes.
  */
  lemma ConversionKeepsTensors(c: Content, modelId: nat, bitmapHex: Text, len: nat)
    requires AllWritable(OutputTensors(c)) && Holds(OutputTensors(c), len)
    requires Alignment(OutputMetadata(c, modelId, bitmapHex)) == 32
    ensures NameOrdered(OutputTensors(c))
    ensures var md, ts := OutputMetadata(c, modelId, bitmapHex), OutputTensors(c);
      AllKept(BeforeData(md, ts), ts, ReaderStart(md, ts), len) <==> PackedInOrder(ts)
  {
    var md, ts := OutputMetadata(c, modelId, bitmapHex), OutputTensors(c);
    TensorsInOrder(c);
    DefaultStart(md, ts);
    AllKeptIffPacked(BeforeData(md, ts), ts, len);
  }

  /** Of the file as written: each tensor of a sound, packed source reads as it did from the source. */
  lemma ConvertedFileKeepsTensor(c: Content, modelId: nat, bitmapHex: Text, data: seq<Byte>, i: nat)
    requires AllWritable(OutputTensors(c)) && Holds(OutputTensors(c), |data|) && PackedInOrder(OutputTensors(c))
    requires Alignment(OutputMetadata(c, modelId, bitmapHex)) == 32 && i < |OutputTensors(c)|
    ensures var md, ts := OutputMetadata(c, modelId, bitmapHex), OutputTensors(c);
      FromConverted(FileBytes(md, ts, data), ts, ReaderStart(md, ts), i) == FromSource(ts, data, i)
  {
    var md, ts := OutputMetadata(c, modelId, bitmapHex), OutputTensors(c);
    ConversionKeepsTensors(c, modelId, bitmapHex, |data|);
    assert AlwaysKept(BeforeData(md, ts), ts, ReaderStart(md, ts), i, |data|);
    FileIsBeforeAndData(md, ts, data);
  }

  /**
    Whatever alignment the metadata names, a packed source keeps its tensors exactly when reader and
    writer agree on where the data starts.
  */
  lemma AlignmentKeepsTensorsIff(md: Metadata, ts: seq<TensorInfo>, len: nat)
    requires AllWritable(ts) && Holds(ts, len) && PackedInOrder(ts) && ts != []
    ensures AllKept(BeforeData(md, ts), ts, ReaderStart(md, ts), len) <==> ReaderStart(md, ts) == DataStart(md, ts)
  {
    var before, start := BeforeData(md, ts), ReaderStart(md, ts);
    forall i | 0 <= i < |ts| ensures AlwaysKept(before, ts, start, i, len) <==> start == DataStart(md, ts) {
      PackedOffset(ts, i);
      TensorKeptIff(before, ts, start, i, len);
    }
    assert AllKept(before, ts, start, len) ==> AlwaysKept(before, ts, start, 0, len);
  }

  /** With an alignment of 64 they disagree whenever the infos end in the first half of a block of 64. */
  lemma OtherAlignmentShifts(md: Metadata, ts: seq<TensorInfo>)
    requires AllWritable(ts) && Alignment(md) == 64 && 0 < |Front(md, ts, RecordedOffsets(ts))| % 64 <= 32
    ensures ReaderStart(md, ts) == DataStart(md, ts) + 32
  {
    RoundUp64(|Front(md, ts, RecordedOffsets(ts))|);
  }

  lemma RoundUp64(n: nat)
    requires 0 < n % 64 <= 32
    ensures RoundUp(n, 64) == n + Padding(n) + 32
  {
    var q, r := n / 64, n % 64;
    assert n == 64 * q + r;
    assert (n + 63) / 64 == q + 1;
    assert n % 32 == r % 32;
  }

  lemma TwoNamesDiffer(a: TensorInfo, b: TensorInfo)
    requires a.name != b.name
    ensures NamesDiffer(multiset([a, b]))
  {
    forall s | s in multiset([a, b]) ensures s == a || s == b {
    }
  }

  lemma TwoInOrder(c: Content, a: TensorInfo, b: TensorInfo)
    requires multiset(c.tensors) == multiset([a, b]) && LexLeq(a.name, b.name) && a.name != b.name
    ensures OutputTensors(c) == [a, b]
  {
    TensorsInOrder(c);
    TwoNamesDiffer(a, b);
    assert NameOrdered([a, b]);
    OrderedIsUnique([a, b], OutputTensors(c));
  }

  lemma SecondOffset(a: TensorInfo, b: TensorInfo)
    requires Writable(a) && Writable(b) && 0 < SizeInBytes(a) <= 32
    ensures AllWritable([a, b]) && RecordedOffset([a, b], 0) == 0 && RecordedOffset([a, b], 1) == 32
  {
    var ts := [a, b];
    assert RecordedOffset(ts, 1) == RecordedOffset(ts, 0) + SizeInBytes(a) + Padding(SizeInBytes(a));
  }

  /** Two tensors that the source stores in the other order than their names: each gets the bytes of the other. */
  lemma ReorderedConversionLosesData(c: Content, before: seq<Byte>, a: TensorInfo, b: TensorInfo, data: seq<Byte>)
    requires multiset(c.tensors) == multiset([a, b]) && LexLeq(a.name, b.name) && a.name != b.name
    requires Writable(a) && Writable(b) && SizeInBytes(a) == 32 == SizeInBytes(b)
    requires a.offset == 32 && b.offset == 0 && |data| == 64
    ensures OutputTensors(c) == [a, b] && AllWritable([a, b])
    ensures FromConverted(before + data, [a, b], |before|, 0) == FromSource([a, b], data, 1) == Some(data[0..32])
    ensures FromConverted(before + data, [a, b], |before|, 1) == FromSource([a, b], data, 0) == Some(data[32..64])
  {
    TwoInOrder(c, a, b);
    SecondOffset(a, b);
    ReadBehind(before, data, 0, 32);
    ReadBehind(before, data, 32, 32);
  }

  /** Two tensors of 8 bytes stored side by side: the offset recorded for the second lies past the end of the file. */
  lemma UnpaddedConversionLosesData(before: seq<Byte>, a: TensorInfo, b: TensorInfo, data: seq<Byte>)
    requires Writable(a) && Writable(b) && SizeInBytes(a) == 8 == SizeInBytes(b)
    requires a.offset == 0 && b.offset == 8 && |data| == 16
    ensures AllWritable([a, b])
    ensures FromConverted(before + data, [a, b], |before|, 1) == None
    ensures FromSource([a, b], data, 1) == Some(data[8..16])
  {
    SecondOffset(a, b);
  }
}
