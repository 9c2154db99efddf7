/** Writing and reading tensor packets. */
module PacketCodec {
  import opened Common
  import opened Bytes
  import opened TensorPacket

  // ---------------------------------------------------------------- writing

  /** A field behind its length; the length is cut to `width` bytes. */
  function SizedBytes(x: seq<Byte>, width: nat): (bs: seq<Byte>)
    ensures |bs| == width + |x|
  {
    BE(|x|, width) + x
  }

  function DimBytes(shape: seq<nat>): (bs: seq<Byte>)
    ensures |bs| == 8 * |shape|
  {
    if shape == [] then [] else BE(shape[0], 8) + DimBytes(shape[1..])
  }

  function ShapeBytes(shape: seq<nat>): (bs: seq<Byte>)
    ensures |bs| == 4 + 8 * |shape|
  {
    BE(|shape|, 4) + DimBytes(shape)
  }

  function Serialize(p: Packet): seq<Byte> {
    SizedBytes(p.name, 4) + ShapeBytes(p.shape) + SizedBytes(AsStr(p.dtype), 4) + SizedBytes(p.data, 8)
  }

  method GgufTensorSerialize(p: Packet) returns (buf: seq<Byte>)
    ensures buf == Serialize(p)
  {
    buf := BE(|p.name|, 4);
    buf := buf + p.name;
    ghost var name := buf;
    buf := buf + BE(|p.shape|, 4);
    for i := 0 to |p.shape|
      invariant buf == name + (BE(|p.shape|, 4) + DimBytes(p.shape[..i]))
    {
      assert p.shape[..i + 1] == p.shape[..i] + [p.shape[i]];
      DimBytesPush(p.shape[..i], p.shape[i]);
      Regroup(name, BE(|p.shape|, 4), DimBytes(p.shape[..i]), BE(p.shape[i], 8));
      buf := buf + BE(p.shape[i], 8);
    }
    assert p.shape[..|p.shape|] == p.shape;
    ghost var shape := buf;
    var dtype := AsStr(p.dtype);
    buf := buf + BE(|dtype|, 4);
    buf := buf + dtype;
    assert buf == shape + SizedBytes(dtype, 4);
    ghost var names := buf;
    buf := buf + BE(|p.data|, 8);
    buf := buf + p.data;
    assert buf == names + SizedBytes(p.data, 8);
  }

  lemma Regroup(a: seq<Byte>, b: seq<Byte>, c: seq<Byte>, d: seq<Byte>)
    ensures a + (b + c) + d == a + (b + (c + d))
  {
  }

  lemma {:induction false} DimBytesPush(shape: seq<nat>, d: nat)
    ensures DimBytes(shape + [d]) == DimBytes(shape) + BE(d, 8)
  {
    if shape != [] {
      DimBytesPush(shape[1..], d);
      assert (shape + [d])[1..] == shape[1..] + [d];
    }
  }

  // ---------------------------------------------------------------- reading

  /** A value read, and the position after it. */
  datatype Read<T> = Read(value: T, at: nat)

  type Step<T> = Result<Read<T>, Error>

  function Take(bs: seq<Byte>, at: nat, count: nat): (r: Step<seq<Byte>>)
    ensures r.Ok? ==> at <= r.value.at <= |bs|
  {
    if at + count > |bs| then Err(InsufficientData(at + count, |bs|)) else Ok(Read(bs[at..at + count], at + count))
  }

  /** A field behind a length of `width` bytes. */
  function Sized(bs: seq<Byte>, at: nat, width: nat): (r: Step<seq<Byte>>)
    ensures r.Ok? ==> at <= r.value.at <= |bs|
  {
    var len := Take(bs, at, width);
    if len.Err? then len else Take(bs, len.value.at, FromBE(len.value.value))
  }

  function Dims(bs: seq<Byte>, at: nat, n: nat): (r: Step<seq<nat>>)
    ensures r.Ok? ==> at <= r.value.at && |r.value.value| == n && (at <= |bs| ==> r.value.at <= |bs|)
    decreases n
  {
    if n == 0 then Ok(Read([], at))
    else
      var d := Take(bs, at, 8);
      if d.Err? then Err(d.error)
      else
        var rest := Dims(bs, d.value.at, n - 1);
        if rest.Err? then rest else Ok(Read([FromBE(d.value.value)] + rest.value.value, rest.value.at))
  }

  function Name(bs: seq<Byte>, at: nat): Step<seq<Byte>> {
    var name := Sized(bs, at, 4);
    if name.Ok? && !Utf8(name.value.value) then Err(InvalidUtf8) else name
  }

  function Shape(bs: seq<Byte>, at: nat): Step<seq<nat>> {
    var ndim := Take(bs, at, 4);
    if ndim.Err? then Err(ndim.error) else Dims(bs, ndim.value.at, FromBE(ndim.value.value))
  }

  function DtypeField(bs: seq<Byte>, at: nat): Step<Dtype> {
    var text := Sized(bs, at, 4);
    if text.Err? then Err(text.error)
    else if !Utf8(text.value.value) then Err(InvalidUtf8)
    else
      var dtype := FromStr(text.value.value);
      if dtype.None? then Err(UnknownDtype(text.value.value)) else Ok(Read(dtype.value, text.value.at))
  }

  /** The packet at the front of the bytes, and where it ends. */
  function ReadPacket(bs: seq<Byte>): Step<Packet> {
    var name := Name(bs, 0);
    if name.Err? then Err(name.error)
    else
      var shape := Shape(bs, name.value.at);
      if shape.Err? then Err(shape.error)
      else
        var dtype := DtypeField(bs, shape.value.at);
        if dtype.Err? then Err(dtype.error)
        else
          var data := Sized(bs, dtype.value.at, 8);
          if data.Err? then Err(data.error)
          else Ok(Read(Packet(name.value.value, shape.value.value, dtype.value.value, data.value.value), data.value.at))
  }

  /** What follows the packet is ignored. */
  function Deserialize(bs: seq<Byte>): Result<Packet, Error> {
    var r := ReadPacket(bs);
    if r.Err? then Err(r.error) else Ok(r.value.value)
  }

  method ReadDims(bs: seq<Byte>, at: nat, n: nat) returns (r: Step<seq<nat>>)
    ensures r == Dims(bs, at, n)
  {
    var offset := at;
    var shape: seq<nat> := [];
    ghost var whole := Dims(bs, at, n);
    assert whole.Ok? ==> [] + whole.value.value == whole.value.value;
    for i := 0 to n
      invariant |shape| == i
      invariant var rest := Dims(bs, offset, n - i);
        Dims(bs, at, n) == if rest.Err? then rest else Ok(Read(shape + rest.value.value, rest.value.at))
    {
      var d := Take(bs, offset, 8);
      if d.Err? {
        return Err(d.error);
      }
      var rest := Dims(bs, d.value.at, n - i - 1);
      if rest.Ok? {
        var dim := [FromBE(d.value.value)];
        assert shape + (dim + rest.value.value) == shape + dim + rest.value.value;
      }
      shape := shape + [FromBE(d.value.value)];
      offset := d.value.at;
    }
    assert shape + [] == shape;
    r := Ok(Read(shape, offset));
  }

  method GgufTensorDeserialize(bs: seq<Byte>) returns (r: Result<Packet, Error>)
    ensures r == Deserialize(bs)
  {
    var name := Name(bs, 0);
    if name.Err? {
      return Err(name.error);
    }
    var ndim := Take(bs, name.value.at, 4);
    if ndim.Err? {
      return Err(ndim.error);
    }
    var shape := ReadDims(bs, ndim.value.at, FromBE(ndim.value.value));
    if shape.Err? {
      return Err(shape.error);
    }
    var dtype := DtypeField(bs, shape.value.at);
    if dtype.Err? {
      return Err(dtype.error);
    }
    var data := Sized(bs, dtype.value.at, 8);
    if data.Err? {
      return Err(data.error);
    }
    r := Ok(Packet(name.value.value, shape.value.value, dtype.value.value, data.value.value));
  }

  // ---------------------------------------------------------------- prefixes

  ghost predicate IsPrefix(short: seq<Byte>, long: seq<Byte>) {
    |short| <= |long| && short == long[..|short|]
  }

  /**
    A step that succeeds on the longer bytes succeeds alike on the shorter ones if it ends within them,
    and otherwise fails for want of data, of which it asks for no more than the longer bytes have.
  */
  ghost predicate Cut<T(!new)>(short: seq<Byte>, s: Step<T>, l: Step<T>) {
    l.Ok? ==>
      if l.value.at <= |short| then s == l
      else
        && s.Err? && s.error.InsufficientData?
        && s.error.actual == |short| && |short| < s.error.expected <= l.value.at
  }

  lemma TakeCut(short: seq<Byte>, long: seq<Byte>, at: nat, count: nat)
    requires IsPrefix(short, long)
    ensures Cut(short, Take(short, at, count), Take(long, at, count))
  {
    if at + count <= |short| {
      assert short[at..at + count] == long[at..at + count];
    }
  }

  lemma SizedCut(short: seq<Byte>, long: seq<Byte>, at: nat, width: nat)
    requires IsPrefix(short, long)
    ensures Cut(short, Sized(short, at, width), Sized(long, at, width))
  {
    TakeCut(short, long, at, width);
    var len := Take(long, at, width);
    if len.Ok? {
      TakeCut(short, long, len.value.at, FromBE(len.value.value));
    }
  }

  lemma {:induction false} DimsCut(short: seq<Byte>, long: seq<Byte>, at: nat, n: nat)
    requires IsPrefix(short, long) && at <= |short|
    ensures Cut(short, Dims(short, at, n), Dims(long, at, n))
    decreases n
  {
    if n > 0 {
      TakeCut(short, long, at, 8);
      if at + 8 <= |short| {
        DimsCut(short, long, at + 8, n - 1);
      }
    }
  }

  lemma NameCut(short: seq<Byte>, long: seq<Byte>, at: nat)
    requires IsPrefix(short, long)
    ensures Cut(short, Name(short, at), Name(long, at))
  {
    SizedCut(short, long, at, 4);
  }

  lemma ShapeCut(short: seq<Byte>, long: seq<Byte>, at: nat)
    requires IsPrefix(short, long)
    ensures Cut(short, Shape(short, at), Shape(long, at))
  {
    TakeCut(short, long, at, 4);
    if at + 4 <= |short| {
      DimsCut(short, long, at + 4, FromBE(Take(long, at, 4).value.value));
    }
  }

  lemma DtypeCut(short: seq<Byte>, long: seq<Byte>, at: nat)
    requires IsPrefix(short, long)
    ensures Cut(short, DtypeField(short, at), DtypeField(long, at))
  {
    SizedCut(short, long, at, 4);
  }

  lemma PacketCut(short: seq<Byte>, long: seq<Byte>)
    requires IsPrefix(short, long)
    ensures Cut(short, ReadPacket(short), ReadPacket(long))
  {
    NameCut(short, long, 0);
    var name := Name(long, 0);
    if name.Ok? {
      ShapeCut(short, long, name.value.at);
      var shape := Shape(long, name.value.at);
      if shape.Ok? {
        DtypeCut(short, long, shape.value.at);
        var dtype := DtypeField(long, shape.value.at);
        if dtype.Ok? {
          SizedCut(short, long, dtype.value.at, 8);
        }
      }
    }
  }

  /**
    Accepted packets are self-delimiting: cut anywhere before its end the packet is refused for want of
    data, and what follows its end is of no account.
  */
  lemma SelfDelimiting(bs: seq<Byte>, k: nat)
    requires ReadPacket(bs).Ok? && k <= |bs|
    ensures k >= ReadPacket(bs).value.at ==> Deserialize(bs[..k]) == Deserialize(bs)
    ensures k < ReadPacket(bs).value.at ==>
      var r := Deserialize(bs[..k]);
      r.Err? && r.error.InsufficientData? && r.error.actual == k && k < r.error.expected <= ReadPacket(bs).value.at
  {
    PacketCut(bs[..k], bs);
  }

  // ---------------------------------------------------------------- the round trip

  lemma TakeAt(a: seq<Byte>, x: seq<Byte>, b: seq<Byte>)
    ensures Take(a + x + b, |a|, |x|) == Ok(Read(x, |a| + |x|))
  {
    assert (a + x + b)[|a|..|a| + |x|] == x;
  }

  lemma SizedAt(a: seq<Byte>, x: seq<Byte>, width: nat, b: seq<Byte>)
    requires |x| < Pow256(width)
    ensures Sized(a + SizedBytes(x, width) + b, |a|, width) == Ok(Read(x, |a| + width + |x|))
  {
    var len := BE(|x|, width);
    BERoundTrip(|x|, width);
    assert a + SizedBytes(x, width) + b == a + len + (x + b);
    TakeAt(a, len, x + b);
    assert a + SizedBytes(x, width) + b == (a + len) + x + b;
    TakeAt(a + len, x, b);
  }

  lemma {:induction false} DimsAt(a: seq<Byte>, shape: seq<nat>, b: seq<Byte>)
    requires Fit(shape, 8)
    ensures Dims(a + DimBytes(shape) + b, |a|, |shape|) == Ok(Read(shape, |a| + 8 * |shape|))
    decreases |shape|
  {
    if shape != [] {
      var d, rest := BE(shape[0], 8), DimBytes(shape[1..]);
      BERoundTrip(shape[0], 8);
      assert a + DimBytes(shape) + b == a + d + (rest + b);
      TakeAt(a, d, rest + b);
      assert a + DimBytes(shape) + b == (a + d) + rest + b;
      DimsAt(a + d, shape[1..], b);
      assert [shape[0]] + shape[1..] == shape;
    }
  }

  lemma ShapeAt(a: seq<Byte>, shape: seq<nat>, b: seq<Byte>)
    requires Fit(shape, 8) && |shape| < Pow256(4)
    ensures Shape(a + ShapeBytes(shape) + b, |a|) == Ok(Read(shape, |a| + 4 + 8 * |shape|))
  {
    var len := BE(|shape|, 4);
    BERoundTrip(|shape|, 4);
    assert a + ShapeBytes(shape) + b == a + len + (DimBytes(shape) + b);
    TakeAt(a, len, DimBytes(shape) + b);
    assert a + ShapeBytes(shape) + b == (a + len) + DimBytes(shape) + b;
    DimsAt(a + len, shape, b);
  }

  lemma Assoc4(a: seq<Byte>, b: seq<Byte>, c: seq<Byte>, d: seq<Byte>, tail: seq<Byte>)
    ensures a + b + c + d + tail == a + (b + c + d + tail)
    ensures a + b + c + d + tail == a + b + (c + d + tail)
    ensures a + b + c + d + tail == (a + b) + c + (d + tail)
    ensures a + b + c + d + tail == (a + b + c) + d + tail
  {
  }

  lemma NameAt(p: Packet, rest: seq<Byte>)
    requires Utf8(p.name) && |p.name| < Pow256(4)
    ensures Name(SizedBytes(p.name, 4) + rest, 0) == Ok(Read(p.name, 4 + |p.name|))
  {
    assert [] + SizedBytes(p.name, 4) + rest == SizedBytes(p.name, 4) + rest;
    SizedAt([], p.name, 4, rest);
  }

  lemma DtypeAt(a: seq<Byte>, d: Dtype, b: seq<Byte>)
    ensures DtypeField(a + SizedBytes(AsStr(d), 4) + b, |a|) == Ok(Read(d, |a| + 4 + |AsStr(d)|))
  {
    Widths();
    SizedAt(a, AsStr(d), 4, b);
    AsciiIsUtf8(d);
    DtypeRoundTrip(d, AsStr(d));
  }

  lemma NameIn(p: Packet, a: seq<Byte>, b: seq<Byte>, c: seq<Byte>, d: seq<Byte>, tail: seq<Byte>)
    requires Utf8(p.name) && |p.name| < Pow256(4) && a == SizedBytes(p.name, 4)
    ensures Name(a + b + c + d + tail, 0) == Ok(Read(p.name, |a|))
  {
    NameAt(p, b + c + d + tail);
    Assoc4(a, b, c, d, tail);
  }

  lemma ShapeIn(p: Packet, a: seq<Byte>, b: seq<Byte>, c: seq<Byte>, d: seq<Byte>, tail: seq<Byte>)
    requires Fit(p.shape, 8) && |p.shape| < Pow256(4) && b == ShapeBytes(p.shape)
    ensures Shape(a + b + c + d + tail, |a|) == Ok(Read(p.shape, |a + b|))
  {
    ShapeAt(a, p.shape, c + d + tail);
    Assoc4(a, b, c, d, tail);
  }

  lemma DtypeIn(p: Packet, a: seq<Byte>, b: seq<Byte>, c: seq<Byte>, d: seq<Byte>, tail: seq<Byte>)
    requires c == SizedBytes(AsStr(p.dtype), 4)
    ensures DtypeField(a + b + c + d + tail, |a + b|) == Ok(Read(p.dtype, |a + b + c|))
  {
    DtypeAt(a + b, p.dtype, d + tail);
    Assoc4(a, b, c, d, tail);
  }

  lemma DataIn(p: Packet, abc: seq<Byte>, d: seq<Byte>, tail: seq<Byte>)
    requires |p.data| < Pow256(8) && d == SizedBytes(p.data, 8)
    ensures Sized(abc + d + tail, |abc|, 8) == Ok(Read(p.data, |abc + d|))
  {
    SizedAt(abc, p.data, 8, tail);
  }

  /** Fields read one after the other make the packet. */
  lemma FieldsMakePacket(bs: seq<Byte>, p: Packet, n1: nat, n2: nat, n3: nat, n4: nat)
    requires Name(bs, 0) == Ok(Read(p.name, n1)) && Shape(bs, n1) == Ok(Read(p.shape, n2))
    requires DtypeField(bs, n2) == Ok(Read(p.dtype, n3)) && Sized(bs, n3, 8) == Ok(Read(p.data, n4))
    ensures ReadPacket(bs) == Ok(Read(p, n4))
  {
  }

  /** A packet whose name and shape lengths fit their fields is read back from the front of any bytes. */
  lemma PacketRoundTrip(p: Packet, tail: seq<Byte>)
    requires p.Valid() && |p.name| < Pow256(4) && |p.shape| < Pow256(4)
    ensures ReadPacket(Serialize(p) + tail) == Ok(Read(p, |Serialize(p)|))
  {
    PartsRoundTrip(p, SizedBytes(p.name, 4), ShapeBytes(p.shape), SizedBytes(AsStr(p.dtype), 4),
                   SizedBytes(p.data, 8), tail);
  }

  lemma PartsRoundTrip(p: Packet, a: seq<Byte>, b: seq<Byte>, c: seq<Byte>, d: seq<Byte>, tail: seq<Byte>)
    requires p.Valid() && |p.name| < Pow256(4) && |p.shape| < Pow256(4)
    requires a == SizedBytes(p.name, 4) && b == ShapeBytes(p.shape)
    requires c == SizedBytes(AsStr(p.dtype), 4) && d == SizedBytes(p.data, 8)
    ensures ReadPacket(a + b + c + d + tail) == Ok(Read(p, |a + b + c + d|))
  {
    NameIn(p, a, b, c, d, tail);
    ShapeIn(p, a, b, c, d, tail);
    DtypeIn(p, a, b, c, d, tail);
    DataIn(p, a + b + c, d, tail);
    FieldsMakePacket(a + b + c + d + tail, p, |a|, |a + b|, |a + b + c|, |a + b + c + d|);
  }

  /** No packet that is read has a name or a shape too long for its length field. */
  lemma ReadLengths(bs: seq<Byte>)
    requires Deserialize(bs).Ok?
    ensures |Deserialize(bs).value.name| < Pow256(4) && |Deserialize(bs).value.shape| < Pow256(4)
  {
    BEBound(Take(bs, 0, 4).value.value);
    var name := Name(bs, 0);
    BEBound(Take(bs, name.value.at, 4).value.value);
  }

  /** The round trip holds exactly when the two lengths fit; past that the length fields wrap around. */
  lemma RoundTripIff(p: Packet, tail: seq<Byte>)
    requires p.Valid()
    ensures Deserialize(Serialize(p) + tail) == Ok(p) <==> |p.name| < Pow256(4) && |p.shape| < Pow256(4)
  {
    if |p.name| < Pow256(4) && |p.shape| < Pow256(4) {
      PacketRoundTrip(p, tail);
    }
    if Deserialize(Serialize(p) + tail).Ok? {
      ReadLengths(Serialize(p) + tail);
    }
  }

  /** Every proper prefix of a packet is refused for want of data. */
  lemma PrefixRefused(p: Packet, k: nat)
    requires p.Valid() && |p.name| < Pow256(4) && |p.shape| < Pow256(4) && k < |Serialize(p)|
    ensures var r := Deserialize(Serialize(p)[..k]); r.Err? && r.error.InsufficientData? && r.error.actual == k
  {
    PacketRoundTrip(p, []);
    assert Serialize(p) + [] == Serialize(p);
    SelfDelimiting(Serialize(p), k);
  }
}
