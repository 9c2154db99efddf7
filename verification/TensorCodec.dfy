/**
  Tensors as bytes: dtype, number of dimensions, dimensions, raw little-endian elements. An element is
  its 32-bit pattern, whatever the dtype makes of it.
*/
module TensorCodec {
  import opened Common
  import opened Bytes

  datatype Dtype = F32 | U32 | Other

  datatype Tensor = Tensor(dtype: Dtype, shape: seq<nat>, elements: seq<nat>) {
    /** As many elements as the shape says, in the ranges of the machine types. */
    ghost predicate Valid() {
      && |elements| == Product(shape)
      && Fit(elements, 4) && Fit(shape, 8) && |shape| < Pow256(8)
    }
  }

  function Product(shape: seq<nat>): nat {
    if shape == [] then 1 else Product(shape[..|shape| - 1]) * shape[|shape| - 1]
  }

  /** A tensor has no elements just when a dimension is 0, and one when every dimension is 1. */
  lemma {:induction false} ProductMeans(shape: seq<nat>)
    ensures (forall i :: 0 <= i < |shape| ==> shape[i] == 1) ==> Product(shape) == 1
    ensures Product(shape) == 0 <==> 0 in shape
  {
    if shape != [] {
      ProductMeans(shape[..|shape| - 1]);
    }
  }

  lemma ProductPush(shape: seq<nat>, i: nat)
    requires i < |shape|
    ensures Product(shape[..i + 1]) == Product(shape[..i]) * shape[i]
  {
    assert shape[..i + 1][..i] == shape[..i];
  }

  datatype CodecError =
    | EmptyShape | UnsupportedDtype
    | ShortHeader | ShortDims | SizeMismatch(expected: nat, actual: nat) | UnknownDtype(code: nat)

  function Code(d: Dtype): Byte {
    if d == U32 then 1 else 0
  }

  /** What a tensor the encoder accepts is written as. */
  function Encoding(t: Tensor): seq<Byte> {
    [Code(t.dtype)] + LE(|t.shape|, 8) + Pack(t.shape, 8) + Pack(t.elements, 4)
  }

  ghost predicate Encodable(t: Tensor) {
    t.shape != [] && (forall i :: 0 <= i < |t.shape| ==> t.shape[i] != 0) && t.dtype != Other
  }

  method TensorToBytes(t: Tensor) returns (r: Result<seq<Byte>, CodecError>)
    ensures r.Ok? <==> Encodable(t)
    ensures r.Ok? ==> r.value == Encoding(t)
    ensures r.Err? ==> r.error == if t.shape == [] || 0 in t.shape then EmptyShape else UnsupportedDtype
  {
    if t.shape == [] || 0 in t.shape {
      return Err(EmptyShape);
    }
    if t.dtype == Other {
      return Err(UnsupportedDtype);
    }
    var buf: seq<Byte> := [Code(t.dtype)];
    buf := buf + LE(|t.shape|, 8);
    var header := buf;
    for i := 0 to |t.shape|
      invariant buf == header + Pack(t.shape[..i], 8)
    {
      assert t.shape[..i + 1] == t.shape[..i] + [t.shape[i]];
      PackPush(t.shape[..i], t.shape[i], 8);
      Append(header, Pack(t.shape[..i], 8), LE(t.shape[i], 8));
      buf := buf + LE(t.shape[i], 8);
    }
    assert t.shape[..|t.shape|] == t.shape;
    buf := buf + Pack(t.elements, 4);
    r := Ok(buf);
  }

  /** The tensor in the bytes, or what is wrong with them; the dtype is looked at last. */
  function Decode(data: seq<Byte>): (r: Result<Tensor, CodecError>) {
    if |data| < 9 then Err(ShortHeader)
    else
      var ndim := FromLE(data[1..9]);
      if |data| < 9 + ndim * 8 then Err(ShortDims)
      else
        var shape := Unpack(data[9..9 + ndim * 8], 8, ndim);
        var raw := data[9 + ndim * 8..];
        var count := Product(shape);
        if |raw| != count * 4 then Err(SizeMismatch(count * 4, |raw|))
        else if data[0] == 0 then Ok(Tensor(F32, shape, Unpack(raw, 4, count)))
        else if data[0] == 1 then Ok(Tensor(U32, shape, Unpack(raw, 4, count)))
        else Err(UnknownDtype(data[0]))
  }

  method BytesToTensor(data: seq<Byte>) returns (r: Result<Tensor, CodecError>)
    ensures r == Decode(data)
    ensures r == Err(ShortHeader) <==> |data| < 9
    ensures r == Err(ShortDims) <==> 9 <= |data| && |data| < 9 + 8 * FromLE(data[1..9])
    ensures r.Ok? ==>
      |r.value.shape| == FromLE(data[1..9]) && |data| == 9 + 8 * |r.value.shape| + 4 * |r.value.elements|
    ensures r.Ok? ==> (r.value.dtype == F32 && data[0] == 0) || (r.value.dtype == U32 && data[0] == 1)
    ensures r.Err? && r.error.UnknownDtype? ==> data[0] > 1 && r.error.code == data[0]
    ensures r.Err? && r.error.SizeMismatch? ==>
      r.error.actual == |data| - 9 - 8 * FromLE(data[1..9]) && r.error.expected != r.error.actual
  {
    if |data| < 9 {
      return Err(ShortHeader);
    }
    var dtype := data[0];
    var ndim := FromLE(data[1..9]);
    var headerSize := 9 + ndim * 8;
    if |data| < headerSize {
      return Err(ShortDims);
    }
    var shape: seq<nat> := [];
    ghost var dims := data[9..headerSize];
    for i := 0 to ndim
      invariant |shape| == i && shape == Unpack(dims[..i * 8], 8, i)
    {
      var start := 9 + i * 8;
      assert dims[..(i + 1) * 8] == dims[..i * 8] + data[start..start + 8];
      UnpackPush(dims[..i * 8], data[start..start + 8], 8, i);
      shape := shape + [FromLE(data[start..start + 8])];
    }
    assert dims[..ndim * 8] == dims;
    var raw := data[headerSize..];
    var count := 1;
    for i := 0 to ndim
      invariant count == Product(shape[..i])
    {
      ProductPush(shape, i);
      count := count * shape[i];
    }
    assert shape[..ndim] == shape;
    if |raw| != count * 4 {
      return Err(SizeMismatch(count * 4, |raw|));
    }
    match dtype
    case 0 => r := Ok(Tensor(F32, shape, Unpack(raw, 4, count)));
    case 1 => r := Ok(Tensor(U32, shape, Unpack(raw, 4, count)));
    case _ => r := Err(UnknownDtype(dtype));
  }

  /** The parts of an encoding sit where the decoder looks for them. */
  lemma Parts(t: Tensor)
    ensures var bs := Encoding(t); var d := 9 + |t.shape| * 8;
      && |bs| == d + |t.elements| * 4
      && bs[0] == Code(t.dtype) && bs[1..9] == LE(|t.shape|, 8)
      && bs[9..d] == Pack(t.shape, 8) && bs[d..] == Pack(t.elements, 4)
  {
  }

  /** Decoding an encoding gives the tensor back. */
  lemma TensorRoundTrip(t: Tensor)
    requires t.Valid() && t.dtype != Other
    ensures Decode(Encoding(t)) == Ok(t)
  {
    Parts(t);
    LERoundTrip(|t.shape|, 8);
    UnpackOfPack(t.shape, 8);
    UnpackOfPack(t.elements, 4);
  }

  lemma ElementByte(xs: seq<nat>, i: nat, k: nat)
    requires i < |xs| && k < 4
    ensures 4 * i + k < |Pack(xs, 4)| && Pack(xs, 4)[4 * i + k] == xs[i] / Pow256(k) % 256
  {
    PackedAt(xs, 4, i, 4 * i);
    assert Pack(xs, 4)[4 * i..4 * i + 4][k] == Pack(xs, 4)[4 * i + k];
    LEDigit(xs[i], 4, k);
  }

  /** The dtype byte is 0 or 1, and element i of an encoding is four bytes, lowest first. */
  lemma EncodingBytes(t: Tensor, i: nat, k: nat)
    requires Encodable(t) && i < |t.elements| && k < 4
    ensures Encoding(t)[0] == if t.dtype == F32 then 0 else 1
    ensures Encoding(t)[9 + 8 * |t.shape| + (4 * i + k)] == t.elements[i] / Pow256(k) % 256
  {
    Parts(t);
    ElementByte(t.elements, i, k);
    ByteBehind(Encoding(t), 9 + 8 * |t.shape|, 4 * i + k);
  }

  lemma ByteBehind(bs: seq<Byte>, d: nat, k: nat)
    requires d + k < |bs|
    ensures bs[d..][k] == bs[d + k]
  {
  }

  lemma Append(a: seq<Byte>, b: seq<Byte>, c: seq<Byte>)
    ensures a + b + c == a + (b + c)
  {
  }

  lemma Regroup(data: seq<Byte>, d: nat)
    requires 9 <= d <= |data|
    ensures [data[0]] + data[1..9] + data[9..d] + data[d..] == data
  {
  }

  /** What a decoded tensor was made from. */
  lemma DecodedParts(data: seq<Byte>)
    requires Decode(data).Ok?
    ensures var t := Decode(data).value; var d := 9 + |t.shape| * 8;
      && 9 <= d <= |data| && FromLE(data[1..9]) == |t.shape| && Code(t.dtype) == data[0] && t.dtype != Other
      && t.shape == Unpack(data[9..d], 8, |t.shape|)
      && |data[d..]| == |t.elements| * 4 && t.elements == Unpack(data[d..], 4, |t.elements|)
      && |t.elements| == Product(t.shape)
  {
  }

  /** What decodes is a tensor whose only encoding is the given bytes. */
  lemma DecodedIsCanonical(data: seq<Byte>)
    requires Decode(data).Ok?
    ensures Decode(data).value.Valid() && Decode(data).value.dtype != Other
    ensures Encoding(Decode(data).value) == data
  {
    DecodedParts(data);
    Reencode(Decode(data).value, data, 9 + |Decode(data).value.shape| * 8);
  }

  lemma Reencode(t: Tensor, data: seq<Byte>, d: nat)
    requires 9 <= d <= |data| && d == 9 + |t.shape| * 8 && FromLE(data[1..9]) == |t.shape| && Code(t.dtype) == data[0]
    requires t.shape == Unpack(data[9..d], 8, |t.shape|)
    requires |data[d..]| == |t.elements| * 4 && t.elements == Unpack(data[d..], 4, |t.elements|)
    requires |t.elements| == Product(t.shape)
    ensures t.Valid() && Encoding(t) == data
  {
    LEBound(data[1..9]);
    LEOfValue(data[1..9]);
    PackOfUnpack(data[9..d], 8, |t.shape|);
    PackOfUnpack(data[d..], 4, |t.elements|);
    Regroup(data, d);
  }

  /** The encoding of a tensor is at least one dimension long, so its frame is never taken for an end mark. */
  lemma EncodingLength(t: Tensor)
    requires t.Valid()
    ensures |Encoding(t)| == 9 + 8 * |t.shape| + 4 * Product(t.shape)
  {
    Parts(t);
  }
}
