/**
  Tensor frames on a stream: an 8-byte offset, an 8-byte length and the bytes, closed by an end mark.
  The receiver reads into one buffer that it uses again and again. The frames between nodes limit the
  length; the ones on a local stream do not.
*/
module TensorStream {
  import opened Common
  import opened Bytes
  import opened TensorCodec

  const EOF_OFFSET: nat := 0xFFFF_FFFF_FFFF_FFFF
  const MAX_TENSOR_SIZE: nat := 512 * 1024 * 1024

  datatype IoError = UnexpectedEnd | TooLarge(length: nat)

  // ---------------------------------------------------------------- the reused buffer

  /** `Vec::resize(len, 0)` */
  function Resized(buf: seq<Byte>, len: nat): (r: seq<Byte>)
    ensures |r| == len && forall i :: 0 <= i < len ==> r[i] == if i < |buf| then buf[i] else 0
  {
    if len <= |buf| then buf[..len] else buf + seq(len - |buf|, _ => 0)
  }

  class TensorBuffer {
    var buf: seq<Byte>
    var validLen: nat

    ghost predicate Valid()
      reads this
    {
      validLen <= |buf|
    }

    constructor ()
      ensures Valid() && buf == [] && validLen == 0
    {
      buf, validLen := [], 0;
    }

    /** Makes room for exactly len bytes. */
    method MakeRoom(len: nat)
      modifies this
      ensures Valid() && validLen == len && buf == Resized(old(buf), len)
    {
      buf := Resized(buf, len);
      validLen := len;
    }

    function AsSlice(): seq<Byte>
      requires Valid()
      reads this
    {
      buf[..validLen]
    }

    method Clear()
      requires Valid()
      modifies this
      ensures Valid() && AsSlice() == [] && buf == old(buf)
    {
      validLen := 0;
    }
  }

  // ---------------------------------------------------------------- the stream

  /** The bytes written and not yet read; the writing end is closed after the last of them. */
  class ByteStream {
    var bytes: seq<Byte>

    constructor ()
      ensures bytes == []
    {
      bytes := [];
    }

    method WriteAll(data: seq<Byte>)
      modifies this
      ensures bytes == old(bytes) + data
    {
      bytes := bytes + data;
    }

    /** Reads n bytes; a stream that ends before gives what it has and fails. */
    method ReadExact(n: nat) returns (data: seq<Byte>, ok: bool)
      modifies this
      ensures ok <==> n <= |old(bytes)|
      ensures data == if ok then old(bytes)[..n] else old(bytes)
      ensures bytes == if ok then old(bytes)[n..] else []
    {
      ok := n <= |bytes|;
      if ok {
        data, bytes := bytes[..n], bytes[n..];
      } else {
        data, bytes := bytes, [];
      }
    }
  }

  // ---------------------------------------------------------------- frames

  function Header(offset: nat, length: nat): (h: seq<Byte>)
    ensures |h| == 16
  {
    LE(offset, 8) + LE(length, 8)
  }

  function Frame(offset: nat, data: seq<Byte>): seq<Byte> {
    Header(offset, |data|) + data
  }

  function EndMark(): seq<Byte> {
    Header(EOF_OFFSET, 0)
  }

  /** Offset and length in eight bytes each, lowest first, and the data. */
  ghost predicate IsFrame(bytes: seq<Byte>, offset: nat, data: seq<Byte>) {
    && |bytes| == 16 + |data| && bytes[16..] == data
    && (forall i: nat :: i < 8 ==> bytes[i] == offset / Pow256(i) % 256)
    && (forall i: nat :: i < 8 ==> bytes[8 + i] == |data| / Pow256(i) % 256)
  }

  lemma FrameBytes(offset: nat, data: seq<Byte>)
    ensures IsFrame(Frame(offset, data), offset, data)
  {
    forall i: nat | i < 8
      ensures Frame(offset, data)[i] == offset / Pow256(i) % 256
      ensures Frame(offset, data)[8 + i] == |data| / Pow256(i) % 256
    {
      LEDigit(offset, 8, i);
      LEDigit(|data|, 8, i);
    }
  }

  method SendTensorFrame(stream: ByteStream, offset: nat, data: seq<Byte>)
    modifies stream
    ensures stream.bytes == old(stream.bytes) + Frame(offset, data)
    ensures stream.bytes == old(stream.bytes) + stream.bytes[|old(stream.bytes)|..]
    ensures IsFrame(stream.bytes[|old(stream.bytes)|..], offset, data)
  {
    FrameBytes(offset, data);
    var header := new Byte[16](_ => 0);
    var off, len := LE(offset, 8), LE(|data|, 8);
    forall i | 0 <= i < 8 {
      header[i] := off[i];
    }
    forall i | 8 <= i < 16 {
      header[i] := len[i - 8];
    }
    assert header[..] == Header(offset, |data|);
    stream.WriteAll(header[..]);
    stream.WriteAll(data);
    assert old(stream.bytes) + Header(offset, |data|) + data == old(stream.bytes) + Frame(offset, data);
    assert stream.bytes[|old(stream.bytes)|..] == Frame(offset, data);
  }

  method SendEof(stream: ByteStream)
    modifies stream
    ensures stream.bytes == old(stream.bytes) + EndMark()
  {
    var offset, length := EOF_OFFSET, 0;
    stream.WriteAll(LE(offset, 8));
    stream.WriteAll(LE(length, 8));
    Append(old(stream.bytes), LE(offset, 8), LE(length, 8));
  }

  /** What one receive makes of the bytes in the stream. */
  datatype Received =
    | Data(offset: nat, data: seq<Byte>, rest: seq<Byte>)
    | End(rest: seq<Byte>)
    | Failed(error: IoError)

  /** The size check, where there is one. */
  predicate Exceeds(length: nat, limit: Option<nat>) {
    limit.Some? && length > limit.value
  }

  function Receive(bytes: seq<Byte>, limit: Option<nat>): (r: Received)
    ensures r.Data? && r.offset == EOF_OFFSET ==> r.data != []
  {
    if |bytes| < 16 then Failed(UnexpectedEnd)
    else
      var offset, length := FromLE(bytes[..8]), FromLE(bytes[8..16]);
      if offset == EOF_OFFSET && length == 0 then End(bytes[16..])
      else if Exceeds(length, limit) then Failed(TooLarge(length))
      else if |bytes| < 16 + length then Failed(UnexpectedEnd)
      else Data(offset, bytes[16..16 + length], bytes[16 + length..])
  }

  /** The buffer holds exactly the data of the frame afterwards, whatever was in it before. */
  method ReceiveTensorFrame(stream: ByteStream, buffer: TensorBuffer, limit: Option<nat>)
    returns (r: Result<nat, IoError>)
    requires buffer.Valid()
    modifies stream, buffer
    ensures buffer.Valid()
    ensures match Receive(old(stream.bytes), limit)
      case Data(offset, data, rest) => r == Ok(offset) && buffer.AsSlice() == data && stream.bytes == rest
      case End(rest) => r == Ok(EOF_OFFSET) && buffer.AsSlice() == [] && stream.bytes == rest
      case Failed(error) => r == Err(error)
    ensures r.Ok? ==> |old(stream.bytes)| >= 16 && r.value == FromLE(old(stream.bytes)[..8])
                      && |buffer.AsSlice()| == FromLE(old(stream.bytes)[8..16])
    ensures r.Err? && r.error.TooLarge? ==>
      && |old(stream.bytes)| >= 16 && r.error.length == FromLE(old(stream.bytes)[8..16])
      && limit.Some? && r.error.length > limit.value
    ensures r == Err(UnexpectedEnd) <==>
      |old(stream.bytes)| < 16
      || (|old(stream.bytes)| < 16 + FromLE(old(stream.bytes)[8..16])
          && (limit.Some? ==> FromLE(old(stream.bytes)[8..16]) <= limit.value))
  {
    var header, ok := stream.ReadExact(16);
    if !ok {
      return Err(UnexpectedEnd);
    }
    var offset := FromLE(header[0..8]);
    var length := FromLE(header[8..16]);
    assert header[0..8] == old(stream.bytes)[..8] && header[8..16] == old(stream.bytes)[8..16];
    if offset == EOF_OFFSET && length == 0 {
      buffer.Clear();
      return Ok(EOF_OFFSET);
    }
    if Exceeds(length, limit) {
      return Err(TooLarge(length));
    }
    buffer.MakeRoom(length);
    var data, enough := stream.ReadExact(length);
    buffer.buf := data + buffer.buf[|data|..];
    if !enough {
      return Err(UnexpectedEnd);
    }
    r := Ok(offset);
  }

  /** A frame followed by anything is received as itself, exactly when it fits and is not the end mark. */
  lemma FrameRoundTrip(offset: nat, data: seq<Byte>, rest: seq<Byte>, limit: Option<nat>)
    requires offset <= EOF_OFFSET && |data| <= EOF_OFFSET
    ensures Receive(Frame(offset, data) + rest, limit) == Data(offset, data, rest)
      <==> !Exceeds(|data|, limit) && !(offset == EOF_OFFSET && data == [])
  {
    Widths();
    LERoundTrip(offset, 8);
    LERoundTrip(|data|, 8);
    var bytes := Frame(offset, data) + rest;
    assert bytes[..8] == LE(offset, 8) && bytes[8..16] == LE(|data|, 8);
    assert bytes[16..16 + |data|] == data && bytes[16 + |data|..] == rest;
  }

  /** Between nodes a frame is received as itself up to half a gibibyte. */
  lemma NodeFrameFits(offset: nat, data: seq<Byte>, rest: seq<Byte>)
    requires offset < 0x1_0000_0000_0000_0000 && |data| < 0x1_0000_0000_0000_0000
    ensures Receive(Frame(offset, data) + rest, Some(MAX_TENSOR_SIZE)) == Data(offset, data, rest)
      <==> |data| <= 536_870_912 && !(offset == 0xFFFF_FFFF_FFFF_FFFF && data == [])
  {
    FrameRoundTrip(offset, data, rest, Some(MAX_TENSOR_SIZE));
  }

  /** The end mark: eight bytes of ones and eight of zeros. */
  lemma EndMarkBytes()
    ensures |EndMark()| == 16
    ensures forall i: nat :: i < 16 ==> EndMark()[i] == if i < 8 then 255 else 0
  {
    forall i: nat | i < 16 ensures EndMark()[i] == if i < 8 then 255 else 0 {
      if i < 8 {
        LEDigit(EOF_OFFSET, 8, i);
        OnesAt(i);
      } else {
        LEDigit(0, 8, i - 8);
        ZeroAt(i - 8);
      }
    }
  }

  lemma OnesAt(i: nat)
    requires i < 8
    ensures EOF_OFFSET / Pow256(i) % 256 == 255
  {
    Widths();
    assert Pow256(3) == 0x100_0000 && Pow256(5) == 0x100_0000_0000 && Pow256(6) == 0x1_0000_0000_0000;
    assert i == 0 || i == 1 || i == 2 || i == 3 || i == 4 || i == 5 || i == 6 || i == 7;
  }

  lemma ZeroAt(i: nat)
    ensures 0 / Pow256(i) % 256 == 0
  {
  }

  lemma EndMarkEnds(rest: seq<Byte>, limit: Option<nat>)
    ensures Receive(EndMark() + rest, limit) == End(rest)
  {
    Widths();
    LERoundTrip(EOF_OFFSET, 8);
    LERoundTrip(0, 8);
    var bytes := EndMark() + rest;
    assert bytes[..8] == LE(EOF_OFFSET, 8) && bytes[8..16] == LE(0, 8);
  }

  // ---------------------------------------------------------------- a session

  /** A tensor and the position it is for. */
  datatype Message = Message(offset: nat, tensor: Tensor)

  ghost predicate Sendable(m: Message, limit: Option<nat>) {
    && m.offset <= EOF_OFFSET && m.tensor.Valid() && Encodable(m.tensor)
    && |Encoding(m.tensor)| <= EOF_OFFSET && !Exceeds(|Encoding(m.tensor)|, limit)
  }

  ghost function Frames(ms: seq<Message>): seq<Byte> {
    if ms == [] then [] else Frame(ms[0].offset, Encoding(ms[0].tensor)) + Frames(ms[1..])
  }

  /** How a session ends for the receiver. */
  datatype Outcome = Closed | Broken(error: IoError) | Undecodable(cause: CodecError)

  /** What a receiver that stops at the end mark, or at the first failure, gets out of the stream. */
  ghost function ReadAll(bytes: seq<Byte>, limit: Option<nat>): (seq<Message>, Outcome)
    decreases |bytes|
  {
    match Receive(bytes, limit)
    case End(_) => ([], Closed)
    case Failed(error) => ([], Broken(error))
    case Data(offset, data, rest) =>
      match Decode(data)
      case Err(cause) => ([], Undecodable(cause))
      case Ok(tensor) =>
        var (ms, outcome) := ReadAll(rest, limit);
        ([Message(offset, tensor)] + ms, outcome)
  }

  /** The receiving loop: one buffer for the whole session. */
  method ReceiveSession(stream: ByteStream, limit: Option<nat>) returns (ms: seq<Message>, outcome: Outcome)
    modifies stream
    ensures (ms, outcome) == ReadAll(old(stream.bytes), limit)
  {
    var buffer := new TensorBuffer();
    ms := [];
    ghost var all := ReadAll(stream.bytes, limit);
    assert [] + all.0 == all.0;
    while true
      invariant buffer.Valid() && fresh(buffer)
      invariant all.0 == ms + ReadAll(stream.bytes, limit).0 && all.1 == ReadAll(stream.bytes, limit).1
      decreases |stream.bytes|
    {
      ghost var left := ReadAll(stream.bytes, limit).0;
      var r := ReceiveTensorFrame(stream, buffer, limit);
      if r.Err? {
        assert left == [] && ms + left == ms;
        return ms, Broken(r.error);
      }
      if r.value == EOF_OFFSET && buffer.validLen == 0 {
        assert left == [] && ms + left == ms;
        return ms, Closed;
      }
      var t := BytesToTensor(buffer.AsSlice());
      if t.Err? {
        assert left == [] && ms + left == ms;
        return ms, Undecodable(t.error);
      }
      var m := Message(r.value, t.value);
      assert left == [m] + ReadAll(stream.bytes, limit).0;
      assert ms + left == ms + [m] + ReadAll(stream.bytes, limit).0;
      ms := ms + [m];
    }
  }

  /** The sending loop, closed by the end mark. */
  method SendSession(stream: ByteStream, ms: seq<Message>)
    requires forall i :: 0 <= i < |ms| ==> Encodable(ms[i].tensor)
    modifies stream
    ensures stream.bytes == old(stream.bytes) + Frames(ms) + EndMark()
  {
    for i := 0 to |ms|
      invariant stream.bytes == old(stream.bytes) + Frames(ms[..i])
    {
      var bytes := TensorToBytes(ms[i].tensor);
      SendTensorFrame(stream, ms[i].offset, bytes.value);
      OneMoreFrame(old(stream.bytes), ms, i);
    }
    assert ms[..|ms|] == ms;
    SendEof(stream);
  }

  lemma OneMoreFrame(before: seq<Byte>, ms: seq<Message>, i: nat)
    requires i < |ms|
    ensures before + Frames(ms[..i]) + Frame(ms[i].offset, Encoding(ms[i].tensor)) == before + Frames(ms[..i + 1])
  {
    FramesPush(ms[..i], ms[i]);
    assert ms[..i + 1] == ms[..i] + [ms[i]];
    Append(before, Frames(ms[..i]), Frame(ms[i].offset, Encoding(ms[i].tensor)));
  }

  lemma {:induction false} FramesPush(ms: seq<Message>, m: Message)
    ensures Frames(ms + [m]) == Frames(ms) + Frame(m.offset, Encoding(m.tensor))
    decreases |ms|
  {
    if ms == [] {
      assert [m][1..] == [];
    } else {
      FramesPush(ms[1..], m);
      assert (ms + [m])[1..] == ms[1..] + [m];
      Append(Frame(ms[0].offset, Encoding(ms[0].tensor)), Frames(ms[1..]), Frame(m.offset, Encoding(m.tensor)));
    }
  }

  lemma ReadOne(m: Message, tail: seq<Byte>, limit: Option<nat>)
    requires Sendable(m, limit)
    ensures ReadAll(Frame(m.offset, Encoding(m.tensor)) + tail, limit)
         == ([m] + ReadAll(tail, limit).0, ReadAll(tail, limit).1)
  {
    EncodingLength(m.tensor);
    FrameRoundTrip(m.offset, Encoding(m.tensor), tail, limit);
    TensorRoundTrip(m.tensor);
  }

  /** Reading the frames of any sequence of tensors and the end mark gives the same sequence, then the end. */
  lemma {:induction false} SessionRoundTrip(ms: seq<Message>, rest: seq<Byte>, limit: Option<nat>)
    requires forall i :: 0 <= i < |ms| ==> Sendable(ms[i], limit)
    ensures ReadAll(Frames(ms) + (EndMark() + rest), limit) == (ms, Closed)
    decreases |ms|
  {
    if ms == [] {
      assert Frames(ms) + (EndMark() + rest) == EndMark() + rest;
      EndMarkEnds(rest, limit);
    } else {
      assert Sendable(ms[0], limit);
      SessionRoundTrip(ms[1..], rest, limit);
      Append(Frame(ms[0].offset, Encoding(ms[0].tensor)), Frames(ms[1..]), EndMark() + rest);
      ReadOne(ms[0], Frames(ms[1..]) + (EndMark() + rest), limit);
      assert [ms[0]] + ms[1..] == ms;
    }
  }

  /** End to end over one stream and one buffer. */
  method Session(ms: seq<Message>, limit: Option<nat>) returns (got: seq<Message>, outcome: Outcome)
    requires forall i :: 0 <= i < |ms| ==> Sendable(ms[i], limit)
    ensures got == ms && outcome == Closed
  {
    var stream := new ByteStream();
    SendSession(stream, ms);
    SentBytes(Frames(ms), EndMark());
    SessionRoundTrip(ms, [], limit);
    got, outcome := ReceiveSession(stream, limit);
  }

  lemma SentBytes(frames: seq<Byte>, mark: seq<Byte>)
    ensures [] + frames + mark == frames + (mark + [])
  {
  }
}
