/**
  A reader of GGUF files, version 2 (GGUF specification, section "File Structure"), that works from the
  bytes alone, and what it makes of the files of the converter.
*/
module PggufReader {
  import opened Bytes
  import opened Common
  import opened PggufLayout

  // ---------------------------------------------------------------- reading

  /** A value read, and the position after it. */
  datatype Read<+T> = Read(value: T, at: nat)

  function TakeBytes(bs: seq<Byte>, at: nat, n: nat): (r: Option<Read<seq<Byte>>>)
    ensures r.Some? ==> r.value.at == at + n <= |bs|
  {
    if at + n <= |bs| then Some(Read(bs[at..at + n], at + n)) else None
  }

  function ReadUnsigned(bs: seq<Byte>, at: nat, width: nat): (r: Option<Read<nat>>)
    ensures r.Some? ==> r.value.at == at + width <= |bs|
  {
    var raw := TakeBytes(bs, at, width);
    if raw.None? then None else Some(Read(FromLE(raw.value.value), raw.value.at))
  }

  /** Two's complement. */
  function ReadSigned(bs: seq<Byte>, at: nat, width: nat): (r: Option<Read<int>>)
    ensures r.Some? ==> r.value.at == at + width <= |bs|
  {
    var raw := ReadUnsigned(bs, at, width);
    if raw.None? then None
    else
      var u := raw.value.value;
      Some(Read(if 2 * u < Pow256(width) then u else u - Pow256(width), raw.value.at))
  }

  function ReadText(bs: seq<Byte>, at: nat): (r: Option<Read<Text>>)
    ensures r.Some? ==> at + 8 <= r.value.at <= |bs|
  {
    var len := ReadUnsigned(bs, at, 8);
    if len.None? then None else TakeBytes(bs, len.value.at, len.value.value)
  }

  function ReadNumber(bs: seq<Byte>, at: nat, code: nat): (r: Option<Read<Value>>)
    ensures r.Some? ==> at < r.value.at <= |bs|
  {
    match code
    case 0 => Wrap(ReadUnsigned(bs, at, 1), (u: nat) => U8(u))
    case 2 => Wrap(ReadUnsigned(bs, at, 2), (u: nat) => U16(u))
    case 4 => Wrap(ReadUnsigned(bs, at, 4), (u: nat) => U32(u))
    case 6 => Wrap(ReadUnsigned(bs, at, 4), (u: nat) => Value.F32(u))
    case 10 => Wrap(ReadUnsigned(bs, at, 8), (u: nat) => U64(u))
    case 12 => Wrap(ReadUnsigned(bs, at, 8), (u: nat) => F64(u))
    case 1 => WrapSigned(ReadSigned(bs, at, 1), (i: int) => I8(i))
    case 3 => WrapSigned(ReadSigned(bs, at, 2), (i: int) => I16(i))
    case 5 => WrapSigned(ReadSigned(bs, at, 4), (i: int) => I32(i))
    case 11 => WrapSigned(ReadSigned(bs, at, 8), (i: int) => I64(i))
    case _ => None
  }

  function Wrap(r: Option<Read<nat>>, f: nat -> Value): (v: Option<Read<Value>>)
    ensures v.Some? <==> r.Some?
    ensures v.Some? ==> v.value.at == r.value.at
  {
    if r.None? then None else Some(Read(f(r.value.value), r.value.at))
  }

  function WrapSigned(r: Option<Read<int>>, f: int -> Value): (v: Option<Read<Value>>)
    ensures v.Some? <==> r.Some?
    ensures v.Some? ==> v.value.at == r.value.at
  {
    if r.None? then None else Some(Read(f(r.value.value), r.value.at))
  }

  function ReadBool(bs: seq<Byte>, at: nat): (r: Option<Read<Value>>)
    ensures r.Some? ==> at < r.value.at <= |bs|
  {
    if at >= |bs| || bs[at] > 1 then None else Some(Read(Bool(bs[at] == 1), at + 1))
  }

  /** A value of the type of that code. */
  function ReadValue(bs: seq<Byte>, at: nat, code: nat): (r: Option<Read<Value>>)
    ensures r.Some? ==> at < r.value.at <= |bs|
    decreases |bs| - at, 0, 0
  {
    if code == 7 then ReadBool(bs, at)
    else if code == 8 then
      var text := ReadText(bs, at);
      if text.None? then None else Some(Read(String(text.value.value), text.value.at))
    else if code == 9 then
      var elem := ReadUnsigned(bs, at, 4);
      if elem.None? then None
      else
        var count := ReadUnsigned(bs, elem.value.at, 8);
        if count.None? then None
        else
          var elems := ReadValues(bs, count.value.at, elem.value.value, count.value.value);
          if elems.None? then None else Some(Read(Array(elems.value.value), elems.value.at))
    else ReadNumber(bs, at, code)
  }

  function ReadValues(bs: seq<Byte>, at: nat, code: nat, n: nat): (r: Option<Read<seq<Value>>>)
    ensures r.Some? ==> at <= r.value.at && (at <= |bs| ==> r.value.at <= |bs|)
    decreases |bs| - at, 1, n
  {
    if n == 0 then Some(Read([], at))
    else
      var first := ReadValue(bs, at, code);
      if first.None? then None
      else
        var rest := ReadValues(bs, first.value.at, code, n - 1);
        if rest.None? then None else Some(Read([first.value.value] + rest.value.value, rest.value.at))
  }

  function ReadEntry(bs: seq<Byte>, at: nat): Option<Read<(Text, Value)>> {
    var key := ReadText(bs, at);
    if key.None? then None
    else
      var code := ReadUnsigned(bs, key.value.at, 4);
      if code.None? then None
      else
        var value := ReadValue(bs, code.value.at, code.value.value);
        if value.None? then None else Some(Read((key.value.value, value.value.value), value.value.at))
  }

  /** n items one after the other. */
  function ReadMany<T>(bs: seq<Byte>, at: nat, n: nat, read: (seq<Byte>, nat) -> Option<Read<T>>): Option<Read<seq<T>>>
    decreases n
  {
    if n == 0 then Some(Read([], at))
    else
      var first := read(bs, at);
      if first.None? then None
      else
        var rest := ReadMany(bs, first.value.at, n - 1, read);
        if rest.None? then None else Some(Read([first.value.value] + rest.value.value, rest.value.at))
  }

  /** What a file says of a tensor; dimensions in the order of the program, which the file turns round. */
  datatype Info = Info(name: Text, dims: seq<nat>, dtype: GgmlDType, offset: nat)

  function DTypeOf(code: nat): Option<GgmlDType> {
    match code
    case 0 => Some(GgmlDType.F32)
    case 1 => Some(F16)
    case 2 => Some(Q4_0)
    case 3 => Some(Q4_1)
    case 6 => Some(Q5_0)
    case 7 => Some(Q5_1)
    case 8 => Some(Q8_0)
    case 9 => Some(Q8_1)
    case 10 => Some(Q2K)
    case 11 => Some(Q3K)
    case 12 => Some(Q4K)
    case 13 => Some(Q5K)
    case 14 => Some(Q6K)
    case _ => None
  }

  /** n dimensions, the last of the file first. */
  function ReadDims(bs: seq<Byte>, at: nat, n: nat): Option<Read<seq<nat>>>
    decreases n
  {
    if n == 0 then Some(Read([], at))
    else
      var first := ReadUnsigned(bs, at, 8);
      if first.None? then None
      else
        var rest := ReadDims(bs, first.value.at, n - 1);
        if rest.None? then None else Some(Read(rest.value.value + [first.value.value], rest.value.at))
  }

  function ReadInfo(bs: seq<Byte>, at: nat): Option<Read<Info>> {
    var name := ReadText(bs, at);
    if name.None? then None
    else
      var n := ReadUnsigned(bs, name.value.at, 4);
      if n.None? then None
      else
        var dims := ReadDims(bs, n.value.at, n.value.value);
        if dims.None? then None
        else
          var code := ReadUnsigned(bs, dims.value.at, 4);
          if code.None? || DTypeOf(code.value.value).None? then None
          else
            var offset := ReadUnsigned(bs, code.value.at, 8);
            if offset.None? then None
            else
              var info := Info(name.value.value, dims.value.value, DTypeOf(code.value.value).value, offset.value.value);
              Some(Read(info, offset.value.at))
  }

  /** The bytes of "general.alignment". */
  function AlignmentKey(): Text {
    [103, 101, 110, 101, 114, 97, 108, 46, 97, 108, 105, 103, 110, 109, 101, 110, 116]
  }

  /** The alignment of the data area; 32 unless given. */
  function Alignment(md: Metadata): (a: nat)
    ensures a > 0
  {
    if md == [] then 32
    else
      var (key, value) := md[|md| - 1];
      if key == AlignmentKey() && value.U32? && value.u > 0 then value.u else Alignment(md[..|md| - 1])
  }

  ghost predicate SetsAlignment(kv: (Text, Value)) {
    kv.0 == Ascii("general.alignment") && kv.1.U32? && kv.1.u > 0
  }

  /** The alignment is that of the last entry that sets it, and 32 when none does. */
  lemma {:induction false} AlignmentMeans(md: Metadata)
    ensures (forall i :: 0 <= i < |md| ==> !SetsAlignment(md[i])) ==> Alignment(md) == 32
    ensures forall i :: 0 <= i < |md| && SetsAlignment(md[i]) && (forall j :: i < j < |md| ==> !SetsAlignment(md[j]))
              ==> Alignment(md) == md[i].1.u
  {
    assert AlignmentKey() == Ascii("general.alignment");
    if md != [] {
      var n := |md| - 1;
      AlignmentMeans(md[..n]);
      assert SetsAlignment(md[n]) <==> md[n].0 == AlignmentKey() && md[n].1.U32? && md[n].1.u > 0;
    }
  }

  function RoundUp(n: nat, a: nat): nat
    requires a > 0
  {
    (n + a - 1) / a * a
  }

  /** A file: its metadata, its tensors and where their data starts. */
  datatype GgufFile = GgufFile(metadata: Metadata, infos: seq<Info>, dataStart: nat)

  function ReadGguf(bs: seq<Byte>): Option<GgufFile> {
    if |bs| < 24 || bs[..4] != [0x47, 0x47, 0x55, 0x46] || FromLE(bs[4..8]) != 2 then None
    else
      var metadata := ReadMany(bs, 24, FromLE(bs[16..24]), ReadEntry);
      if metadata.None? then None
      else
        var infos := ReadMany(bs, metadata.value.at, FromLE(bs[8..16]), ReadInfo);
        if infos.None? then None
        else
          var start := RoundUp(infos.value.at, Alignment(metadata.value.value));
          Some(GgufFile(metadata.value.value, infos.value.value, start))
  }

  // ---------------------------------------------------------------- bytes at a position

  ghost predicate At(bs: seq<Byte>, at: nat, x: seq<Byte>) {
    at + |x| <= |bs| && forall i {:trigger x[i]} :: 0 <= i < |x| ==> bs[at + i] == x[i]
  }

  lemma AtIsSlice(bs: seq<Byte>, at: nat, x: seq<Byte>)
    ensures At(bs, at, x) <==> at + |x| <= |bs| && bs[at..at + |x|] == x
  {
    if at + |x| <= |bs| && bs[at..at + |x|] == x {
      assert forall i {:trigger x[i]} :: 0 <= i < |x| ==> bs[at + i] == bs[at..at + |x|][i];
    }
  }

  /** The read gives this value and ends there. */
  ghost predicate Gives<T(!new)>(r: Option<Read<T>>, value: T, end: nat) {
    r.Some? && r.value.value == value && r.value.at == end
  }

  lemma AtParts(bs: seq<Byte>, at: nat, x: seq<Byte>, y: seq<Byte>)
    requires At(bs, at, x + y)
    ensures At(bs, at, x) && At(bs, at + |x|, y)
  {
    var z := x + y;
    assert forall i {:trigger x[i]} :: 0 <= i < |x| ==> x[i] == z[i];
    assert forall i {:trigger y[i]} :: 0 <= i < |y| ==> y[i] == z[|x| + i];
  }

  lemma UnsignedAt(bs: seq<Byte>, at: nat, n: nat, width: nat)
    requires At(bs, at, LE(n, width)) && n < Pow256(width)
    ensures Gives(ReadUnsigned(bs, at, width), n, at + width)
  {
    AtIsSlice(bs, at, LE(n, width));
    LERoundTrip(n, width);
  }

  lemma SignedAt(bs: seq<Byte>, at: nat, i: int, width: nat)
    requires At(bs, at, Signed(i, width)) && 0 <= 2 * i + Pow256(width) < 2 * Pow256(width)
    ensures Gives(ReadSigned(bs, at, width), i, at + width)
  {
    var p := Pow256(width);
    Residue(i, p);
    UnsignedAt(bs, at, i % p, width);
  }

  lemma Residue(i: int, p: int)
    requires p > 0 && -p <= 2 * i < p
    ensures i % p == if i >= 0 then i else i + p
  {
    if i < 0 {
      assert i == -1 * p + (i + p);
      ModuloShift(i + p, p);
    }
  }

  lemma ModuloShift(r: int, p: int)
    requires 0 <= r < p
    ensures (r - p) % p == r
  {
    assert (r - p) / p == -1;
  }

  lemma TextAt(bs: seq<Byte>, at: nat, s: Text)
    requires At(bs, at, GgufString(s)) && |s| < Pow256(8)
    ensures Gives(ReadText(bs, at), s, at + 8 + |s|)
  {
    AtParts(bs, at, LE(|s|, 8), s);
    AtIsSlice(bs, at + 8, s);
    UnsignedAt(bs, at, |s|, 8);
  }

  function Concat(chunks: seq<seq<Byte>>): seq<Byte> {
    if chunks == [] then [] else Concat(chunks[..|chunks| - 1]) + chunks[|chunks| - 1]
  }

  lemma {:induction false} ConcatFirst(chunks: seq<seq<Byte>>)
    requires chunks != []
    ensures Concat(chunks) == chunks[0] + Concat(chunks[1..])
  {
    var n := |chunks| - 1;
    if n > 0 {
      ConcatFirst(chunks[..n]);
      assert chunks[..n][1..] == chunks[1..][..n - 1];
      Assoc(chunks[0], Concat(chunks[1..][..n - 1]), chunks[n]);
    }
  }

  lemma Assoc(a: seq<Byte>, b: seq<Byte>, c: seq<Byte>)
    ensures (a + b) + c == a + (b + c)
  {
  }

  /** Wherever these bytes stand, the item is read from them. */
  ghost predicate Reads<T(!new)>(read: (seq<Byte>, nat) -> Option<Read<T>>, chunk: seq<Byte>, item: T) {
    forall bs, at: nat :: At(bs, at, chunk) ==> Gives(read(bs, at), item, at + |chunk|)
  }

  lemma {:induction false} ManyAt<T(!new)>(bs: seq<Byte>, at: nat, read: (seq<Byte>, nat) -> Option<Read<T>>,
                                     chunks: seq<seq<Byte>>, items: seq<T>)
    requires |chunks| == |items| && forall i :: 0 <= i < |items| ==> Reads(read, chunks[i], items[i])
    requires At(bs, at, Concat(chunks))
    ensures Gives(ReadMany(bs, at, |items|, read), items, at + |Concat(chunks)|)
    decreases items
  {
    if items != [] {
      var first, rest := chunks[0], Concat(chunks[1..]);
      ConcatFirst(chunks);
      AtParts(bs, at, first, rest);
      assert Reads(read, first, items[0]);
      ManyAt(bs, at + |first|, read, chunks[1..], items[1..]);
      ManyStep(bs, at, |items|, read, items[0], at + |first|, items[1..], at + |first| + |rest|);
      assert [items[0]] + items[1..] == items;
    }
  }

  lemma ManyStep<T(!new)>(bs: seq<Byte>, at: nat, n: nat, read: (seq<Byte>, nat) -> Option<Read<T>>, first: T,
                          mid: nat, rest: seq<T>, end: nat)
    requires n > 0 && Gives(read(bs, at), first, mid) && Gives(ReadMany(bs, mid, n - 1, read), rest, end)
    ensures Gives(ReadMany(bs, at, n, read), [first] + rest, end)
  {
  }

  // ---------------------------------------------------------------- values

  /** The type code of a value in the format. */
  function KindOf(v: Value): nat {
    match v
    case U8(_) => 0
    case I8(_) => 1
    case U16(_) => 2
    case I16(_) => 3
    case U32(_) => 4
    case I32(_) => 5
    case F32(_) => 6
    case Bool(_) => 7
    case String(_) => 8
    case Array(_) => 9
    case U64(_) => 10
    case I64(_) => 11
    case F64(_) => 12
  }

  ghost predicate SignedFits(i: int, width: nat) {
    0 <= 2 * i + Pow256(width) < 2 * Pow256(width)
  }

  /** What the types of the program guarantee, and that the elements of an array are of one type. */
  ghost predicate WellTyped(v: Value) {
    match v
    case U8(u) => u < Pow256(1)
    case U16(u) => u < Pow256(2)
    case U32(u) => u < Pow256(4)
    case U64(u) => u < Pow256(8)
    case F32(bits) => bits < Pow256(4)
    case F64(bits) => bits < Pow256(8)
    case I8(i) => SignedFits(i, 1)
    case I16(i) => SignedFits(i, 2)
    case I32(i) => SignedFits(i, 4)
    case I64(i) => SignedFits(i, 8)
    case Bool(_) => true
    case String(s) => |s| < Pow256(8)
    case Array(elems) =>
      && |elems| < Pow256(8)
      && forall i :: 0 <= i < |elems| ==> WellTyped(elems[i]) && KindOf(elems[i]) == KindOf(elems[0])
  }

  lemma NumberAt(bs: seq<Byte>, at: nat, v: Value)
    requires WellTyped(v) && !v.Array? && !v.String? && !v.Bool? && At(bs, at, Emit(v))
    ensures Gives(ReadNumber(bs, at, KindOf(v)), v, at + |Emit(v)|)
  {
    match v
    case U8(u) => UnsignedAt(bs, at, u, 1);
    case U16(u) => UnsignedAt(bs, at, u, 2);
    case U32(u) => UnsignedAt(bs, at, u, 4);
    case U64(u) => UnsignedAt(bs, at, u, 8);
    case F32(bits) => UnsignedAt(bs, at, bits, 4);
    case F64(bits) => UnsignedAt(bs, at, bits, 8);
    case I8(i) => SignedAt(bs, at, i, 1);
    case I16(i) => SignedAt(bs, at, i, 2);
    case I32(i) => SignedAt(bs, at, i, 4);
    case I64(i) => SignedAt(bs, at, i, 8);
  }

  lemma KindFits(v: Value)
    ensures KindOf(v) < Pow256(4) && KindOf(v) == TypeCode(v)
  {
    Widths();
  }

  /** A value is read back from where it was written, nested arrays included. */
  lemma {:induction false} ValueAt(bs: seq<Byte>, at: nat, v: Value)
    requires WellTyped(v) && At(bs, at, Emit(v))
    ensures Gives(ReadValue(bs, at, KindOf(v)), v, at + |Emit(v)|)
    decreases v, 1
  {
    if v.Array? {
      ArrayAt(bs, at, v.elems);
    } else if v.String? {
      TextAt(bs, at, v.s);
    } else if v.Bool? {
      assert bs[at] == Emit(v)[0];
    } else {
      NumberAt(bs, at, v);
    }
  }

  lemma {:induction false} ArrayAt(bs: seq<Byte>, at: nat, elems: seq<Value>)
    requires WellTyped(Array(elems)) && At(bs, at, Emit(Array(elems)))
    ensures Gives(ReadValue(bs, at, 9), Array(elems), at + |Emit(Array(elems))|)
    decreases elems, 2
  {
    var code := if elems == [] then 4 else KindOf(elems[0]);
    var head, count := LE(code, 4), LE(|elems|, 8);
    if elems != [] {
      KindFits(elems[0]);
    }
    Widths();
    assert Emit(Array(elems)) == head + count + EmitAll(elems);
    AtParts(bs, at, head + count, EmitAll(elems));
    AtParts(bs, at, head, count);
    UnsignedAt(bs, at, code, 4);
    UnsignedAt(bs, at + 4, |elems|, 8);
    ElementsAt(bs, at + 12, elems, code);
  }

  lemma {:induction false} ElementsAt(bs: seq<Byte>, at: nat, vs: seq<Value>, code: nat)
    requires At(bs, at, EmitAll(vs)) && forall i :: 0 <= i < |vs| ==> WellTyped(vs[i]) && KindOf(vs[i]) == code
    ensures Gives(ReadValues(bs, at, code, |vs|), vs, at + |EmitAll(vs)|)
    decreases vs, 0
  {
    if vs != [] {
      var mid := at + |Emit(vs[0])|;
      FirstAt(bs, at, vs, mid);
      ValueAt(bs, at, vs[0]);
      ElementsAt(bs, mid, vs[1..], code);
      ValuesStep(bs, at, code, |vs|, vs[0], mid, vs[1..], mid + |EmitAll(vs[1..])|);
      assert [vs[0]] + vs[1..] == vs;
    }
  }

  lemma FirstAt(bs: seq<Byte>, at: nat, vs: seq<Value>, mid: nat)
    requires vs != [] && At(bs, at, EmitAll(vs)) && mid == at + |Emit(vs[0])|
    ensures At(bs, at, Emit(vs[0])) && At(bs, mid, EmitAll(vs[1..]))
    ensures at + |EmitAll(vs)| == mid + |EmitAll(vs[1..])|
  {
    AtParts(bs, at, Emit(vs[0]), EmitAll(vs[1..]));
  }

  lemma ValuesStep(bs: seq<Byte>, at: nat, code: nat, n: nat, first: Value, mid: nat, rest: seq<Value>, end: nat)
    requires n > 0 && Gives(ReadValue(bs, at, code), first, mid) && Gives(ReadValues(bs, mid, code, n - 1), rest, end)
    ensures Gives(ReadValues(bs, at, code, n), [first] + rest, end)
  {
  }

  // ---------------------------------------------------------------- metadata

  ghost predicate WellTypedEntry(kv: (Text, Value)) {
    |kv.0| < Pow256(8) && WellTyped(kv.1)
  }

  lemma EntryAt(bs: seq<Byte>, at: nat, kv: (Text, Value))
    requires WellTypedEntry(kv) && At(bs, at, MetaEntry(kv))
    ensures Gives(ReadEntry(bs, at), kv, at + |MetaEntry(kv)|)
  {
    var a, b := at + 8 + |kv.0|, at + 8 + |kv.0| + 4;
    EntryParts(bs, at, GgufString(kv.0), a, LE(TypeCode(kv.1), 4), b, Emit(kv.1));
    TextAt(bs, at, kv.0);
    CodeAt(bs, a, kv.1);
    ValueAt(bs, b, kv.1);
    EntryStep(bs, at, kv, a, KindOf(kv.1), b, b + |Emit(kv.1)|);
  }

  lemma CodeAt(bs: seq<Byte>, at: nat, v: Value)
    requires At(bs, at, LE(TypeCode(v), 4))
    ensures Gives(ReadUnsigned(bs, at, 4), KindOf(v), at + 4)
  {
    KindFits(v);
    UnsignedAt(bs, at, KindOf(v), 4);
  }

  lemma EntryParts(bs: seq<Byte>, at: nat, key: seq<Byte>, a: nat, code: seq<Byte>, b: nat, value: seq<Byte>)
    requires At(bs, at, key + code + value) && a == at + |key| && b == a + |code|
    ensures At(bs, at, key) && At(bs, a, code) && At(bs, b, value)
  {
    AtParts(bs, at, key + code, value);
    AtParts(bs, at, key, code);
  }

  lemma EntryStep(bs: seq<Byte>, at: nat, kv: (Text, Value), a: nat, code: nat, b: nat, end: nat)
    requires Gives(ReadText(bs, at), kv.0, a) && Gives(ReadUnsigned(bs, a, 4), code, b)
    requires Gives(ReadValue(bs, b, code), kv.1, end)
    ensures Gives(ReadEntry(bs, at), kv, end)
  {
  }

  function Chunks(md: Metadata): (chunks: seq<seq<Byte>>)
    ensures |chunks| == |md| && forall i :: 0 <= i < |md| ==> chunks[i] == MetaEntry(md[i])
  {
    seq(|md|, i requires 0 <= i < |md| => MetaEntry(md[i]))
  }

  lemma {:induction false} MetaBytesAreChunks(md: Metadata)
    ensures MetaBytes(md) == Concat(Chunks(md))
  {
    if md != [] {
      var n := |md| - 1;
      MetaBytesAreChunks(md[..n]);
      assert Chunks(md)[..n] == Chunks(md[..n]);
    }
  }

  lemma EntryReads(kv: (Text, Value))
    requires WellTypedEntry(kv)
    ensures Reads(ReadEntry, MetaEntry(kv), kv)
  {
    forall bs, at: nat | At(bs, at, MetaEntry(kv)) ensures Gives(ReadEntry(bs, at), kv, at + |MetaEntry(kv)|) {
      EntryAt(bs, at, kv);
    }
  }

  lemma ChunksRead(md: Metadata)
    requires forall i :: 0 <= i < |md| ==> WellTypedEntry(md[i])
    ensures forall i :: 0 <= i < |md| ==> Reads(ReadEntry, Chunks(md)[i], md[i])
  {
    forall i | 0 <= i < |md| ensures Reads(ReadEntry, Chunks(md)[i], md[i]) {
      EntryReads(md[i]);
    }
  }

  // ---------------------------------------------------------------- tensor infos

  ghost predicate WellTypedTensor(t: TensorInfo) {
    && Writable(t) && |t.name| < Pow256(8) && |t.dims| < Pow256(4)
    && forall i :: 0 <= i < |t.dims| ==> t.dims[i] < Pow256(8)
  }

  lemma {:induction false} DimsAt(bs: seq<Byte>, at: nat, dims: seq<nat>)
    requires At(bs, at, ReversedDims(dims)) && forall i :: 0 <= i < |dims| ==> dims[i] < Pow256(8)
    ensures Gives(ReadDims(bs, at, |dims|), dims, at + 8 * |dims|)
    decreases |dims|
  {
    if dims != [] {
      var n := |dims| - 1;
      AtParts(bs, at, LE(dims[n], 8), ReversedDims(dims[..n]));
      UnsignedAt(bs, at, dims[n], 8);
      DimsAt(bs, at + 8, dims[..n]);
      assert dims[..n] + [dims[n]] == dims;
    }
  }

  lemma DTypeCodeRead(d: GgmlDType)
    requires d != OtherDType
    ensures DTypeCode(d) < Pow256(4) && DTypeOf(DTypeCode(d)) == Some(d)
  {
    Widths();
  }

  lemma InfoAt(bs: seq<Byte>, at: nat, t: TensorInfo, offset: nat)
    requires WellTypedTensor(t) && offset < Pow256(8) && At(bs, at, InfoHead(t) + LE(offset, 8))
    ensures Gives(ReadInfo(bs, at), Info(t.name, t.dims, t.dtype, offset), at + |InfoHead(t) + LE(offset, 8)|)
  {
    var a, b := at + 8 + |t.name|, at + 8 + |t.name| + 4 + 8 * |t.dims|;
    InfoParts(bs, at, GgufString(t.name), a, LE(|t.dims|, 4), a + 4, ReversedDims(t.dims), b,
              LE(DTypeCode(t.dtype), 4), b + 4, LE(offset, 8));
    InfoAtParts(bs, at, Info(t.name, t.dims, t.dtype, offset), a, b);
  }

  lemma InfoAtParts(bs: seq<Byte>, at: nat, info: Info, a: nat, b: nat)
    requires |info.name| < Pow256(8) && |info.dims| < Pow256(4) && info.offset < Pow256(8)
    requires info.dtype != OtherDType && forall i :: 0 <= i < |info.dims| ==> info.dims[i] < Pow256(8)
    requires a == at + 8 + |info.name| && b == a + 4 + 8 * |info.dims|
    requires At(bs, at, GgufString(info.name)) && At(bs, a, LE(|info.dims|, 4))
    requires At(bs, a + 4, ReversedDims(info.dims))
    requires At(bs, b, LE(DTypeCode(info.dtype), 4)) && At(bs, b + 4, LE(info.offset, 8))
    ensures Gives(ReadInfo(bs, at), info, b + 12)
  {
    NameAndDimsAt(bs, at, info.name, a, info.dims);
    CodeAndOffsetAt(bs, b, info.dtype, info.offset);
    InfoStep(bs, at, info, |info.dims|, DTypeCode(info.dtype), a, b);
  }

  lemma NameAndDimsAt(bs: seq<Byte>, at: nat, name: Text, a: nat, dims: seq<nat>)
    requires |name| < Pow256(8) && |dims| < Pow256(4) && forall i :: 0 <= i < |dims| ==> dims[i] < Pow256(8)
    requires At(bs, at, GgufString(name)) && At(bs, a, LE(|dims|, 4)) && At(bs, a + 4, ReversedDims(dims))
    ensures Gives(ReadText(bs, at), name, at + 8 + |name|)
    ensures Gives(ReadUnsigned(bs, a, 4), |dims|, a + 4)
    ensures Gives(ReadDims(bs, a + 4, |dims|), dims, a + 4 + 8 * |dims|)
  {
    TextAt(bs, at, name);
    UnsignedAt(bs, a, |dims|, 4);
    DimsAt(bs, a + 4, dims);
  }

  lemma CodeAndOffsetAt(bs: seq<Byte>, b: nat, d: GgmlDType, offset: nat)
    requires d != OtherDType && offset < Pow256(8) && At(bs, b, LE(DTypeCode(d), 4)) && At(bs, b + 4, LE(offset, 8))
    ensures DTypeOf(DTypeCode(d)) == Some(d) && Gives(ReadUnsigned(bs, b, 4), DTypeCode(d), b + 4)
    ensures Gives(ReadUnsigned(bs, b + 4, 8), offset, b + 12)
  {
    DTypeCodeRead(d);
    UnsignedAt(bs, b, DTypeCode(d), 4);
    UnsignedAt(bs, b + 4, offset, 8);
  }

  lemma InfoParts(bs: seq<Byte>, at: nat, name: seq<Byte>, a: nat, n: seq<Byte>, b: nat, dims: seq<Byte>, c: nat,
                  code: seq<Byte>, d: nat, field: seq<Byte>)
    requires At(bs, at, name + n + dims + code + field)
    requires a == at + |name| && b == a + |n| && c == b + |dims| && d == c + |code|
    ensures At(bs, at, name) && At(bs, a, n) && At(bs, b, dims) && At(bs, c, code) && At(bs, d, field)
  {
    AtParts(bs, at, name + n + dims + code, field);
    AtParts(bs, at, name + n + dims, code);
    AtParts(bs, at, name + n, dims);
    AtParts(bs, at, name, n);
  }

  lemma InfoStep(bs: seq<Byte>, at: nat, info: Info, n: nat, code: nat, a: nat, b: nat)
    requires Gives(ReadText(bs, at), info.name, a) && Gives(ReadUnsigned(bs, a, 4), n, a + 4)
    requires Gives(ReadDims(bs, a + 4, n), info.dims, b) && Gives(ReadUnsigned(bs, b, 4), code, b + 4)
    requires DTypeOf(code) == Some(info.dtype) && Gives(ReadUnsigned(bs, b + 4, 8), info.offset, b + 12)
    ensures Gives(ReadInfo(bs, at), info, b + 12)
  {
  }

  /** What the reader should find for the tensors. */
  function InfosOf(ts: seq<TensorInfo>, fields: seq<nat>): (infos: seq<Info>)
    requires |fields| == |ts|
    ensures |infos| == |ts|
    ensures forall i :: 0 <= i < |ts| ==> infos[i] == Info(ts[i].name, ts[i].dims, ts[i].dtype, fields[i])
  {
    seq(|ts|, i requires 0 <= i < |ts| => Info(ts[i].name, ts[i].dims, ts[i].dtype, fields[i]))
  }

  function InfoChunks(ts: seq<TensorInfo>, fields: seq<nat>): (chunks: seq<seq<Byte>>)
    requires |fields| == |ts| && AllWritable(ts)
    ensures |chunks| == |ts| && forall i :: 0 <= i < |ts| ==> chunks[i] == InfoHead(ts[i]) + LE(fields[i], 8)
  {
    seq(|ts|, i requires 0 <= i < |ts| => InfoHead(ts[i]) + LE(fields[i], 8))
  }

  lemma {:induction false} InfoBytesAreChunks(ts: seq<TensorInfo>, fields: seq<nat>)
    requires |fields| == |ts| && AllWritable(ts)
    ensures InfoBytes(ts, fields) == Concat(InfoChunks(ts, fields))
  {
    if ts != [] {
      var n := |ts| - 1;
      InfoBytesAreChunks(ts[..n], fields[..n]);
      assert InfoChunks(ts, fields)[..n] == InfoChunks(ts[..n], fields[..n]);
      Assoc(InfoBytes(ts[..n], fields[..n]), InfoHead(ts[n]), LE(fields[n], 8));
    }
  }

  lemma InfoReads(t: TensorInfo, offset: nat)
    requires WellTypedTensor(t) && offset < Pow256(8)
    ensures Reads(ReadInfo, InfoHead(t) + LE(offset, 8), Info(t.name, t.dims, t.dtype, offset))
  {
    var chunk, info := InfoHead(t) + LE(offset, 8), Info(t.name, t.dims, t.dtype, offset);
    forall bs, at: nat | At(bs, at, chunk) ensures Gives(ReadInfo(bs, at), info, at + |chunk|) {
      InfoAt(bs, at, t, offset);
    }
  }

  lemma InfoChunksRead(ts: seq<TensorInfo>, fields: seq<nat>)
    requires |fields| == |ts| && AllWritable(ts)
    requires forall i :: 0 <= i < |ts| ==> WellTypedTensor(ts[i]) && fields[i] < Pow256(8)
    ensures forall i :: 0 <= i < |ts| ==> Reads(ReadInfo, InfoChunks(ts, fields)[i], InfosOf(ts, fields)[i])
  {
    var chunks, infos := InfoChunks(ts, fields), InfosOf(ts, fields);
    forall i | 0 <= i < |ts| ensures Reads(ReadInfo, chunks[i], infos[i]) {
      InfoReads(ts[i], fields[i]);
    }
  }

  // ---------------------------------------------------------------- the file

  /** All sizes and numbers fit their fields. */
  ghost predicate Representable(md: Metadata, ts: seq<TensorInfo>) {
    && |md| < Pow256(8) && |ts| < Pow256(8) && AllWritable(ts)
    && (forall i :: 0 <= i < |md| ==> WellTypedEntry(md[i]))
    && (forall i :: 0 <= i < |ts| ==> WellTypedTensor(ts[i]) && RecordedOffset(ts, i) < Pow256(8))
  }

  lemma HeaderAt(bs: seq<Byte>, tensors: nat, keys: nat)
    requires At(bs, 0, Header(tensors, keys)) && tensors < Pow256(8) && keys < Pow256(8)
    ensures |bs| >= 24 && bs[..4] == [0x47, 0x47, 0x55, 0x46] && FromLE(bs[4..8]) == 2
    ensures FromLE(bs[8..16]) == tensors && FromLE(bs[16..24]) == keys
  {
    var a, b, c, d := LE(0x46554747, 4), LE(2, 4), LE(tensors, 8), LE(keys, 8);
    AtParts(bs, 0, a + b + c, d);
    AtParts(bs, 0, a + b, c);
    AtParts(bs, 0, a, b);
    AtIsSlice(bs, 0, a);
    AtIsSlice(bs, 4, b);
    AtIsSlice(bs, 8, c);
    AtIsSlice(bs, 16, d);
    Magic();
    Widths();
    LERoundTrip(2, 4);
    LERoundTrip(tensors, 8);
    LERoundTrip(keys, 8);
  }

  lemma Magic()
    ensures LE(0x46554747, 4) == [0x47, 0x47, 0x55, 0x46]
  {
    assert LE(0x46, 1) == [0x46];
    assert LE(0x4655, 2) == [0x55, 0x46];
    assert LE(0x465547, 3) == [0x47, 0x55, 0x46];
  }

  /** A file was read: its metadata, its tensors, and where the part before the data ends. */
  ghost predicate IsFile(r: Option<GgufFile>, md: Metadata, infos: seq<Info>, end: nat) {
    && r.Some? && r.value.metadata == md && r.value.infos == infos
    && r.value.dataStart == RoundUp(end, Alignment(md))
  }

  lemma FrontReads(bs: seq<Byte>, md: Metadata, ts: seq<TensorInfo>, fields: seq<nat>, front: seq<Byte>)
    requires Representable(md, ts) && |fields| == |ts| && forall i :: 0 <= i < |ts| ==> fields[i] < Pow256(8)
    requires front == Front(md, ts, fields) && At(bs, 0, front)
    ensures IsFile(ReadGguf(bs), md, InfosOf(ts, fields), |front|)
  {
    MetaBytesAreChunks(md);
    InfoBytesAreChunks(ts, fields);
    ChunksRead(md);
    InfoChunksRead(ts, fields);
    PartsRead(bs, md, InfosOf(ts, fields), Chunks(md), InfoChunks(ts, fields), front);
  }

  lemma PartsRead(bs: seq<Byte>, md: Metadata, infos: seq<Info>, a: seq<seq<Byte>>, b: seq<seq<Byte>>,
                  front: seq<Byte>)
    requires |md| < Pow256(8) && |infos| < Pow256(8) && |a| == |md| && |b| == |infos|
    requires forall i :: 0 <= i < |md| ==> Reads(ReadEntry, a[i], md[i])
    requires forall i :: 0 <= i < |infos| ==> Reads(ReadInfo, b[i], infos[i])
    requires front == Header(|infos|, |md|) + Concat(a) + Concat(b) && At(bs, 0, front)
    ensures IsFile(ReadGguf(bs), md, infos, |front|)
  {
    var mid := 24 + |Concat(a)|;
    EntryParts(bs, 0, Header(|infos|, |md|), 24, Concat(a), mid, Concat(b));
    HeaderAt(bs, |infos|, |md|);
    ManyAt(bs, 24, ReadEntry, a, md);
    ManyAt(bs, mid, ReadInfo, b, infos);
    FileStep(bs, md, mid, infos, |front|);
  }

  lemma FileStep(bs: seq<Byte>, md: Metadata, mid: nat, infos: seq<Info>, end: nat)
    requires |bs| >= 24 && bs[..4] == [0x47, 0x47, 0x55, 0x46] && FromLE(bs[4..8]) == 2
    requires FromLE(bs[8..16]) == |infos| && FromLE(bs[16..24]) == |md|
    requires Gives(ReadMany(bs, 24, |md|, ReadEntry), md, mid)
    requires Gives(ReadMany(bs, mid, |infos|, ReadInfo), infos, end)
    ensures IsFile(ReadGguf(bs), md, infos, end)
  {
  }

  function Product(ns: seq<nat>): nat {
    if ns == [] then 1 else ns[0] * Product(ns[1..])
  }

  lemma {:induction false} ProductPush(ns: seq<nat>, n: nat)
    ensures Product(ns + [n]) == Product(ns) * n
  {
    if ns == [] {
      assert Product([n]) == n * Product([]);
    } else {
      ProductPush(ns[1..], n);
      assert (ns + [n])[1..] == ns[1..] + [n];
      Associative(ns[0], Product(ns[1..]), n);
    }
  }

  lemma Associative(a: nat, b: nat, c: nat)
    ensures a * (b * c) == a * b * c
  {
  }

  lemma {:induction false} ElementsAreProduct(dims: seq<nat>)
    ensures ElemCount(dims) == Product(dims)
    decreases |dims|
  {
    if dims != [] {
      var n := |dims| - 1;
      ElementsAreProduct(dims[..n]);
      ProductPush(dims[..n], dims[n]);
      assert dims[..n] + [dims[n]] == dims;
    }
  }

  /** The least multiple of 32 from n on. */
  ghost predicate NextMultiple(n: nat, m: nat) {
    n <= m < n + 32 && m % 32 == 0
  }

  /** The next tensor starts behind the bytes of this one, at the next multiple of 32. */
  ghost predicate Follows(offset: nat, t: TensorInfo, next: nat) {
    t.blockSize > 0 && NextMultiple(offset + Product(t.dims) / t.blockSize * t.typeSize, next)
  }

  ghost predicate OffsetsFollow(ts: seq<TensorInfo>, infos: seq<Info>) {
    && |infos| == |ts| && (|ts| > 0 ==> infos[0].offset == 0)
    && forall i {:trigger infos[i]} :: 0 < i < |ts| ==> Follows(infos[i - 1].offset, ts[i - 1], infos[i].offset)
  }

  /** The file is that of these metadata, tensors and data. */
  ghost predicate Holds(bs: seq<Byte>, md: Metadata, ts: seq<TensorInfo>, data: seq<Byte>) {
    ReadGguf(bs).Some? &&
    var file := ReadGguf(bs).value;
    && file.metadata == md
    && |file.infos| == |ts| && OffsetsFollow(ts, file.infos)
    && (forall i :: 0 <= i < |ts| ==>
          file.infos[i].name == ts[i].name && file.infos[i].dims == ts[i].dims && file.infos[i].dtype == ts[i].dtype)
    && (Alignment(md) == 32 ==> file.dataStart <= |bs| && bs[file.dataStart..] == data)
  }

  lemma RoundUp32(n: nat)
    ensures RoundUp(n, 32) == n + Padding(n)
  {
  }

  lemma NextRecorded(ts: seq<TensorInfo>, i: nat)
    requires AllWritable(ts) && 0 < i <= |ts|
    ensures Follows(RecordedOffset(ts, i - 1), ts[i - 1], RecordedOffset(ts, i))
  {
    ElementsAreProduct(ts[i - 1].dims);
    OffsetsAligned(ts, i);
  }

  lemma RecordedFollow(ts: seq<TensorInfo>)
    requires AllWritable(ts)
    ensures OffsetsFollow(ts, InfosOf(ts, RecordedOffsets(ts)))
  {
    var infos := InfosOf(ts, RecordedOffsets(ts));
    forall i | 0 < i < |ts| ensures Follows(infos[i - 1].offset, ts[i - 1], infos[i].offset) {
      NextRecorded(ts, i);
    }
  }

  /** A reader of the written file finds what was to be written. */
  lemma WrittenFileReads(md: Metadata, ts: seq<TensorInfo>, data: seq<Byte>)
    requires Representable(md, ts)
    ensures Holds(FileBytes(md, ts, data), md, ts, data)
  {
    var fields := RecordedOffsets(ts);
    var front := Front(md, ts, fields);
    var padding := Zeros(Padding(|front|));
    var bs := FileBytes(md, ts, data);
    assert bs == front + padding + data;
    assert bs[0..|front|] == front;
    AtIsSlice(bs, 0, front);
    FrontReads(bs, md, ts, fields, front);
    RecordedFollow(ts);
    RoundUp32(|front|);
    assert bs[|front + padding|..] == data;
  }
}
