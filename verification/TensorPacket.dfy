/** The tensor packet: name, shape, dtype name and data, each behind a big-endian length. */
module TensorPacket {
  import opened Common
  import opened Bytes

  datatype Dtype = F32 | F16 | BF16 | Q8_0 | Q4_0 | Q4_1 | Q5_0 | Q5_1 | Q2_K | Q3_K | Q4_K | Q5_K | Q6_K

  /** `name` is the text as UTF-8 bytes. */
  datatype Packet = Packet(name: seq<Byte>, shape: seq<nat>, dtype: Dtype, data: seq<Byte>) {
    /** What the Rust types guarantee. */
    ghost predicate Valid() {
      Utf8(name) && Fit(shape, 8) && |data| < Pow256(8)
    }
  }

  datatype Error = InsufficientData(expected: nat, actual: nat) | InvalidUtf8 | UnknownDtype(name: seq<Byte>)

  // ---------------------------------------------------------------- text

  predicate Continuation(b: Byte) {
    0x80 <= b < 0xC0
  }

  /** The second byte of a three- or four-byte form, after the first. */
  predicate SecondByte(first: Byte, b: Byte) {
    && Continuation(b)
    && (first == 0xE0 ==> b >= 0xA0) && (first == 0xED ==> b < 0xA0)
    && (first == 0xF0 ==> b >= 0x90) && (first == 0xF4 ==> b < 0x90)
  }

  /** Well-formed UTF-8, RFC 3629 section 4. */
  predicate Utf8(bs: seq<Byte>)
    decreases |bs|
  {
    if bs == [] then true
    else if bs[0] < 0x80 then Utf8(bs[1..])
    else if 0xC2 <= bs[0] < 0xE0 then |bs| >= 2 && Continuation(bs[1]) && Utf8(bs[2..])
    else if 0xE0 <= bs[0] < 0xF0 then
      |bs| >= 3 && SecondByte(bs[0], bs[1]) && Continuation(bs[2]) && Utf8(bs[3..])
    else if 0xF0 <= bs[0] < 0xF5 then
      |bs| >= 4 && SecondByte(bs[0], bs[1]) && Continuation(bs[2]) && Continuation(bs[3]) && Utf8(bs[4..])
    else false
  }

  /** A character: a code point outside the surrogates. */
  predicate Scalar(c: nat) {
    c < 0xD800 || 0xE000 <= c < 0x11_0000
  }

  /** A byte that carries the low six bits of n. */
  function Trail(n: nat): Byte {
    var low: nat := n % 0x40;
    0x80 + low
  }

  /** The UTF-8 form of a character, RFC 3629 section 3. */
  function Utf8Form(c: nat): (bs: seq<Byte>)
    requires Scalar(c)
    ensures 1 <= |bs| <= 4
  {
    var sixth: nat, twelfth: nat, eighteenth: nat := c / 0x40, c / 0x1000, c / 0x4_0000;
    if c < 0x80 then [c]
    else if c < 0x800 then [0xC0 + sixth, Trail(c)]
    else if c < 0x1_0000 then [0xE0 + twelfth, Trail(sixth), Trail(c)]
    else [0xF0 + eighteenth, Trail(twelfth), Trail(sixth), Trail(c)]
  }

  function Utf8Text(cs: seq<nat>): seq<Byte>
    requires forall i :: 0 <= i < |cs| ==> Scalar(cs[i])
  {
    if cs == [] then [] else Utf8Form(cs[0]) + Utf8Text(cs[1..])
  }

  function Carried(b: Byte): int {
    b - 0x80
  }

  /** Reading off the low six bits. */
  lemma SixBits(high: nat, low: nat)
    requires low < 0x40
    ensures (high * 0x40 + low) / 0x40 == high && (high * 0x40 + low) % 0x40 == low
  {
  }

  lemma TwoBytes(a: Byte, b: Byte) returns (c: nat)
    requires 0xC2 <= a < 0xE0 && Continuation(b)
    ensures Scalar(c) && Utf8Form(c) == [a, b]
  {
    var high: nat := (a as int) - 0xC0;
    c := high * 0x40 + Carried(b);
    SixBits(high, Carried(b));
  }

  lemma ThreeBytes(a: Byte, b: Byte, d: Byte) returns (c: nat)
    requires 0xE0 <= a < 0xF0 && SecondByte(a, b) && Continuation(d)
    ensures Scalar(c) && Utf8Form(c) == [a, b, d]
  {
    var high: nat := (a as int) - 0xE0;
    var upper := high * 0x40 + Carried(b);
    c := upper * 0x40 + Carried(d);
    SixBits(high, Carried(b));
    SixBits(upper, Carried(d));
    assert c / 0x1000 == c / 0x40 / 0x40;
  }

  lemma FourBytes(a: Byte, b: Byte, d: Byte, e: Byte) returns (c: nat)
    requires 0xF0 <= a < 0xF5 && SecondByte(a, b) && Continuation(d) && Continuation(e)
    ensures Scalar(c) && Utf8Form(c) == [a, b, d, e]
  {
    var high: nat := (a as int) - 0xF0;
    var upper := high * 0x40 + Carried(b);
    var middle := upper * 0x40 + Carried(d);
    c := middle * 0x40 + Carried(e);
    SixBits(high, Carried(b));
    SixBits(upper, Carried(d));
    SixBits(middle, Carried(e));
    assert c / 0x1000 == c / 0x40 / 0x40 && c / 0x4_0000 == c / 0x40 / 0x40 / 0x40;
  }

  /** A well-formed sequence starts with the form of a character. */
  lemma FirstCharacter(bs: seq<Byte>) returns (c: nat)
    requires bs != [] && Utf8(bs)
    ensures Scalar(c) && Utf8Form(c) <= bs && Utf8(bs[|Utf8Form(c)|..])
  {
    if bs[0] < 0x80 {
      c := bs[0];
    } else if bs[0] < 0xE0 {
      c := TwoBytes(bs[0], bs[1]);
    } else if bs[0] < 0xF0 {
      c := ThreeBytes(bs[0], bs[1], bs[2]);
    } else {
      c := FourBytes(bs[0], bs[1], bs[2], bs[3]);
    }
  }

  /** The form of a character in front of well-formed bytes is well-formed. */
  lemma FormThenUtf8(c: nat, rest: seq<Byte>)
    requires Scalar(c) && Utf8(rest)
    ensures Utf8(Utf8Form(c) + rest)
  {
    var form := Utf8Form(c);
    assert (form + rest)[|form|..] == rest;
    assert forall i :: 0 <= i < |form| ==> (form + rest)[i] == form[i];
  }

  ghost predicate IsText(bs: seq<Byte>, cs: seq<nat>) {
    (forall i :: 0 <= i < |cs| ==> Scalar(cs[i])) && bs == Utf8Text(cs)
  }

  /** The well-formed sequences are the forms of the sequences of characters. */
  lemma {:induction false} Utf8Means(bs: seq<Byte>)
    ensures Utf8(bs) <==> exists cs :: IsText(bs, cs)
    decreases |bs|
  {
    if Utf8(bs) {
      var cs := CharactersOf(bs);
    }
    if cs :| IsText(bs, cs) {
      TextIsUtf8(cs);
    }
  }

  lemma {:induction false} CharactersOf(bs: seq<Byte>) returns (cs: seq<nat>)
    requires Utf8(bs)
    ensures IsText(bs, cs)
    decreases |bs|
  {
    cs := [];
    if bs != [] {
      var c := FirstCharacter(bs);
      var rest := CharactersOf(bs[|Utf8Form(c)|..]);
      cs := [c] + rest;
      assert cs[1..] == rest && bs == Utf8Form(c) + bs[|Utf8Form(c)|..];
    }
  }

  lemma {:induction false} TextIsUtf8(cs: seq<nat>)
    requires forall i :: 0 <= i < |cs| ==> Scalar(cs[i])
    ensures Utf8(Utf8Text(cs))
  {
    if cs != [] {
      TextIsUtf8(cs[1..]);
      FormThenUtf8(cs[0], Utf8Text(cs[1..]));
    }
  }

  function AsStr(d: Dtype): (s: seq<Byte>)
    ensures 3 <= |s| <= 4
  {
    match d
    case F32 => ['F' as int, '3' as int, '2' as int]
    case F16 => ['F' as int, '1' as int, '6' as int]
    case BF16 => ['B' as int, 'F' as int, '1' as int, '6' as int]
    case Q8_0 => Quant('8', '0')
    case Q4_0 => Quant('4', '0')
    case Q4_1 => Quant('4', '1')
    case Q5_0 => Quant('5', '0')
    case Q5_1 => Quant('5', '1')
    case Q2_K => Quant('2', 'K')
    case Q3_K => Quant('3', 'K')
    case Q4_K => Quant('4', 'K')
    case Q5_K => Quant('5', 'K')
    case Q6_K => Quant('6', 'K')
  }

  /** "Q{bits}_{kind}" */
  function Quant(bits: char, kind: char): (s: seq<Byte>)
    requires bits < 128 as char && kind < 128 as char
    ensures |s| == 4
  {
    ['Q' as int, bits as int, '_' as int, kind as int]
  }

  function FromStr(s: seq<Byte>): Option<Dtype> {
    if s == AsStr(F32) then Some(F32) else if s == AsStr(F16) then Some(F16) else if s == AsStr(BF16) then Some(BF16)
    else if s == AsStr(Q8_0) then Some(Q8_0)
    else if s == AsStr(Q4_0) then Some(Q4_0)
    else if s == AsStr(Q4_1) then Some(Q4_1)
    else if s == AsStr(Q5_0) then Some(Q5_0)
    else if s == AsStr(Q5_1) then Some(Q5_1)
    else if s == AsStr(Q2_K) then Some(Q2_K)
    else if s == AsStr(Q3_K) then Some(Q3_K)
    else if s == AsStr(Q4_K) then Some(Q4_K)
    else if s == AsStr(Q5_K) then Some(Q5_K)
    else if s == AsStr(Q6_K) then Some(Q6_K) else None
  }

  /** The names as they are written. */
  function NameText(d: Dtype): string {
    match d
    case F32 => "F32"    case F16 => "F16"    case BF16 => "BF16"  case Q8_0 => "Q8_0"
    case Q4_0 => "Q4_0"  case Q4_1 => "Q4_1"  case Q5_0 => "Q5_0"  case Q5_1 => "Q5_1"
    case Q2_K => "Q2_K"  case Q3_K => "Q3_K"  case Q4_K => "Q4_K"  case Q5_K => "Q5_K"  case Q6_K => "Q6_K"
  }

  lemma NamesAreWritten(d: Dtype)
    ensures |NameText(d)| == |AsStr(d)|
    ensures forall i :: 0 <= i < |AsStr(d)| ==> AsStr(d)[i] == NameText(d)[i] as int
  {
  }

  lemma FromStrIsExact(s: seq<Byte>, d: Dtype)
    ensures FromStr(s) == Some(d) ==> s == AsStr(d)
  {
  }

  lemma FromStrIsComplete(s: seq<Byte>, d: Dtype)
    ensures FromStr(s).None? ==> s != AsStr(d)
  {
    match d
    case F32 => case F16 => case BF16 => case Q8_0 => case Q4_0 => case Q4_1 => case Q5_0 => case Q5_1 =>
    case Q2_K => case Q3_K => case Q4_K => case Q5_K => case Q6_K =>
  }

  /** Every dtype is read back from its name, and a name is read as a dtype only if it is its name. */
  lemma DtypeRoundTrip(d: Dtype, s: seq<Byte>)
    ensures FromStr(s) == Some(d) <==> s == AsStr(d)
  {
    FromStrIsExact(s, d);
    FromStrIsComplete(s, d);
    if s == AsStr(d) {
      FromStrIsExact(s, FromStr(s).value);
      AsStrIsInjective(d);
    }
  }

  lemma AsStrIsInjective(d: Dtype)
    ensures forall c: Dtype :: AsStr(c) == AsStr(d) ==> c == d
  {
    forall c: Dtype | AsStr(c) == AsStr(d) ensures c == d {
      assert AsStr(c)[0] == AsStr(d)[0] && AsStr(c)[1] == AsStr(d)[1] && AsStr(c)[2] == AsStr(d)[2];
      assert |AsStr(c)| == 4 ==> AsStr(c)[3] == AsStr(d)[3];
    }
  }

  lemma AsciiIsUtf8(d: Dtype)
    ensures Utf8(AsStr(d))
  {
    var s := AsStr(d);
    assert forall i :: 0 <= i < |s| ==> s[i] < 0x80;
    PlainIsUtf8(s);
  }

  lemma {:induction false} PlainIsUtf8(s: seq<Byte>)
    requires forall i :: 0 <= i < |s| ==> s[i] < 0x80
    ensures Utf8(s)
    decreases |s|
  {
    if s != [] {
      PlainIsUtf8(s[1..]);
    }
  }
}
