/** The 256-bit layer bitmap and its text of 64 hexadecimal digits. */
module Bitmaps {
  import opened Common

  /** 32 bytes; layer i is bit i % 8 of byte i / 8. */
  type Bitmap = b: seq<bv8> | |b| == 32 witness seq(32, _ => 0)

  /** 1 << k */
  function Mask(k: nat): bv8
    requires k < 8
  {
    if k == 0 then 1 else if k == 1 then 2 else if k == 2 then 4 else if k == 3 then 8
    else if k == 4 then 16 else if k == 5 then 32 else if k == 6 then 64 else 128
  }

  predicate HasBit(b: bv8, k: nat)
    requires k < 8
  {
    b & Mask(k) != 0
  }

  predicate Has(b: Bitmap, layer: nat)
    requires layer < 256
  {
    HasBit(b[layer / 8], layer % 8)
  }

  function Layers(b: Bitmap): (s: set<nat>)
    ensures forall i :: i in s <==> i < 256 && Has(b, i)
  {
    set i: nat | i < 256 && Has(b, i)
  }

  lemma SetBit(b: bv8, k: nat, j: nat)
    requires k < 8 && j < 8
    ensures HasBit(b | Mask(k), j) <==> j == k || HasBit(b, j)
  {
  }

  lemma SameBits(a: bv8, b: bv8)
    requires forall k: nat :: k < 8 ==> (HasBit(a, k) <==> HasBit(b, k))
    ensures a == b
  {
    assert HasBit(a, 0) <==> HasBit(b, 0);
    assert HasBit(a, 1) <==> HasBit(b, 1);
    assert HasBit(a, 2) <==> HasBit(b, 2);
    assert HasBit(a, 3) <==> HasBit(b, 3);
    assert HasBit(a, 4) <==> HasBit(b, 4);
    assert HasBit(a, 5) <==> HasBit(b, 5);
    assert HasBit(a, 6) <==> HasBit(b, 6);
    assert HasBit(a, 7) <==> HasBit(b, 7);
  }

  /** A bitmap is the set of its layers. */
  lemma LayersDetermine(a: Bitmap, b: Bitmap)
    requires Layers(a) == Layers(b)
    ensures a == b
  {
    forall i | 0 <= i < 32 ensures a[i] == b[i] {
      forall k: nat | k < 8 ensures HasBit(a[i], k) <==> HasBit(b[i], k) {
        assert Has(a, 8 * i + k) <==> 8 * i + k in Layers(a);
        assert Has(b, 8 * i + k) <==> 8 * i + k in Layers(b);
      }
      SameBits(a[i], b[i]);
    }
  }

  /** The byte of eight bits, lowest first. */
  function ByteOf(bits: int -> bool): bv8 {
    (if bits(0) then 1 else 0) | (if bits(1) then 2 else 0) | (if bits(2) then 4 else 0) | (if bits(3) then 8 else 0)
    | (if bits(4) then 16 else 0) | (if bits(5) then 32 else 0)
    | (if bits(6) then 64 else 0) | (if bits(7) then 128 else 0)
  }

  lemma BitOfByte(bits: int -> bool, k: nat)
    requires k < 8
    ensures HasBit(ByteOf(bits), k) <==> bits(k)
  {
  }

  /** The bitmap of a set of layers; layers past 255 have no bit. */
  function BitmapOf(s: set<nat>): Bitmap {
    seq(32, i requires 0 <= i < 32 => ByteOf(k => 8 * i + k in s))
  }

  lemma LayersOfBitmap(s: set<nat>)
    ensures Layers(BitmapOf(s)) == set i | i in s && i < 256
  {
    forall i: nat | i < 256 ensures Has(BitmapOf(s), i) <==> i in s {
      assert BitmapOf(s)[i / 8] == ByteOf(k => 8 * (i / 8) + k in s);
      BitOfByte(k => 8 * (i / 8) + k in s, i % 8);
    }
  }

  function Or(a: Bitmap, b: Bitmap): Bitmap {
    seq(32, i requires 0 <= i < 32 => a[i] | b[i])
  }

  function And(a: Bitmap, b: Bitmap): Bitmap {
    seq(32, i requires 0 <= i < 32 => a[i] & b[i])
  }

  function NoLayers(): Bitmap {
    seq(32, _ => 0)
  }

  /** All the bitmaps combined. */
  function OrAll(bs: seq<Bitmap>): Bitmap {
    if bs == [] then NoLayers() else Or(OrAll(bs[..|bs| - 1]), bs[|bs| - 1])
  }

  lemma OrBits(a: bv8, b: bv8, k: nat)
    requires k < 8
    ensures HasBit(a | b, k) <==> HasBit(a, k) || HasBit(b, k)
    ensures HasBit(a & b, k) <==> HasBit(a, k) && HasBit(b, k)
  {
  }

  /** Bitwise operations are the operations on sets of layers. */
  lemma OrIsUnion(a: Bitmap, b: Bitmap)
    ensures Layers(Or(a, b)) == Layers(a) + Layers(b)
  {
    forall i: nat | i < 256 ensures Has(Or(a, b), i) <==> Has(a, i) || Has(b, i) {
      OrBits(a[i / 8], b[i / 8], i % 8);
    }
  }

  lemma AndIsIntersection(a: Bitmap, b: Bitmap)
    ensures Layers(And(a, b)) == Layers(a) * Layers(b)
  {
    forall i: nat | i < 256 ensures Has(And(a, b), i) <==> Has(a, i) && Has(b, i) {
      OrBits(a[i / 8], b[i / 8], i % 8);
    }
  }

  lemma NoneIsEmpty()
    ensures Layers(NoLayers()) == {}
  {
    forall i: nat | i < 256 ensures !Has(NoLayers(), i) {
      assert NoLayers()[i / 8] == 0;
    }
  }

  /** Sets one bit: `bitmap[i / 8] |= 1 << (i % 8)`. */
  method Set(bitmap: array<bv8>, layer: nat)
    requires bitmap.Length == 32 && layer < 256
    modifies bitmap
    ensures Layers(bitmap[..]) == Layers(old(bitmap[..])) + {layer}
  {
    bitmap[layer / 8] := bitmap[layer / 8] | Mask(layer % 8);
    forall i: nat | i < 256 ensures Has(bitmap[..], i) <==> i == layer || old(Has(bitmap[..], i)) {
      SetBit(old(bitmap[layer / 8]), layer % 8, i % 8);
    }
  }

  /** The bitmap of a full file: one bit per block of the model that has a tensor. */
  method BuildLayerBitmap(present: set<nat>, numLayers: nat) returns (bitmap: array<bv8>)
    ensures fresh(bitmap) && bitmap.Length == 32
    ensures Layers(bitmap[..]) == set i | i in present && i < numLayers && i < 256
  {
    bitmap := new bv8[32](_ => 0);
    assert bitmap[..] == NoLayers();
    NoneIsEmpty();
    for i := 0 to numLayers
      invariant Layers(bitmap[..]) == set j | j in present && j < i && j < 256
    {
      if i in present {
        if i / 8 < 32 {
          Set(bitmap, i);
        }
      }
    }
  }

  // ---------------------------------------------------------------- hexadecimal text

  function HexDigit(n: bv8): char
    requires n < 16
  {
    if n == 0 then '0' else if n == 1 then '1' else if n == 2 then '2' else if n == 3 then '3' else if n == 4 then '4'
    else if n == 5 then '5' else if n == 6 then '6' else if n == 7 then '7' else if n == 8 then '8'
    else if n == 9 then '9'
    else if n == 10 then 'a' else if n == 11 then 'b' else if n == 12 then 'c' else if n == 13 then 'd'
    else if n == 14 then 'e'
    else 'f'
  }

  function HexValue(c: char): Option<bv8> {
    match c
    case '0' => Some(0)
    case '1' => Some(1)
    case '2' => Some(2)
    case '3' => Some(3)
    case '4' => Some(4)
    case '5' => Some(5)
    case '6' => Some(6)
    case '7' => Some(7)
    case '8' => Some(8)
    case '9' => Some(9)
    case 'a' => Some(10)
    case 'b' => Some(11)
    case 'c' => Some(12)
    case 'd' => Some(13)
    case 'e' => Some(14)
    case 'f' => Some(15)
    case 'A' => Some(10)
    case 'B' => Some(11)
    case 'C' => Some(12)
    case 'D' => Some(13)
    case 'E' => Some(14)
    case 'F' => Some(15)
    case _ => None
  }

  /** `{:02x}` */
  function ByteText(b: bv8): (s: string)
    ensures |s| == 2
  {
    [HexDigit(b >> 4), HexDigit(b & 15)]
  }

  /** `u8::from_str_radix(s, 16)` on two characters; it takes a plus sign for the first. */
  function ParseByte(s: string): Option<bv8>
    requires |s| == 2
  {
    if s[0] == '+' then HexValue(s[1])
    else
      var hi := HexValue(s[0]);
      var lo := HexValue(s[1]);
      if hi.None? || lo.None? then None else Some((hi.value << 4) | lo.value)
  }

  /** Digits are written in lower case and read in either. */
  lemma HexDigitsMean(n: bv8, c: char)
    ensures n < 16 ==> HexDigit(n) in "0123456789abcdef"
    ensures '0' <= c <= '9' ==> HexValue(c).Some? && HexValue(c).value as int == c as int - '0' as int
    ensures 'a' <= c <= 'f' ==> HexValue(c).Some? && HexValue(c).value as int == 10 + (c as int - 'a' as int)
    ensures 'A' <= c <= 'F' ==> HexValue(c).Some? && HexValue(c).value as int == 10 + (c as int - 'A' as int)
    ensures HexValue(c).Some? ==> '0' <= c <= '9' || 'a' <= c <= 'f' || 'A' <= c <= 'F'
  {
  }

  /** Two digits stand for sixteen times the first and the second. */
  lemma ByteMeans(s: string)
    requires |s| == 2 && HexValue(s[0]).Some? && HexValue(s[1]).Some?
    ensures ParseByte(s).Some?
    ensures ParseByte(s).value as int == 16 * (HexValue(s[0]).value as int) + HexValue(s[1]).value as int
  {
    NibblesAdd(HexValue(s[0]).value, HexValue(s[1]).value);
  }

  lemma NibblesAdd(hi: bv8, lo: bv8)
    requires hi < 16 && lo < 16
    ensures ((hi << 4) | lo) as int == 16 * (hi as int) + lo as int
  {
  }

  lemma DigitRoundTrip(n: bv8)
    requires n < 16
    ensures HexValue(HexDigit(n)) == Some(n) && HexDigit(n) != '+' && !IsSpace(HexDigit(n))
  {
  }

  lemma ByteRoundTrip(b: bv8)
    ensures ParseByte(ByteText(b)) == Some(b)
  {
    DigitRoundTrip(b >> 4);
    DigitRoundTrip(b & 15);
    assert ((b >> 4) << 4) | (b & 15) == b;
  }

  /** The two characters of byte i. */
  function Pair(hex: string, i: nat): (s: string)
    requires 2 * i + 2 <= |hex|
    ensures |s| == 2
  {
    hex[2 * i..2 * i + 2]
  }

  ghost predicate IsHexOf(hex: string, b: Bitmap) {
    |hex| == 64 && forall i :: 0 <= i < 32 ==> Pair(hex, i) == ByteText(b[i])
  }

  method ToHex(b: Bitmap) returns (hex: string)
    ensures IsHexOf(hex, b)
  {
    hex := "";
    for i := 0 to 32
      invariant |hex| == 2 * i
      invariant forall j :: 0 <= j < i ==> Pair(hex, j) == ByteText(b[j])
    {
      ghost var before := hex;
      hex := hex + ByteText(b[i]);
      forall j | 0 <= j < i ensures Pair(hex, j) == ByteText(b[j]) {
        assert Pair(hex, j) == Pair(before, j);
      }
    }
  }

  /** White space as Unicode has it. */
  predicate IsSpace(c: char) {
    || c == ' ' || '\t' <= c <= '\r' || c == '\U{85}' || c == '\U{a0}' || c == '\U{1680}'
    || '\U{2000}' <= c <= '\U{200a}' || c == '\U{2028}' || c == '\U{2029}' || c == '\U{202f}'
    || c == '\U{205f}' || c == '\U{3000}'
  }

  /** What trimming leaves: the text without the spaces around it. */
  lemma TrimMeans(s: string)
    ensures var r := TrimEnd(TrimStart(s));
      && (r == "" || (!IsSpace(r[0]) && !IsSpace(r[|r| - 1])))
      && (r == "" || (r[0] !in " \t\r\n" && r[|r| - 1] !in " \t\r\n"))
      && exists a, b :: s == a + r + b && AllSpace(a) && AllSpace(b)
  {
    var a := StartSpaces(s);
    var b := EndSpaces(TrimStart(s));
    assert s == a + TrimEnd(TrimStart(s)) + b;
  }

  predicate AllSpace(s: string) {
    forall i :: 0 <= i < |s| ==> IsSpace(s[i])
  }

  lemma {:induction false} StartSpaces(s: string) returns (a: string)
    ensures s == a + TrimStart(s) && AllSpace(a)
    ensures TrimStart(s) == "" || !IsSpace(TrimStart(s)[0])
    decreases |s|
  {
    a := "";
    if s != [] && IsSpace(s[0]) {
      var rest := StartSpaces(s[1..]);
      a := [s[0]] + rest;
      assert s == [s[0]] + s[1..];
    }
  }

  lemma {:induction false} EndSpaces(s: string) returns (b: string)
    ensures s == TrimEnd(s) + b && AllSpace(b)
    ensures TrimEnd(s) == "" || (!IsSpace(TrimEnd(s)[|TrimEnd(s)| - 1]) && TrimEnd(s)[0] == s[0])
    decreases |s|
  {
    b := "";
    if s != [] && IsSpace(s[|s| - 1]) {
      var rest := EndSpaces(s[..|s| - 1]);
      b := rest + [s[|s| - 1]];
      assert s == s[..|s| - 1] + [s[|s| - 1]];
    }
  }

  function TrimStart(s: string): string {
    if s != [] && IsSpace(s[0]) then TrimStart(s[1..]) else s
  }

  function TrimEnd(s: string): string {
    if s != [] && IsSpace(s[|s| - 1]) then TrimEnd(s[..|s| - 1]) else s
  }

  /** What the lenient reader makes of byte i: 0 where the text is too short or not a number. */
  function LenientByte(hex: string, i: nat): bv8 {
    if 2 * i + 2 <= |hex| && ParseByte(Pair(hex, i)).Some? then ParseByte(Pair(hex, i)).value else 0
  }

  /** The reader of the model files: it never fails. */
  method ParseBitmapHex(text: string) returns (bitmap: array<bv8>)
    ensures fresh(bitmap) && bitmap.Length == 32
    ensures forall i :: 0 <= i < 32 ==> bitmap[i] == LenientByte(TrimEnd(TrimStart(text)), i)
    ensures var hex := TrimEnd(TrimStart(text));
      && (forall i :: 0 <= i < 32 && 2 * i + 2 <= |hex| && ParseByte(Pair(hex, i)).Some? ==>
            ParseByte(Pair(hex, i)) == Some(bitmap[i]))
      && forall i :: 0 <= i < 32 && (2 * i + 2 > |hex| || ParseByte(Pair(hex, i)).None?) ==> bitmap[i] == 0
  {
    bitmap := new bv8[32](_ => 0);
    var hex := TrimEnd(TrimStart(text));
    var n := if |hex| / 2 < 32 then |hex| / 2 else 32;
    for i := 0 to n
      invariant forall j :: 0 <= j < i ==> bitmap[j] == LenientByte(hex, j)
      invariant forall j :: i <= j < 32 ==> bitmap[j] == 0
    {
      var b := ParseByte(Pair(hex, i));
      if b.Some? {
        bitmap[i] := b.value;
      }
    }
  }

  datatype HexError = WrongLength | InvalidHex(byte: nat)

  /** The reader of the peer messages: it wants all 64 digits. */
  method Deserialize(hex: string) returns (r: Result<Bitmap, HexError>)
    ensures r.Ok? <==> |hex| == 64 && forall i :: 0 <= i < 32 ==> ParseByte(Pair(hex, i)).Some?
    ensures r.Ok? ==> forall i :: 0 <= i < 32 ==> ParseByte(Pair(hex, i)) == Some(r.value[i])
    ensures |hex| != 64 ==> r == Err(WrongLength)
    ensures |hex| == 64 && r.Err? ==>
      && r.error.InvalidHex? && r.error.byte < 32 && ParseByte(Pair(hex, r.error.byte)).None?
      && forall i :: 0 <= i < r.error.byte ==> ParseByte(Pair(hex, i)).Some?
  {
    if |hex| != 64 {
      return Err(WrongLength);
    }
    var bitmap := new bv8[32](_ => 0);
    for i := 0 to 32
      invariant forall j :: 0 <= j < i ==> ParseByte(Pair(hex, j)) == Some(bitmap[j])
    {
      var b := ParseByte(Pair(hex, i));
      if b.None? {
        return Err(InvalidHex(i));
      }
      bitmap[i] := b.value;
    }
    r := Ok(bitmap[..]);
  }

  lemma HexIsTrimmed(hex: string, b: Bitmap)
    requires IsHexOf(hex, b)
    ensures TrimEnd(TrimStart(hex)) == hex
  {
    assert Pair(hex, 0) == ByteText(b[0]) && Pair(hex, 31) == ByteText(b[31]);
    assert hex[0] == Pair(hex, 0)[0] && hex[63] == Pair(hex, 31)[1];
    DigitRoundTrip(b[0] >> 4);
    DigitRoundTrip(b[31] & 15);
  }

  /** Every reader gets back the bytes that were written. */
  lemma HexRoundTrip(hex: string, b: Bitmap)
    requires IsHexOf(hex, b)
    ensures forall i :: 0 <= i < 32 ==> LenientByte(TrimEnd(TrimStart(hex)), i) == b[i]
    ensures forall i :: 0 <= i < 32 ==> ParseByte(Pair(hex, i)) == Some(b[i])
  {
    HexIsTrimmed(hex, b);
    forall i | 0 <= i < 32 ensures ParseByte(Pair(hex, i)) == Some(b[i]) && LenientByte(hex, i) == b[i] {
      ByteRoundTrip(b[i]);
    }
  }
}
