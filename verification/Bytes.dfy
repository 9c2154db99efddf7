/** Bytes and fixed-width integers, little and big endian. */
module Bytes {
  type Byte = b: int | 0 <= b < 256

  function Pow256(width: nat): (p: nat)
    ensures p >= 1
  {
    if width == 0 then 1 else 256 * Pow256(width - 1)
  }

  /** The bytes of a text of ASCII characters. */
  function Ascii(s: string): (text: seq<Byte>)
    requires forall i :: 0 <= i < |s| ==> s[i] < 128 as char
    ensures |text| == |s| && forall i :: 0 <= i < |s| ==> text[i] == s[i] as int
  {
    seq(|s|, i requires 0 <= i < |s| => s[i] as int)
  }

  /** The low `width` bytes of n, least significant first. */
  function LE(n: nat, width: nat): (bs: seq<Byte>)
    ensures |bs| == width
  {
    if width == 0 then [] else [n % 256] + LE(n / 256, width - 1)
  }

  function FromLE(bs: seq<Byte>): nat {
    if bs == [] then 0 else bs[0] + 256 * FromLE(bs[1..])
  }

  /** The low `width` bytes of n, most significant first. */
  function BE(n: nat, width: nat): (bs: seq<Byte>)
    ensures |bs| == width
  {
    if width == 0 then [] else BE(n / 256, width - 1) + [n % 256]
  }

  function FromBE(bs: seq<Byte>): nat {
    if bs == [] then 0 else FromBE(bs[..|bs| - 1]) * 256 + bs[|bs| - 1]
  }

  lemma {:induction false} LERoundTrip(n: nat, width: nat)
    requires n < Pow256(width)
    ensures FromLE(LE(n, width)) == n
  {
    if width > 0 {
      LERoundTrip(n / 256, width - 1);
      assert LE(n, width)[1..] == LE(n / 256, width - 1);
    }
  }

  lemma QuotientIsUnique(n: nat, d: nat, q: nat, r: nat)
    requires r < d && n == d * q + r
    ensures n / d == q
  {
    var k := n / d - q;
    assert d * k == r - n % d;
    assert k >= 1 ==> d * k >= d;
    assert k <= -1 ==> d * -k >= d;
  }

  lemma DivideTwice(n: nat, p: nat)
    requires p > 0
    ensures n / 256 / p == n / (256 * p)
  {
    var m := n / 256;
    var q := m / p;
    assert m == p * q + m % p;
    assert n == 256 * (p * q + m % p) + n % 256 == (256 * p) * q + (256 * (m % p) + n % 256);
    QuotientIsUnique(n, 256 * p, q, 256 * (m % p) + n % 256);
  }

  /** Byte i of the little-endian form is digit i to the base 256. */
  lemma {:induction false} LEDigit(n: nat, width: nat, i: nat)
    requires i < width
    ensures LE(n, width)[i] == n / Pow256(i) % 256
  {
    if i > 0 {
      LEDigit(n / 256, width - 1, i - 1);
      DivideTwice(n, Pow256(i - 1));
    }
  }

  /** The big-endian form has the same digits the other way round. */
  lemma {:induction false} BEDigit(n: nat, width: nat, i: nat)
    requires i < width
    ensures BE(n, width)[width - 1 - i] == n / Pow256(i) % 256
  {
    if i > 0 {
      BEDigit(n / 256, width - 1, i - 1);
      DivideTwice(n, Pow256(i - 1));
    }
  }

  /** Every byte sequence is the little-endian form of the number it stands for. */
  lemma {:induction false} LEOfValue(bs: seq<Byte>)
    ensures LE(FromLE(bs), |bs|) == bs
  {
    if bs != [] {
      LEOfValue(bs[1..]);
      assert FromLE(bs) % 256 == bs[0] && FromLE(bs) / 256 == FromLE(bs[1..]);
    }
  }

  lemma {:induction false} LEBound(bs: seq<Byte>)
    ensures FromLE(bs) < Pow256(|bs|)
  {
    if bs != [] {
      LEBound(bs[1..]);
    }
  }

  lemma {:induction false} BERoundTrip(n: nat, width: nat)
    requires n < Pow256(width)
    ensures FromBE(BE(n, width)) == n
  {
    if width > 0 {
      BERoundTrip(n / 256, width - 1);
      assert BE(n, width)[..width - 1] == BE(n / 256, width - 1);
    }
  }

  lemma {:induction false} BEBound(bs: seq<Byte>)
    ensures FromBE(bs) < Pow256(|bs|)
  {
    if bs != [] {
      BEBound(bs[..|bs| - 1]);
    }
  }

  lemma Widths()
    ensures Pow256(1) == 0x100
    ensures Pow256(2) == 0x1_0000
    ensures Pow256(4) == 0x1_0000_0000
    ensures Pow256(8) == 0x1_0000_0000_0000_0000
  {
    assert Pow256(3) == 0x100_0000;
    assert Pow256(4) == 0x1_0000_0000;
    assert Pow256(5) == 0x100_0000_0000;
    assert Pow256(6) == 0x1_0000_0000_0000;
    assert Pow256(7) == 0x100_0000_0000_0000;
  }

  // ---------------------------------------------------------------- arrays of integers

  /** Integers of `width` bytes, one after the other. */
  function Pack(xs: seq<nat>, width: nat): (bs: seq<Byte>)
    ensures |bs| == |xs| * width
  {
    if xs == [] then []
    else
      var rest := Pack(xs[..|xs| - 1], width);
      assert |xs| * width == (|xs| - 1) * width + width;
      rest + LE(xs[|xs| - 1], width)
  }

  function Unpack(bs: seq<Byte>, width: nat, n: nat): (xs: seq<nat>)
    requires |bs| == n * width
    ensures |xs| == n
    decreases n
  {
    if n == 0 then []
    else
      assert n * width == (n - 1) * width + width;
      Unpack(bs[..(n - 1) * width], width, n - 1) + [FromLE(bs[(n - 1) * width..])]
  }

  ghost predicate Fit(xs: seq<nat>, width: nat) {
    forall i :: 0 <= i < |xs| ==> xs[i] < Pow256(width)
  }

  lemma FrontSlice(a: seq<Byte>, b: seq<Byte>, p: nat, q: nat)
    requires p <= q <= |a|
    ensures (a + b)[p..q] == a[p..q]
  {
  }

  lemma BackSlice(a: seq<Byte>, b: seq<Byte>)
    ensures (a + b)[|a|..|a| + |b|] == b
  {
  }

  /** Integer i stands at its place. */
  lemma {:induction false} PackedAt(xs: seq<nat>, width: nat, i: nat, p: nat)
    requires i < |xs| && p == i * width
    ensures p + width <= |Pack(xs, width)| && Pack(xs, width)[p..p + width] == LE(xs[i], width)
    decreases |xs|
  {
    var n := |xs| - 1;
    var rest, last := Pack(xs[..n], width), LE(xs[n], width);
    assert Pack(xs, width) == rest + last;
    if i == n {
      BackSlice(rest, last);
    } else {
      PackedAt(xs[..n], width, i, p);
      FrontSlice(rest, last, p, p + width);
    }
  }

  lemma PackPush(xs: seq<nat>, x: nat, width: nat)
    ensures Pack(xs + [x], width) == Pack(xs, width) + LE(x, width)
  {
    assert (xs + [x])[..|xs|] == xs;
  }

  lemma UnpackPush(bs: seq<Byte>, last: seq<Byte>, width: nat, n: nat)
    requires |bs| == n * width && |last| == width
    ensures |bs + last| == (n + 1) * width
    ensures Unpack(bs + last, width, n + 1) == Unpack(bs, width, n) + [FromLE(last)]
  {
    var all := bs + last;
    assert |all| == (n + 1) * width;
    assert all[..n * width] == bs && all[n * width..] == last;
  }

  lemma {:induction false} UnpackOfPack(xs: seq<nat>, width: nat)
    requires Fit(xs, width)
    ensures Unpack(Pack(xs, width), width, |xs|) == xs
    decreases |xs|
  {
    if xs != [] {
      var n := |xs| - 1;
      UnpackOfPack(xs[..n], width);
      LERoundTrip(xs[n], width);
      UnpackPush(Pack(xs[..n], width), LE(xs[n], width), width, n);
      assert xs[..n] + [xs[n]] == xs;
    }
  }

  lemma {:induction false} PackOfUnpack(bs: seq<Byte>, width: nat, n: nat)
    requires |bs| == n * width
    ensures Pack(Unpack(bs, width, n), width) == bs && Fit(Unpack(bs, width, n), width)
    decreases n
  {
    if n > 0 {
      var m := (n - 1) * width;
      assert n * width == m + width;
      var head, last := bs[..m], bs[m..];
      assert bs == head + last;
      PackOfUnpack(head, width, n - 1);
      LEOfValue(last);
      LEBound(last);
      UnpackPush(head, last, width, n - 1);
      PackPush(Unpack(head, width, n - 1), FromLE(last), width);
    }
  }
}
