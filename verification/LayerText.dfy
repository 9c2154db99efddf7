/** Layer ranges as text, "0-3,5,7-9": the peer table and the terminal interface each print them. */
module LayerText {
  import opened Common
  import opened Bitmaps
  import opened Decimal
  import opened Texts

  /** An inclusive range of layers. */
  datatype Range = Range(lo: nat, hi: nat)

  /** The ranges are the maximal runs of the set, in order. */
  ghost predicate MaximalRuns(rs: seq<Range>, s: set<nat>) {
    && (forall i :: 0 <= i < |rs| ==> rs[i].lo <= rs[i].hi)
    && (forall i, j :: 0 <= i < j < |rs| ==> rs[i].hi + 1 < rs[j].lo)
    && (forall x: nat :: x in s <==> Covered(rs, x))
  }

  ghost predicate Covered(rs: seq<Range>, x: nat) {
    exists i :: 0 <= i < |rs| && rs[i].lo <= x <= rs[i].hi
  }

  ghost predicate Increasing(xs: seq<nat>) {
    forall i, j :: 0 <= i < j < |xs| ==> xs[i] < xs[j]
  }

  ghost function SetOf(xs: seq<nat>): set<nat> {
    set i | 0 <= i < |xs| :: xs[i]
  }

  lemma FirstRun(a: seq<Range>, s: set<nat>)
    requires MaximalRuns(a, s) && a != []
    ensures a[0].lo in s && a[0].hi + 1 !in s
    ensures forall x: nat :: a[0].lo <= x <= a[0].hi ==> x in s
    ensures forall x :: x in s ==> a[0].lo <= x
  {
    forall x: nat | a[0].lo <= x <= a[0].hi ensures x in s {
      assert Covered(a, x);
    }
    forall x | x in s ensures a[0].lo <= x {
      assert Covered(a, x);
    }
    if Covered(a, a[0].hi + 1) {
      var i :| 0 <= i < |a| && a[i].lo <= a[0].hi + 1 <= a[i].hi;
      assert false;
    }
  }

  lemma SameFirst(a: seq<Range>, b: seq<Range>, s: set<nat>)
    requires MaximalRuns(a, s) && MaximalRuns(b, s) && a != [] && b != []
    ensures a[0] == b[0]
  {
    FirstRun(a, s);
    FirstRun(b, s);
  }

  /** What is left of the set after its first run. */
  ghost function After(s: set<nat>, r: Range): set<nat> {
    set x | x in s && x > r.hi
  }

  lemma TailRuns(a: seq<Range>, s: set<nat>)
    requires MaximalRuns(a, s) && a != []
    ensures MaximalRuns(a[1..], After(s, a[0]))
  {
    forall x: nat ensures x in After(s, a[0]) <==> Covered(a[1..], x) {
      if x in After(s, a[0]) {
        assert Covered(a, x);
        var i :| 0 <= i < |a| && a[i].lo <= x <= a[i].hi;
        assert a[1..][i - 1] == a[i];
      }
      if Covered(a[1..], x) {
        var i :| 0 <= i < |a[1..]| && a[1..][i].lo <= x <= a[1..][i].hi;
        assert a[i + 1] == a[1..][i] && Covered(a, x);
      }
    }
  }

  /** A set has only one form as maximal runs. */
  lemma {:induction false} RunsAreUnique(a: seq<Range>, b: seq<Range>, s: set<nat>)
    requires MaximalRuns(a, s) && MaximalRuns(b, s)
    ensures a == b
    decreases |a|
  {
    if a == [] {
      if b != [] {
        FirstRun(b, s);
      }
    } else if b == [] {
      FirstRun(a, s);
    } else {
      SameFirst(a, b, s);
      TailRuns(a, s);
      TailRuns(b, s);
      RunsAreUnique(a[1..], b[1..], After(s, a[0]));
    }
  }

  lemma CoveredExtended(before: seq<Range>, after: seq<Range>, x: nat)
    requires |before| <= |after|
    requires forall i :: 0 <= i < |before| ==> before[i].lo == after[i].lo && before[i].hi <= after[i].hi
    requires Covered(before, x)
    ensures Covered(after, x)
  {
    var i :| 0 <= i < |before| && before[i].lo <= x <= before[i].hi;
    assert after[i].lo <= x <= after[i].hi;
  }

  /** The next layer either lengthens the run in hand or starts a new one. */
  lemma LastRunLengthens(done: seq<Range>, start: nat, end: nat, s: set<nat>)
    requires MaximalRuns(done + [Range(start, end)], s)
    ensures MaximalRuns(done + [Range(start, end + 1)], s + {end + 1})
  {
    var before := done + [Range(start, end)];
    var after := done + [Range(start, end + 1)];
    assert before[|done|].lo <= before[|done|].hi;
    assert forall i :: 0 <= i < |done| ==> before[i] == after[i];
    forall x: nat ensures x in s + {end + 1} <==> Covered(after, x) {
      if x in s {
        CoveredExtended(before, after, x);
      }
      if x == end + 1 {
        assert after[|done|].lo <= x <= after[|done|].hi;
      }
      if Covered(after, x) && x != end + 1 {
        var i :| 0 <= i < |after| && after[i].lo <= x <= after[i].hi;
        assert before[i].lo <= x <= before[i].hi;
      }
    }
  }

  lemma NewRunStarts(done: seq<Range>, l: nat, s: set<nat>)
    requires MaximalRuns(done, s) && done != [] && done[|done| - 1].hi + 1 < l
    ensures MaximalRuns(done + [Range(l, l)], s + {l})
  {
    var after := done + [Range(l, l)];
    forall x: nat ensures x in s + {l} <==> Covered(after, x) {
      if x in s {
        CoveredExtended(done, after, x);
      }
      if x == l {
        assert after[|done|].lo <= x <= after[|done|].hi;
      }
      if Covered(after, x) && x != l {
        var i :| 0 <= i < |after| && after[i].lo <= x <= after[i].hi;
        assert done[i].lo <= x <= done[i].hi;
      }
    }
  }

  lemma SetOfPush(xs: seq<nat>, x: nat)
    ensures SetOf(xs + [x]) == SetOf(xs) + {x}
  {
    var ys := xs + [x];
    forall y ensures y in SetOf(ys) <==> y in SetOf(xs) || y == x {
      if y in SetOf(xs) {
        var i :| 0 <= i < |xs| && xs[i] == y;
        assert ys[i] == y;
      }
      if y == x {
        assert ys[|xs|] == y;
      }
    }
  }

  /** `"{}"` for one layer and `"{}-{}"` for more. */
  function RunText(r: Range): string {
    if r.lo == r.hi then Text(r.lo) else Text(r.lo) + "-" + Text(r.hi)
  }

  function RunTexts(rs: seq<Range>): (ts: seq<string>)
    ensures |ts| == |rs| && forall i :: 0 <= i < |rs| ==> ts[i] == RunText(rs[i])
  {
    seq(|rs|, i requires 0 <= i < |rs| => RunText(rs[i]))
  }

  /** The text is the maximal runs of the layers, joined by commas. */
  ghost predicate IsRangeText(text: string, layers: set<nat>) {
    exists rs :: MaximalRuns(rs, layers) && text == Join(RunTexts(rs), ',')
  }

  lemma SingleRun(x: nat)
    ensures MaximalRuns([Range(x, x)], SetOf([x]))
  {
    assert [x][0] == x && [Range(x, x)][0] == Range(x, x);
    assert Covered([Range(x, x)], x);
  }

  /** The loop both printers share: merges neighbours of an increasing list into runs. */
  method MergeRuns(layers: seq<nat>) returns (ranges: seq<Range>)
    requires layers != [] && Increasing(layers)
    ensures MaximalRuns(ranges, SetOf(layers))
  {
    ranges := [];
    var start := layers[0];
    var end := layers[0];
    SingleRun(start);
    assert layers[..1] == [start] && ranges + [Range(start, end)] == [Range(start, start)];
    for i := 1 to |layers|
      invariant end == layers[i - 1]
      invariant MaximalRuns(ranges + [Range(start, end)], SetOf(layers[..i]))
    {
      var l := layers[i];
      assert layers[..i + 1] == layers[..i] + [l];
      SetOfPush(layers[..i], l);
      if l == end + 1 {
        LastRunLengthens(ranges, start, end, SetOf(layers[..i]));
        end := l;
      } else {
        ranges := ranges + [Range(start, end)];
        NewRunStarts(ranges, l, SetOf(layers[..i]));
        start := l;
        end := l;
      }
    }
    ranges := ranges + [Range(start, end)];
    assert layers[..|layers|] == layers;
  }

  /** The peer table: "none" for an empty bitmap. */
  method LayerRange(bitmap: Bitmap) returns (text: string)
    ensures Layers(bitmap) == {} ==> text == "none"
    ensures Layers(bitmap) != {} ==> IsRangeText(text, Layers(bitmap))
  {
    var layers: seq<nat> := [];
    for i := 0 to 256
      invariant forall j :: 0 <= j < |layers| ==> layers[j] < i
      invariant Increasing(layers)
      invariant forall x: nat :: x in SetOf(layers) <==> x < i && Has(bitmap, x)
    {
      if HasBit(bitmap[i / 8], i % 8) {
        SetOfPush(layers, i);
        layers := layers + [i];
      }
    }
    assert SetOf(layers) == Layers(bitmap);
    if layers == [] {
      return "none";
    }
    assert layers[0] in SetOf(layers);
    var ranges := MergeRuns(layers);
    text := Join(RunTexts(ranges), ',');
  }

  /** The layers of byte i. */
  ghost predicate InByte(byte: bv8, i: nat, x: nat) {
    8 * i <= x < 8 * i + 8 && HasBit(byte, x - 8 * i)
  }

  /** The bits of byte i, as the terminal interface collects them. */
  method CollectByte(byte: bv8, i: nat, before: seq<nat>) returns (layers: seq<nat>)
    requires i < 32 && Increasing(before) && forall j :: 0 <= j < |before| ==> before[j] < 8 * i
    ensures Increasing(layers) && forall j :: 0 <= j < |layers| ==> layers[j] < 8 * i + 8
    ensures forall x: nat :: x in SetOf(layers) <==> x in SetOf(before) || InByte(byte, i, x)
  {
    layers := before;
    for bit := 0 to 8
      invariant Increasing(layers) && forall j :: 0 <= j < |layers| ==> layers[j] < 8 * i + bit
      invariant forall x: nat :: x in SetOf(layers) <==> x in SetOf(before) || (x < 8 * i + bit && InByte(byte, i, x))
    {
      if HasBit(byte, bit) {
        SetOfPush(layers, 8 * i + bit);
        layers := layers + [8 * i + bit];
      }
    }
  }

  /** The bitmap a text of hexadecimal digits stands for. */
  ghost function BytesOf(hex: string): Bitmap {
    seq(32, i requires 0 <= i < 32 => LenientByte(hex, i))
  }

  lemma LayersOfByte(b: Bitmap, i: nat, x: nat)
    requires i < 32
    ensures x < 8 * i + 8 && Has(b, x) <==> (x < 8 * i && Has(b, x)) || InByte(b[i], i, x)
  {
    if 8 * i <= x < 8 * i + 8 {
      assert x / 8 == i && x % 8 == x - 8 * i;
    }
  }

  /** The terminal interface, from the hexadecimal text: nothing for an empty or unreadable bitmap. */
  method BitmapHexToLayerRange(hex: string) returns (text: Option<string>)
    ensures text.Some? <==>
      |hex| >= 64 && (forall i :: 0 <= i < 32 ==> ParseByte(Pair(hex, i)).Some?) && Layers(BytesOf(hex)) != {}
    ensures text.Some? ==> IsRangeText(text.value, Layers(BytesOf(hex)))
  {
    ghost var bitmap := BytesOf(hex);
    if |hex| < 64 {
      return None;
    }
    var layers: seq<nat> := [];
    for i := 0 to 32
      invariant forall j :: 0 <= j < i ==> ParseByte(Pair(hex, j)).Some?
      invariant Increasing(layers) && forall j :: 0 <= j < |layers| ==> layers[j] < 8 * i
      invariant forall x: nat :: x in SetOf(layers) <==> x < 8 * i && Has(bitmap, x)
    {
      var byte := ParseByte(Pair(hex, i));
      if byte.None? {
        return None;
      }
      layers := CollectByte(byte.value, i, layers);
      forall x: nat {
        LayersOfByte(bitmap, i, x);
      }
    }
    assert SetOf(layers) == Layers(bitmap);
    if layers == [] {
      return None;
    }
    assert layers[0] in SetOf(layers);
    var ranges := MergeRuns(layers);
    text := Some(Join(RunTexts(ranges), ','));
  }

  /** Both printers print the same text for the same non-empty bitmap: there is only one. */
  lemma RangeTextIsUnique(s: string, t: string, layers: set<nat>)
    requires IsRangeText(s, layers) && IsRangeText(t, layers)
    ensures s == t
  {
    var a: seq<Range> :| MaximalRuns(a, layers) && s == Join(RunTexts(a), ',');
    var b: seq<Range> :| MaximalRuns(b, layers) && t == Join(RunTexts(b), ',');
    RunsAreUnique(a, b, layers);
  }

  /** The two printers side by side, the second behind the hexadecimal text of the bitmap. */
  method PrintersAgree(bitmap: Bitmap, hex: string) returns (table: string, screen: Option<string>)
    requires IsHexOf(hex, bitmap)
    ensures screen == if Layers(bitmap) == {} then None else Some(table)
    ensures Layers(bitmap) != {} ==> IsRangeText(table, Layers(bitmap))
  {
    table := LayerRange(bitmap);
    screen := BitmapHexToLayerRange(hex);
    HexRoundTrip(hex, bitmap);
    HexIsTrimmed(hex, bitmap);
    assert BytesOf(hex) == bitmap;
    if Layers(bitmap) != {} {
      RangeTextIsUnique(table, screen.value, Layers(bitmap));
    }
  }

  // ---------------------------------------------------------------- reading the text back

  function ReadRun(s: string): Option<Range> {
    var parts := Split(s, '-');
    var lo := Parse(parts[0], MAX_U64);
    var hi := if |parts| == 2 then Parse(parts[1], MAX_U64) else lo;
    if lo.None? || hi.None? then None else Some(Range(lo.value, hi.value))
  }

  lemma DigitsAreFree(s: string, c: char)
    requires AllDigits(s) && !IsDigit(c)
    ensures Free(s, c)
  {
  }

  lemma SingleReads(n: nat)
    requires n <= MAX_U64
    ensures ReadRun(Text(n)) == Some(Range(n, n))
  {
    ParseOfText(n, MAX_U64);
    DigitsAreFree(Text(n), '-');
    SplitFree(Text(n), '-');
  }

  lemma PairSplits(lo: string, hi: string)
    requires Free(lo, '-') && Free(hi, '-')
    ensures Split(lo + "-" + hi, '-') == [lo, hi]
  {
    SplitFree(hi, '-');
    SplitFirst(lo, '-', hi);
  }

  lemma RunTextReads(r: Range)
    requires r.lo <= MAX_U64 && r.hi <= MAX_U64
    ensures ReadRun(RunText(r)) == Some(r)
  {
    if r.lo == r.hi {
      SingleReads(r.lo);
    } else {
      ParseOfText(r.lo, MAX_U64);
      ParseOfText(r.hi, MAX_U64);
      DigitsAreFree(Text(r.lo), '-');
      DigitsAreFree(Text(r.hi), '-');
      PairSplits(Text(r.lo), Text(r.hi));
    }
  }

  /** A single layer is written without a dash. */
  lemma DashIff(r: Range)
    ensures Free(RunText(r), '-') <==> r.lo == r.hi
  {
    DigitsAreFree(Text(r.lo), '-');
    if r.lo != r.hi {
      assert RunText(r)[|Text(r.lo)|] == '-';
    }
  }

  lemma RunTextFree(r: Range)
    ensures Free(RunText(r), ',')
  {
    DigitsAreFree(Text(r.lo), ',');
    DigitsAreFree(Text(r.hi), ',');
  }

  /** The runs written as pieces of the text are read back as they were. */
  lemma PiecesRead(rs: seq<Range>, layers: set<nat>)
    requires MaximalRuns(rs, layers) && rs != [] && forall x :: x in layers ==> x < 256
    ensures Split(Join(RunTexts(rs), ','), ',') == RunTexts(rs)
    ensures forall i :: 0 <= i < |rs| ==> ReadRun(RunTexts(rs)[i]) == Some(rs[i])
  {
    var ts := RunTexts(rs);
    forall i | 0 <= i < |rs| ensures ReadRun(ts[i]) == Some(rs[i]) && Free(ts[i], ',') {
      assert Covered(rs, rs[i].lo) && Covered(rs, rs[i].hi);
      assert rs[i].lo in layers && rs[i].hi in layers;
      RunTextReads(rs[i]);
      RunTextFree(rs[i]);
    }
    SplitOfJoin(ts, ',');
  }

  /** Piece i of the text reads as a run that holds the layer. */
  ghost predicate PieceHolds(text: string, i: nat, x: nat) {
    i < |Split(text, ',')| && ReadRun(Split(text, ',')[i]).Some?
    && ReadRun(Split(text, ',')[i]).value.lo <= x <= ReadRun(Split(text, ',')[i]).value.hi
  }

  /** The text names exactly the layers of the bitmap. */
  lemma RangeTextDecodes(text: string, layers: set<nat>, x: nat)
    requires IsRangeText(text, layers) && layers != {} && forall x :: x in layers ==> x < 256
    ensures x in layers <==> exists i: nat :: PieceHolds(text, i, x)
  {
    var rs: seq<Range> :| MaximalRuns(rs, layers) && text == Join(RunTexts(rs), ',');
    var x0 :| x0 in layers;
    assert Covered(rs, x0);
    PiecesRead(rs, layers);
    if x in layers {
      var i :| 0 <= i < |rs| && rs[i].lo <= x <= rs[i].hi;
      assert PieceHolds(text, i, x);
    }
    if i: nat :| PieceHolds(text, i, x) {
      assert rs[i].lo <= x <= rs[i].hi;
      assert Covered(rs, x);
    }
  }
}
