/** The layer range a peer's file stands for: read from the name of a split file, or from its bitmap. */
module PeerRanges {
  import opened Common
  import opened Bitmaps
  import opened Decimal
  import opened Texts

  function SplitMarker(): string { "_split_" }
  function Extension(): string { ".pgguf" }

  /** The name a split file is given: `{stem}_split_{start}_{end}.pgguf`. */
  function SplitName(stem: string, start: nat, end: nat): string {
    stem + SplitMarker() + (Text(start) + "_" + Text(end)) + Extension()
  }

  predicate OccursAt(s: string, m: string, p: nat) {
    p + |m| <= |s| && s[p..p + |m|] == m
  }

  /** `rfind`: the last occurrence that starts before n. */
  function LastBefore(s: string, m: string, n: nat): (r: Option<nat>)
    ensures r.Some? ==> r.value < n && OccursAt(s, m, r.value)
    ensures forall p: nat :: p < n && OccursAt(s, m, p) ==> r.Some? && p <= r.value
  {
    if n == 0 then None else if OccursAt(s, m, n - 1) then Some(n - 1) else LastBefore(s, m, n - 1)
  }

  function StripSuffix(s: string, suffix: string): string {
    if |suffix| <= |s| && s[|s| - |suffix|..] == suffix then s[..|s| - |suffix|] else s
  }

  function ParseSplitRange(name: string): Option<(nat, nat)> {
    var base := StripSuffix(name, Extension());
    var at := LastBefore(base, SplitMarker(), |base| + 1);
    if at.None? then None
    else
      var parts := Split(base[at.value + |SplitMarker()|..], '_');
      if |parts| != 2 then None
      else
        var s, e := Parse(parts[0], MAX_U32), Parse(parts[1], MAX_U32);
        if s.None? || e.None? then None else Some((s.value, e.value))
  }

  /** Only digits and underscores follow the marker, so no later marker can. */
  lemma MarkerIsLast(stem: string, t: string, p: nat)
    requires forall i :: 0 <= i < |t| ==> IsDigit(t[i]) || t[i] == '_'
    requires OccursAt(stem + SplitMarker() + t, SplitMarker(), p)
    ensures p <= |stem|
  {
    var s := stem + SplitMarker() + t;
    forall i | |stem| + 1 < i < |s| ensures s[i] != 's' {
      assert s[i] == if i < |stem| + 7 then SplitMarker()[i - |stem|] else t[i - |stem| - 7];
    }
    assert s[p..p + 7][1] == 's' && s[p + 1] == 's';
  }

  lemma SplitNameWritten(stem: string, start: nat, end: nat)
    ensures SplitName(stem, start, end) == stem + "_split_" + Text(start) + "_" + Text(end) + ".pgguf"
  {
    Regroup(stem + "_split_", Text(start), "_", Text(end));
  }

  lemma Regroup(a: string, b: string, c: string, d: string)
    ensures a + (b + c + d) == a + b + c + d
  {
  }

  lemma Stripped(base: string, suffix: string)
    ensures StripSuffix(base + suffix, suffix) == base
  {
  }

  /** The name of a split file gives back its range when that fits 32 bits, whatever the model is called. */
  lemma SplitNameParses(stem: string, start: nat, end: nat)
    ensures ParseSplitRange(SplitName(stem, start, end))
         == if start <= 4_294_967_295 && end <= 4_294_967_295 then Some((start, end)) else None
  {
    var t := Text(start) + "_" + Text(end);
    Stripped(stem + SplitMarker() + t, Extension());
    MarkerFound(stem, t);
    TailParses(start, end);
  }

  lemma MarkerFound(stem: string, t: string)
    requires forall i :: 0 <= i < |t| ==> IsDigit(t[i]) || t[i] == '_'
    ensures var base := stem + SplitMarker() + t;
      var at := LastBefore(base, SplitMarker(), |base| + 1);
      at == Some(|stem|) && base[|stem| + |SplitMarker()|..] == t
  {
    var base := stem + SplitMarker() + t;
    assert OccursAt(base, SplitMarker(), |stem|);
    var at := LastBefore(base, SplitMarker(), |base| + 1);
    MarkerIsLast(stem, t, at.value);
  }

  lemma TailParses(start: nat, end: nat)
    ensures Split(Text(start) + "_" + Text(end), '_') == [Text(start), Text(end)]
    ensures Parse(Text(start), MAX_U32) == if start <= 4_294_967_295 then Some(start) else None
    ensures Parse(Text(end), MAX_U32) == if end <= 4_294_967_295 then Some(end) else None
  {
    assert Free(Text(start), '_') && Free(Text(end), '_');
    SplitFirst(Text(start), '_', Text(end));
    SplitFree(Text(end), '_');
    ParseOfText(start, MAX_U32);
    ParseOfText(end, MAX_U32);
  }

  /** lo and hi are the lowest and the highest layer of the bitmap, or 0 and 0 when it has none. */
  ghost predicate IsRange(bitmap: Bitmap, lo: nat, hi: nat) {
    && (Layers(bitmap) == {} ==> lo == 0 && hi == 0)
    && (Layers(bitmap) != {} ==> lo in Layers(bitmap) && hi in Layers(bitmap))
    && (forall x :: x in Layers(bitmap) ==> lo <= x <= hi)
  }

  method BitmapRange(bitmap: Bitmap) returns (lo: nat, hi: nat)
    ensures IsRange(bitmap, lo, hi)
  {
    var min: Option<nat> := None;
    var max: Option<nat> := None;
    for layer := 0 to 256
      invariant min.Some? <==> max.Some?
      invariant min.Some? ==> min.value in Layers(bitmap) && max.value in Layers(bitmap) && min.value < layer
      invariant forall x :: x in Layers(bitmap) && x < layer ==> min.Some? && min.value <= x <= max.value
    {
      if HasBit(bitmap[layer / 8], layer % 8) {
        assert layer in Layers(bitmap);
        if min.None? {
          min := Some(layer);
        }
        max := Some(layer);
      }
    }
    if min.Some? {
      lo, hi := min.value, max.value;
    } else {
      lo, hi := 0, 0;
    }
  }

  /** In pipeline coordinates: the range in the name; else everything, if the bits span the model; else the bits. */
  function AdjustRange(lo: nat, hi: nat, fileName: string, numLayers: Option<nat>): (nat, nat)
    requires lo <= hi
  {
    var named := ParseSplitRange(fileName);
    if named.Some? then named.value
    else if numLayers.Some? && numLayers.value > 0 && hi - lo + 1 >= numLayers.value then (0, numLayers.value + 1)
    else (lo, hi)
  }

  /**
    A file counts as the whole model exactly when its name says so or, with no range in the name, its
    first and last block are there: a gap in between is not noticed, and of a model of one block not
    even that block is needed.
  */
  lemma WholeModelIff(bitmap: Bitmap, lo: nat, hi: nat, fileName: string, n: nat)
    requires IsRange(bitmap, lo, hi) && forall x :: x in Layers(bitmap) ==> x < n
    ensures AdjustRange(lo, hi, fileName, Some(n)) == (0, n + 1) <==>
      if ParseSplitRange(fileName).Some? then ParseSplitRange(fileName).value == (0, n + 1)
      else if Layers(bitmap) == {} then n == 1
      else 0 in Layers(bitmap) && n - 1 in Layers(bitmap)
  {
    if 0 in Layers(bitmap) && n - 1 in Layers(bitmap) {
      assert lo == 0 && hi == n - 1;
    }
  }

  /** A range that is not in the name and does not span the model is that of the bits. */
  lemma PartialRange(lo: nat, hi: nat, fileName: string, numLayers: Option<nat>)
    requires lo <= hi && ParseSplitRange(fileName).None?
    requires numLayers.Some? && numLayers.value > 0 ==> hi - lo + 1 < numLayers.value
    ensures AdjustRange(lo, hi, fileName, numLayers) == (lo, hi)
  {
  }

  /** Such a gap: blocks 0 and 2 of a model of three. */
  lemma GapGoesUnnoticed(fileName: string)
    requires ParseSplitRange(fileName).None?
    ensures Layers(BitmapOf({0, 2})) == {0, 2} && AdjustRange(0, 2, fileName, Some(3)) == (0, 4)
  {
    LayersOfBitmap({0, 2});
  }
}
