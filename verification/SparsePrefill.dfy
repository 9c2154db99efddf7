/** What the sparse mask of a prefill lets each query see. */
module SparsePrefill {
  import opened Grids
  import opened Ranking
  import opened SparseMask

  // ---------------------------------------------------------------- what the rows of the tables mean

  /** The window row of query i names exactly the last `window` keys up to i, each once. */
  lemma WindowRowMeans(window: nat, seqlen: nat, i: nat)
    requires i < seqlen
    ensures forall j: nat :: j in WindowRow(window, seqlen, i) <==> i - window < j <= i
    ensures forall a, b :: 0 <= a < b < |WindowRow(window, seqlen, i)| && WindowRow(window, seqlen, i)[a] >= 0 ==>
      WindowRow(window, seqlen, i)[a] != WindowRow(window, seqlen, i)[b]
    ensures forall e :: e in WindowRow(window, seqlen, i) ==> -1 <= e <= i
    ensures forall a, b :: 0 <= a < b < |WindowRow(window, seqlen, i)| && WindowRow(window, seqlen, i)[b] >= 0 ==>
      0 <= WindowRow(window, seqlen, i)[a] < WindowRow(window, seqlen, i)[b]
  {
    var row, lo := WindowRow(window, seqlen, i), Lowest(window, i);
    forall j: nat ensures j in row <==> i - window < j <= i {
      if i - window < j <= i {
        assert row[j - lo] == j;
      }
    }
  }

  /** (c + 1) * ratio - 1: the last position of block c. */
  function LastOf(c: nat, ratio: nat): int {
    (c + 1) * ratio - 1
  }

  /** Block c is complete by position i exactly when its last position is at most i. */
  lemma VisibleMeans(c: nat, i: nat, ratio: nat)
    requires ratio > 0
    ensures c < Visible(i, ratio) <==> LastOf(c, ratio) <= i
  {
    var v := Visible(i, ratio);
    assert v * ratio <= i + 1 < (v + 1) * ratio;
    if c < v {
      Monotone(c + 1, v, ratio);
    } else {
      Monotone(v + 1, c + 1, ratio);
    }
  }

  /** The block row of query i names exactly the blocks complete by i, each behind the keys. */
  lemma BlockRowMeans(ratio: nat, seqlen: nat, offset: nat, i: nat)
    requires ratio > 0 && i < seqlen
    ensures forall c: nat :: c < seqlen / ratio ==>
      (c + offset in BlockRow(ratio, seqlen, offset, i) <==> LastOf(c, ratio) <= i)
    ensures forall e :: e in BlockRow(ratio, seqlen, offset, i) ==> e == -1 || offset <= e < offset + seqlen / ratio
    ensures forall a, b ::
      0 <= a < b < |BlockRow(ratio, seqlen, offset, i)| && BlockRow(ratio, seqlen, offset, i)[b] >= 0 ==>
        0 <= BlockRow(ratio, seqlen, offset, i)[a] < BlockRow(ratio, seqlen, offset, i)[b]
  {
    var row := BlockRow(ratio, seqlen, offset, i);
    forall c: nat | c < seqlen / ratio ensures c + offset in row <==> LastOf(c, ratio) <= i {
      BlockRowAt(ratio, seqlen, offset, i, c);
      VisibleMeans(c, i, ratio);
    }
  }

  lemma BlockRowAt(ratio: nat, seqlen: nat, offset: nat, i: nat, c: nat)
    requires ratio > 0 && c < seqlen / ratio
    ensures c + offset in BlockRow(ratio, seqlen, offset, i) <==> c < Visible(i, ratio)
  {
    var row := BlockRow(ratio, seqlen, offset, i);
    assert row[c] == if c < Min(Visible(i, ratio), seqlen / ratio) then c + offset else -1;
    if c + offset in row {
      var x :| 0 <= x < |row| && row[x] == c + offset;
      assert row[x] == if x < Min(Visible(i, ratio), seqlen / ratio) then x + offset else -1;
    }
  }

  /** The blocks of the row come before the -1 entries, and better ones before worse. */
  ghost predicate BestFirst(scores: seq<real>, offset: nat, row: seq<int>) {
    forall a, b :: 0 <= a < b < |row| && row[b] >= 0 ==>
      && offset <= row[a] < offset + |scores| && offset <= row[b] < offset + |scores|
      && Better(scores, row[a] - offset, row[b] - offset)
  }

  /** The row of the indexer is in this order, out of the visible blocks. */
  lemma SelectedBestFirst(scores: seq<real>, visible: nat, k: nat, offset: nat)
    requires visible <= |scores|
    ensures BestFirst(scores, offset, SelectedRow(scores, visible, k, offset))
  {
    var row, chosen := SelectedRow(scores, visible, k, offset), Chosen(scores[..visible], Min(k, visible));
    ChosenAreBest(scores[..visible], Min(k, visible));
    forall a, b | 0 <= a < b < |row| && row[b] >= 0
      ensures offset <= row[a] < offset + |scores| && offset <= row[b] < offset + |scores|
      ensures Better(scores, row[a] - offset, row[b] - offset)
    {
      assert row[a] == chosen[a] + offset && row[b] == chosen[b] + offset;
      assert Better(scores[..visible], chosen[a], chosen[b]);
    }
  }

  /** The indexer keeps visible blocks only, exactly as many as it can, and no visible block it leaves out is better. */
  lemma SelectedRowMeans(scores: seq<real>, i: nat, s: nat, ratio: nat, k: nat)
    requires ratio > 0 && i < s && |scores| == s / ratio
    ensures Visible(i, ratio) <= |scores|
    ensures forall c: nat :: c < |scores| ==>
      (c + s in SelectedRow(scores, Visible(i, ratio), k, s)
       <==> c in Chosen(scores[..Visible(i, ratio)], Min(k, Visible(i, ratio))))
    ensures forall c: nat :: c < |scores| && c + s in SelectedRow(scores, Visible(i, ratio), k, s) ==>
      LastOf(c, ratio) <= i
    ensures forall e :: e in SelectedRow(scores, Visible(i, ratio), k, s) ==> e == -1 || s <= e < s + |scores|
  {
    VisibleBound(i, s, ratio);
    var v := Visible(i, ratio);
    var row, chosen := SelectedRow(scores, v, k, s), Chosen(scores[..v], Min(k, v));
    forall c: nat | c < |scores| ensures c + s in row <==> c in chosen {
      if c in chosen {
        var t :| 0 <= t < |chosen| && chosen[t] == c;
        assert row[t] == c + s;
      }
    }
    forall c: nat | c < |scores| && c in chosen ensures LastOf(c, ratio) <= i {
      VisibleMeans(c, i, ratio);
    }
  }

  // ---------------------------------------------------------------- the table of a prefill

  /** How the compressed blocks take part. */
  datatype Blocks =
    | NoBlocks                                                    // no compressor
    | AllVisible(ratio: nat)                                      // compressor without indexer
    | Indexed(ratio: nat, scores: seq<real>, indexTopk: nat)      // compressor with indexer
  {
    function Count(s: nat): nat {
      if NoBlocks? || ratio == 0 then 0 else s / ratio
    }

    ghost predicate Valid(b: nat, s: nat) {
      && (!NoBlocks? ==> ratio > 0)
      && (Indexed? ==> |scores| == (b * s) * (s / ratio))
    }
  }

  /** The block indices of row q. */
  function BlockPart(k: Blocks, b: nat, s: nat, q: nat): seq<int>
    requires k.Valid(b, s) && s > 0 && q < b * s
  {
    match k
    case NoBlocks => []
    case AllVisible(ratio) => BlockRow(ratio, s, s, q % s)
    case Indexed(ratio, scores, indexTopk) => Wanted(scores, b * s, s, ratio, Min(indexTopk, s / ratio), q)
  }

  /** Row q of the index table: the window of its query, then its blocks. */
  function IndexRow(window: nat, k: Blocks, b: nat, s: nat, q: nat): seq<int>
    requires k.Valid(b, s) && s > 0 && q < b * s
  {
    WindowRow(window, s, q % s) + BlockPart(k, b, s, q)
  }

  /** Concatenation along the last dimension; a table of fewer rows is broadcast over the batch. */
  function CatTable(win: seq<int>, s: nat, kw: nat, blocks: seq<int>, rows: nat, kb: nat): (nat, nat) -> int
    requires s > 0 && rows > 0 && |win| == s * kw && |blocks| == rows * kb
  {
    (q: nat, c: nat) =>
      if c < kw then RowOf(win, q % s, s, kw)[c]
      else if c - kw < kb then RowOf(blocks, q % rows, rows, kb)[c - kw]
      else -1
  }

  lemma CatRow(win: seq<int>, s: nat, kw: nat, blocks: seq<int>, rows: nat, kb: nat, q: nat, n: nat)
    requires s > 0 && rows > 0 && |win| == s * kw && |blocks| == rows * kb && q < n
    ensures RowOf(Table(CatTable(win, s, kw, blocks, rows, kb), n, kw + kb), q, n, kw + kb)
         == RowOf(win, q % s, s, kw) + RowOf(blocks, q % rows, rows, kb)
  {
    var f := CatTable(win, s, kw, blocks, rows, kb);
    var row := RowOf(win, q % s, s, kw) + RowOf(blocks, q % rows, rows, kb);
    forall c: nat | c < kw + kb ensures row[c] == f(q, c) {
    }
    TableRow(f, q, n, kw + kb, row);
  }

  /** The block table and its number of rows: one sequence for all of them, or the whole batch. */
  method BlockTable(k: Blocks, b: nat, s: nat) returns (data: seq<int>, rows: nat, cols: nat)
    requires k.Valid(b, s) && s > 0 && b > 0
    ensures rows > 0 && |data| == rows * cols
    ensures forall q: nat :: q < b * s ==> RowOf(data, q % rows, rows, cols) == BlockPart(k, b, s, q)
  {
    match k
    case NoBlocks =>
      data, rows, cols := [], s, 0;
    case AllVisible(ratio) =>
      data := BroadcastTable(ratio, s);
      rows, cols := s, s / ratio;
    case Indexed(ratio, scores, indexTopk) =>
      var table := Select(scores, b, s, ratio, indexTopk);
      RowEnd(0, b, s);
      data, rows, cols := table[..], b * s, Min(indexTopk, s / ratio);
      forall q: nat | q < b * s ensures RowOf(data, q % rows, rows, cols) == BlockPart(k, b, s, q) {
        SmallModulo(q, rows);
      }
  }

  lemma SmallModulo(q: nat, m: nat)
    requires q < m
    ensures q % m == q
  {
    assert q == 0 * m + q;
    Split(0, q, m);
  }

  method BroadcastTable(ratio: nat, s: nat) returns (data: seq<int>)
    requires ratio > 0 && s > 0
    ensures |data| == s * (s / ratio)
    ensures forall q: nat :: RowOf(data, q % s, s, s / ratio) == BlockRow(ratio, s, s, q % s)
  {
    var table := CompressTopkIdxs(ratio, s, s);
    data := table[..];
    forall q: nat ensures RowOf(data, q % s, s, s / ratio) == BlockRow(ratio, s, s, q % s) {
      assert 0 <= q % s < s;
    }
  }

  // ---------------------------------------------------------------- what the mask means

  /** Which block columns row q opens. */
  ghost predicate BlockOpen(k: Blocks, b: nat, s: nat, q: nat, c: nat)
    requires k.Valid(b, s) && s > 0 && q < b * s && c < k.Count(s)
  {
    match k
    case NoBlocks => false
    case AllVisible(ratio) => LastOf(c, ratio) <= q % s
    case Indexed(ratio, scores, indexTopk) =>
      var v := Visible(q % s, ratio);
      v <= s / ratio && c in Chosen(RowOf(scores, q, b * s, s / ratio)[..v], Min(Min(indexTopk, s / ratio), v))
  }

  lemma BlockPartMeans(k: Blocks, b: nat, s: nat, q: nat)
    requires k.Valid(b, s) && s > 0 && q < b * s
    ensures forall c: nat :: c < k.Count(s) ==> (s + c in BlockPart(k, b, s, q) <==> BlockOpen(k, b, s, q, c))
    ensures forall c: nat :: c < k.Count(s) && BlockOpen(k, b, s, q, c) ==> LastOf(c, k.ratio) <= q % s
    ensures forall e :: e in BlockPart(k, b, s, q) ==> e == -1 || s <= e < s + k.Count(s)
  {
    match k
    case NoBlocks =>
    case AllVisible(ratio) =>
      BlockRowMeans(ratio, s, s, q % s);
    case Indexed(ratio, scores, indexTopk) =>
      SelectedRowMeans(RowOf(scores, q, b * s, s / ratio), q % s, s, ratio, Min(indexTopk, s / ratio));
  }

  /**
    The mask is exact and causal: the row of query i opens key j exactly when i - window < j <= i and
    the block columns that `BlockOpen` names, all of which end at or before i; keys and blocks never
    share a column.
  */
  lemma MaskIsExact(window: nat, k: Blocks, b: nat, s: nat, q: nat, row: seq<MaskEntry>)
    requires k.Valid(b, s) && s > 0 && q < b * s
    requires |row| == s + k.Count(s) && OpenAt(row, IndexRow(window, k, b, s, q))
    ensures forall j: nat :: j < s ==> (row[j] == Open <==> q % s - window < j <= q % s)
    ensures forall c: nat :: c < k.Count(s) ==> (row[s + c] == Open <==> BlockOpen(k, b, s, q, c))
    ensures forall c: nat :: c < k.Count(s) && row[s + c] == Open ==> LastOf(c, k.ratio) <= q % s
  {
    var i := q % s;
    WindowRowMeans(window, s, i);
    BlockPartMeans(k, b, s, q);
    var w, p := WindowRow(window, s, i), BlockPart(k, b, s, q);
    forall j: nat | j < s + k.Count(s) ensures row[j] == Open <==> j in w || j in p {
      assert j in w + p <==> j in w || j in p;
    }
  }

  /** A query always sees itself when the window is not empty. */
  lemma SeesItself(window: nat, k: Blocks, b: nat, s: nat, q: nat, row: seq<MaskEntry>)
    requires k.Valid(b, s) && s > 0 && q < b * s && window > 0
    requires |row| == s + k.Count(s) && OpenAt(row, IndexRow(window, k, b, s, q))
    ensures row[q % s] == Open
  {
    MaskIsExact(window, k, b, s, q, row);
  }

  /** The blocks kept for position i: of those complete by then the topk best by score, ties to the lower number. */
  ghost predicate AreKept(scores: seq<real>, i: nat, ratio: nat, topk: nat, kept: seq<nat>)
    requires ratio > 0
  {
    && |kept| == (if topk < (i + 1) / ratio then topk else (i + 1) / ratio)
    && (forall t :: 0 <= t < |kept| ==> kept[t] < |scores| && LastOf(kept[t], ratio) <= i)
    && (forall t, u :: 0 <= t < u < |kept| ==> Better(scores, kept[t], kept[u]))
    && (forall c: nat, t :: c < |scores| && LastOf(c, ratio) <= i && c !in kept && 0 <= t < |kept| ==>
          Better(scores, kept[t], c))
  }

  /** These block columns are open just at the blocks kept. */
  ghost predicate SeesBest(blocks: seq<MaskEntry>, scores: seq<real>, i: nat, ratio: nat, topk: nat)
    requires ratio > 0
  {
    exists kept :: AreKept(scores, i, ratio, topk, kept)
                   && forall c: nat :: c < |blocks| ==> (blocks[c] == Open <==> c in kept)
  }

  /**
    What row q lets its query see: the keys of its window up to itself, and of the compressed blocks those
    that are complete by then, all of them or the best of them.
  */
  ghost predicate Sees(row: seq<MaskEntry>, window: nat, k: Blocks, b: nat, s: nat, q: nat)
    requires k.Valid(b, s) && s > 0 && q < b * s
  {
    var i := q % s;
    && |row| == (if k.NoBlocks? then s else s + s / k.ratio)
    && (forall j :: 0 <= j < s ==> (row[j] == Open <==> i - window < j <= i))
    && (k.AllVisible? ==> forall c: nat :: c < s / k.ratio ==> (row[s + c] == Open <==> LastOf(c, k.ratio) <= i))
    && (k.Indexed? ==> SeesBest(row[s..], RowOf(k.scores, q, b * s, s / k.ratio), i, k.ratio, k.indexTopk))
  }

  lemma ChosenAreKept(scores: seq<real>, i: nat, s: nat, ratio: nat, topk: nat)
    requires ratio > 0 && i < s && |scores| == s / ratio
    ensures var v := Visible(i, ratio);
      v <= |scores| && AreKept(scores, i, ratio, topk, Chosen(scores[..v], Min(Min(topk, s / ratio), v)))
  {
    VisibleBound(i, s, ratio);
    var v := Visible(i, ratio);
    var kept := Chosen(scores[..v], Min(Min(topk, s / ratio), v));
    ChosenAreBest(scores[..v], |kept|);
    forall c: nat ensures c < v <==> LastOf(c, ratio) <= i {
      VisibleMeans(c, i, ratio);
    }
    forall t, u | 0 <= t < u < |kept| ensures Better(scores, kept[t], kept[u]) {
      assert Better(scores[..v], kept[t], kept[u]);
    }
    forall c: nat, t | c < |scores| && LastOf(c, ratio) <= i && c !in kept && 0 <= t < |kept|
      ensures Better(scores, kept[t], c)
    {
      assert Better(scores[..v], kept[t], c);
    }
  }

  lemma BestAreSeen(blocks: seq<MaskEntry>, scores: seq<real>, i: nat, s: nat, ratio: nat, topk: nat, kept: seq<nat>)
    requires ratio > 0 && i < s && |scores| == s / ratio == |blocks| && Visible(i, ratio) <= |scores|
    requires kept == Chosen(scores[..Visible(i, ratio)], Min(Min(topk, s / ratio), Visible(i, ratio)))
    requires forall c: nat :: c < |blocks| ==> (blocks[c] == Open <==> c in kept)
    ensures SeesBest(blocks, scores, i, ratio, topk)
  {
    ChosenAreKept(scores, i, s, ratio, topk);
  }

  lemma BlocksAreExact(window: nat, k: Blocks, b: nat, s: nat, q: nat, row: seq<MaskEntry>)
    requires k.Indexed? && k.Valid(b, s) && s > 0 && q < b * s
    requires |row| == s + k.Count(s) && OpenAt(row, IndexRow(window, k, b, s, q))
    ensures SeesBest(row[s..], RowOf(k.scores, q, b * s, s / k.ratio), q % s, k.ratio, k.indexTopk)
  {
    MaskIsExact(window, k, b, s, q, row);
    var scores, v := RowOf(k.scores, q, b * s, s / k.ratio), Visible(q % s, k.ratio);
    VisibleBound(q % s, s, k.ratio);
    var kept := Chosen(scores[..v], Min(Min(k.indexTopk, s / k.ratio), v));
    forall c: nat | c < |row[s..]| ensures row[s..][c] == Open <==> c in kept {
      assert row[s..][c] == row[s + c];
      assert BlockOpen(k, b, s, q, c) <==> c in kept;
    }
    BestAreSeen(row[s..], scores, q % s, s, k.ratio, k.indexTopk, kept);
  }

  lemma KeysAreExact(window: nat, k: Blocks, b: nat, s: nat, q: nat, row: seq<MaskEntry>)
    requires k.Valid(b, s) && s > 0 && q < b * s
    requires |row| == s + k.Count(s) && OpenAt(row, IndexRow(window, k, b, s, q))
    ensures forall j :: 0 <= j < s ==> (row[j] == Open <==> q % s - window < j <= q % s)
    ensures k.AllVisible? ==>
      forall c: nat :: c < s / k.ratio ==> (row[s + c] == Open <==> LastOf(c, k.ratio) <= q % s)
  {
    MaskIsExact(window, k, b, s, q, row);
    if k.AllVisible? {
      forall c: nat | c < s / k.ratio ensures row[s + c] == Open <==> LastOf(c, k.ratio) <= q % s {
        assert row[s + c] == Open <==> BlockOpen(k, b, s, q, c);
      }
    }
  }

  lemma RowIsExact(window: nat, k: Blocks, b: nat, s: nat, q: nat, row: seq<MaskEntry>)
    requires k.Valid(b, s) && s > 0 && q < b * s
    requires |row| == s + k.Count(s) && OpenAt(row, IndexRow(window, k, b, s, q))
    ensures Sees(row, window, k, b, s, q)
  {
    KeysAreExact(window, k, b, s, q, row);
    if k.Indexed? {
      BlocksAreExact(window, k, b, s, q, row);
    }
  }

  ghost predicate RowSees(mask: seq<MaskEntry>, window: nat, k: Blocks, b: nat, s: nat, q: nat)
    requires k.Valid(b, s) && s > 0 && q < b * s && |mask| == (b * s) * (s + k.Count(s))
  {
    Sees(RowOf(mask, q, b * s, s + k.Count(s)), window, k, b, s, q)
  }

  /** The mask of a prefill of b sequences of s tokens. */
  method PrefillMask(b: nat, s: nat, window: nat, k: Blocks) returns (mask: array<MaskEntry>)
    requires k.Valid(b, s) && s > 0 && b > 0
    ensures fresh(mask) && mask.Length == (b * s) * (s + k.Count(s))
    ensures forall q: nat :: q < b * s ==>
      OpenAt(RowOf(mask[..], q, b * s, s + k.Count(s)), IndexRow(window, k, b, s, q))
    ensures forall q: nat :: q < b * s ==> RowSees(mask[..], window, k, b, s, q)
  {
    var win := WindowTopkIdxs(window, s);
    var kw := Min(window, s);
    var blocks, rows, kb := BlockTable(k, b, s);
    var n := b * s;
    var idxs := Table(CatTable(win[..], s, kw, blocks, rows, kb), n, kw + kb);
    mask := Scatter(idxs, b, s, kw + kb, s + k.Count(s));
    forall q: nat | q < n
      ensures OpenAt(RowOf(mask[..], q, n, s + k.Count(s)), IndexRow(window, k, b, s, q))
    {
      CatRow(win[..], s, kw, blocks, rows, kb, q, n);
      assert Scattered(mask[..], idxs, q, n, kw + kb, s + k.Count(s));
    }
    forall q: nat | q < n ensures RowSees(mask[..], window, k, b, s, q) {
      RowIsExact(window, k, b, s, q, RowOf(mask[..], q, n, s + k.Count(s)));
    }
  }
}
