/**
  Sparse attention of DeepSeek V4 for a prefill: the index tables of the window and of the compressed
  blocks, the selection of the indexer, and the mask scattered from them. Query i of a sequence sees
  keys 0..seqlen-1 and, after them, the compressed blocks of `ratio` positions each.
*/
module SparseMask {
  import opened Grids
  import opened Ranking
  import Sorting

  function Min(a: nat, b: nat): nat { if a < b then a else b }

  /** (i + 1).saturating_sub(window) */
  function Lowest(window: nat, i: nat): nat {
    if i + 1 < window then 0 else i + 1 - window
  }

  // ---------------------------------------------------------------- index tables

  /** Row i of the window table: the keys of the window, then -1. */
  function WindowRow(window: nat, seqlen: nat, i: nat): (row: seq<int>)
    ensures |row| == Min(window, seqlen)
  {
    seq(Min(window, seqlen), j requires j >= 0 => if Lowest(window, i) + j <= i then Lowest(window, i) + j else -1)
  }

  /** Row i of the block table: the blocks complete by position i, moved behind the keys, then -1. */
  function BlockRow(ratio: nat, seqlen: nat, offset: nat, i: nat): (row: seq<int>)
    requires ratio > 0
    ensures |row| == seqlen / ratio
  {
    seq(seqlen / ratio, c requires c >= 0 => if c < Min(Visible(i, ratio), seqlen / ratio) then c + offset else -1)
  }

  method WindowTopkIdxs(window: nat, seqlen: nat) returns (data: array<int>)
    ensures fresh(data) && data.Length == seqlen * Min(window, seqlen)
    ensures forall i :: 0 <= i < seqlen ==>
      RowOf(data[..], i, seqlen, Min(window, seqlen)) == WindowRow(window, seqlen, i)
  {
    var k := Min(window, seqlen);
    data := new int[seqlen * k](_ => -1);
    RepeatedRows(data[..], -1, seqlen, k);
    for i := 0 to seqlen
      invariant forall q :: i <= q < seqlen ==> RowOf(data[..], q, seqlen, k) == Repeat(-1, k)
      invariant forall q :: 0 <= q < i ==> RowOf(data[..], q, seqlen, k) == WindowRow(window, seqlen, q)
    {
      WindowQuery(data, window, seqlen, i);
    }
  }

  /** The row of query i. */
  method WindowQuery(data: array<int>, window: nat, seqlen: nat, i: nat)
    requires data.Length == seqlen * Min(window, seqlen) && i < seqlen
    requires RowOf(data[..], i, seqlen, Min(window, seqlen)) == Repeat(-1, Min(window, seqlen))
    modifies data
    ensures forall q :: 0 <= q < seqlen && q != i ==>
      RowOf(data[..], q, seqlen, Min(window, seqlen)) == old(RowOf(data[..], q, seqlen, Min(window, seqlen)))
    ensures RowOf(data[..], i, seqlen, Min(window, seqlen)) == WindowRow(window, seqlen, i)
  {
    var k := Min(window, seqlen);
    RowEnd(i, seqlen, k);
    ghost var before := data[..];
    FillWindow(data, i * k, window, seqlen, i);
    RowsKept(before, data[..], i, seqlen, k);
  }

  /** The inner loop of the window table. */
  method FillWindow(data: array<int>, base: nat, window: nat, seqlen: nat, i: nat)
    requires base + Min(window, seqlen) <= data.Length
    requires Slice(data[..], base, Min(window, seqlen)) == Repeat(-1, Min(window, seqlen))
    modifies data
    ensures forall p :: 0 <= p < data.Length && !(base <= p < base + Min(window, seqlen)) ==> data[p] == old(data[p])
    ensures Slice(data[..], base, Min(window, seqlen)) == WindowRow(window, seqlen, i)
  {
    var k, lo := Min(window, seqlen), Lowest(window, i);
    assert forall p :: base <= p < base + k ==> data[p] == Slice(data[..], base, k)[p - base];
    for j := 0 to k
      invariant forall p :: 0 <= p < data.Length && !(base <= p < base + k) ==> data[p] == old(data[p])
      invariant forall p :: base <= p < base + k ==>
        data[p] == if p < base + j && lo + (p - base) <= i then lo + (p - base) else -1
    {
      var key := lo + j;
      if key <= i {
        data[base + j] := key;
      }
    }
  }

  method CompressTopkIdxs(ratio: nat, seqlen: nat, offset: nat) returns (data: array<int>)
    requires ratio > 0
    ensures fresh(data) && data.Length == seqlen * (seqlen / ratio)
    ensures forall i :: 0 <= i < seqlen ==>
      RowOf(data[..], i, seqlen, seqlen / ratio) == BlockRow(ratio, seqlen, offset, i)
  {
    var cols := seqlen / ratio;
    data := new int[seqlen * cols](_ => -1);
    RepeatedRows(data[..], -1, seqlen, cols);
    for i := 0 to seqlen
      invariant forall q :: i <= q < seqlen ==> RowOf(data[..], q, seqlen, cols) == Repeat(-1, cols)
      invariant forall q :: 0 <= q < i ==> RowOf(data[..], q, seqlen, cols) == BlockRow(ratio, seqlen, offset, q)
    {
      RowEnd(i, seqlen, cols);
      ghost var before := data[..];
      assert RowOf(before, i, seqlen, cols) == Slice(before, i * cols, cols);
      FillBlocks(data, i * cols, ratio, seqlen, offset, i);
      RowsKept(before, data[..], i, seqlen, cols);
    }
  }

  /** The inner loop of the block table. */
  method FillBlocks(data: array<int>, base: nat, ratio: nat, seqlen: nat, offset: nat, i: nat)
    requires ratio > 0 && base + seqlen / ratio <= data.Length
    requires Slice(data[..], base, seqlen / ratio) == Repeat(-1, seqlen / ratio)
    modifies data
    ensures forall p :: 0 <= p < data.Length && !(base <= p < base + seqlen / ratio) ==> data[p] == old(data[p])
    ensures Slice(data[..], base, seqlen / ratio) == BlockRow(ratio, seqlen, offset, i)
  {
    var cols := seqlen / ratio;
    var visible := Min(Visible(i, ratio), cols);
    assert forall p :: base <= p < base + cols ==> data[p] == Slice(data[..], base, cols)[p - base];
    for c := 0 to visible
      invariant forall p :: 0 <= p < data.Length && !(base <= p < base + cols) ==> data[p] == old(data[p])
      invariant forall p :: base <= p < base + cols ==> data[p] == if p < base + c then p - base + offset else -1
    {
      data[base + c] := c + offset;
    }
  }

  // ---------------------------------------------------------------- the indexer

  /** What the indexer keeps for a query: the k best of the visible blocks, best first, then -1. */
  function SelectedRow(scores: seq<real>, visible: nat, k: nat, offset: nat): (row: seq<int>)
    ensures |row| == k
  {
    var seen := Min(visible, |scores|);
    var chosen := Chosen(scores[..seen], Min(k, seen));
    seq(k, j requires j >= 0 => if j < Min(k, seen) then chosen[j] + offset else -1)
  }

  /** Blocks complete by position i, out of the blocks of s positions. */
  function Visible(i: nat, ratio: nat): nat
    requires ratio > 0
  {
    (i + 1) / ratio
  }

  lemma VisibleBound(i: nat, s: nat, ratio: nat)
    requires ratio > 0 && i < s
    ensures Visible(i, ratio) <= s / ratio
  {
    var q := s / ratio;
    assert s < (q + 1) * ratio;
    if Visible(i, ratio) > q {
      Monotone(q + 1, Visible(i, ratio), ratio);
    }
  }

  /** The blocks below `visible`, in order, with their scores: filter and map of the candidate list. */
  method VisibleCandidates(scores: seq<real>, visible: nat) returns (cand: seq<Candidate>)
    ensures cand == Candidates(scores[..Min(visible, |scores|)])
  {
    cand := [];
    for t := 0 to |scores|
      invariant cand == Candidates(scores[..Min(t, visible)])
    {
      if t < visible {
        cand := cand + [Candidate(scores[t], t)];
      }
    }
  }

  /** What the selection leaves in row q: query q % s of its sequence, over nb blocks. */
  function Wanted(flat: seq<real>, n: nat, s: nat, ratio: nat, k: nat, q: nat): (row: seq<int>)
    requires ratio > 0 && |flat| == n * (s / ratio) && q < n && s > 0
    ensures |row| == k
  {
    SelectedRow(RowOf(flat, q, n, s / ratio), Visible(q % s, ratio), k, s)
  }

  /** The selection loop over all queries of all sequences of the batch. */
  method Select(flat: seq<real>, b: nat, s: nat, ratio: nat, indexTopk: nat) returns (out: array<int>)
    requires ratio > 0 && |flat| == (b * s) * (s / ratio) && s > 0
    ensures fresh(out) && out.Length == (b * s) * Min(indexTopk, s / ratio)
    ensures forall q :: 0 <= q < b * s ==>
      RowOf(out[..], q, b * s, Min(indexTopk, s / ratio)) == Wanted(flat, b * s, s, ratio, Min(indexTopk, s / ratio), q)
  {
    var nb := s / ratio;
    var k := Min(indexTopk, nb);
    var n := b * s;
    out := new int[n * k](_ => -1);
    RepeatedRows(out[..], -1, n, k);
    for bi := 0 to b
      invariant 0 <= bi * s <= n
      invariant forall q :: bi * s <= q < n ==> RowOf(out[..], q, n, k) == Repeat(-1, k)
      invariant forall q :: 0 <= q < bi * s ==> RowOf(out[..], q, n, k) == Wanted(flat, n, s, ratio, k, q)
    {
      RowEnd(bi, b, s);
      SelectSequence(flat, bi, bi * s, s, n, ratio, k, out);
    }
  }

  /** The queries of one sequence, from row q0 on. */
  method SelectSequence(flat: seq<real>, ghost bi: nat, q0: nat, s: nat, n: nat, ratio: nat, k: nat, out: array<int>)
    requires ratio > 0 && |flat| == n * (s / ratio) && out.Length == n * k && q0 == bi * s && q0 + s <= n && s > 0
    requires forall q :: q0 <= q < n ==> RowOf(out[..], q, n, k) == Repeat(-1, k)
    modifies out
    ensures forall q :: 0 <= q < n && !(q0 <= q < q0 + s) ==> RowOf(out[..], q, n, k) == old(RowOf(out[..], q, n, k))
    ensures forall q :: q0 <= q < q0 + s ==> RowOf(out[..], q, n, k) == Wanted(flat, n, s, ratio, k, q)
  {
    for i := 0 to s
      invariant forall q :: 0 <= q < n && !(q0 <= q < q0 + i) ==>
        RowOf(out[..], q, n, k) == old(RowOf(out[..], q, n, k))
      invariant forall q :: q0 <= q < q0 + i ==> RowOf(out[..], q, n, k) == Wanted(flat, n, s, ratio, k, q)
    {
      Split(bi, i, s);
      SelectQuery(flat, q0 + i, i, s, n, ratio, k, out);
    }
  }

  /** Query i of its sequence, in row q. */
  method SelectQuery(flat: seq<real>, q: nat, i: nat, s: nat, n: nat, ratio: nat, k: nat, out: array<int>)
    requires ratio > 0 && |flat| == n * (s / ratio) && out.Length == n * k && q < n && i < s && q % s == i
    requires RowOf(out[..], q, n, k) == Repeat(-1, k)
    modifies out
    ensures forall r :: 0 <= r < n && r != q ==> RowOf(out[..], r, n, k) == old(RowOf(out[..], r, n, k))
    ensures RowOf(out[..], q, n, k) == Wanted(flat, n, s, ratio, k, q)
  {
    var nb := s / ratio;
    RowEnd(q, n, k);
    RowEnd(q, n, nb);
    ghost var before := out[..];
    SelectRow(Slice(flat, q * nb, nb), Visible(i, ratio), k, s, out, q * k);
    RowsKept(before, out[..], q, n, k);
  }

  /** The candidates, sorted, and the first k of them written out. */
  method SelectRow(scores: seq<real>, visible: nat, k: nat, offset: nat, out: array<int>, lo: nat)
    requires lo + k <= out.Length && Slice(out[..], lo, k) == Repeat(-1, k)
    modifies out
    ensures forall p :: 0 <= p < out.Length && !(lo <= p < lo + k) ==> out[p] == old(out[p])
    ensures Slice(out[..], lo, k) == SelectedRow(scores, visible, k, offset)
  {
    var cand := VisibleCandidates(scores, visible);
    var ranked := Sorting.Sort(cand, NotWorse());
    var taken := Min(k, |ranked|);
    ghost var chosen := Chosen(scores[..Min(visible, |scores|)], taken);
    assert forall p :: lo <= p < lo + k ==> out[p] == Slice(out[..], lo, k)[p - lo];
    for j := 0 to taken
      invariant forall p :: 0 <= p < out.Length && !(lo <= p < lo + k) ==> out[p] == old(out[p])
      invariant forall p :: lo <= p < lo + k ==> out[p] == if p < lo + j then chosen[p - lo] + offset else -1
    {
      out[lo + j] := ranked[j].item + offset;
    }
  }

  // ---------------------------------------------------------------- the mask

  /** 0.0 or minus infinity. */
  datatype MaskEntry = Open | Closed

  /** Row q of the mask is open exactly at the indices of row q of the table. */
  ghost predicate Scattered(mask: seq<MaskEntry>, idxs: seq<int>, q: nat, rows: nat, topk: nat, n: nat)
    requires |mask| == rows * n && |idxs| == rows * topk && q < rows
  {
    OpenAt(RowOf(mask, q, rows, n), RowOf(idxs, q, rows, topk))
  }

  ghost predicate OpenAt(m: seq<MaskEntry>, row: seq<int>) {
    forall j :: 0 <= j < |m| ==> (m[j] == Open <==> j in row)
  }

  /** Scatters every index of a row of the table into the mask row of its query. */
  method Scatter(idxs: seq<int>, b: nat, s: nat, topk: nat, n: nat) returns (mask: array<MaskEntry>)
    requires |idxs| == (b * s) * topk
    ensures fresh(mask) && mask.Length == (b * s) * n
    ensures forall q :: 0 <= q < b * s ==> Scattered(mask[..], idxs, q, b * s, topk, n)
  {
    var rows := b * s;
    mask := new MaskEntry[rows * n](_ => Closed);
    RepeatedRows(mask[..], Closed, rows, n);
    for bi := 0 to b
      invariant 0 <= bi * s <= rows
      invariant forall q :: bi * s <= q < rows ==> RowOf(mask[..], q, rows, n) == Repeat(Closed, n)
      invariant forall q :: 0 <= q < bi * s ==> OpenAt(RowOf(mask[..], q, rows, n), RowOf(idxs, q, rows, topk))
    {
      RowEnd(bi, b, s);
      ScatterSequence(idxs, bi * s, s, rows, topk, n, mask);
    }
  }

  /** The queries of one sequence, from row q0 on. */
  method ScatterSequence(idxs: seq<int>, q0: nat, s: nat, rows: nat, topk: nat, n: nat, mask: array<MaskEntry>)
    requires |idxs| == rows * topk && mask.Length == rows * n && q0 + s <= rows
    requires forall q :: q0 <= q < rows ==> RowOf(mask[..], q, rows, n) == Repeat(Closed, n)
    modifies mask
    ensures forall q :: 0 <= q < rows && !(q0 <= q < q0 + s) ==>
      RowOf(mask[..], q, rows, n) == old(RowOf(mask[..], q, rows, n))
    ensures forall q :: q0 <= q < q0 + s ==> OpenAt(RowOf(mask[..], q, rows, n), RowOf(idxs, q, rows, topk))
  {
    for i := 0 to s
      invariant forall q :: 0 <= q < rows && !(q0 <= q < q0 + i) ==>
        RowOf(mask[..], q, rows, n) == old(RowOf(mask[..], q, rows, n))
      invariant forall q :: q0 <= q < q0 + i ==> OpenAt(RowOf(mask[..], q, rows, n), RowOf(idxs, q, rows, topk))
    {
      ScatterQuery(idxs, q0 + i, rows, topk, n, mask);
    }
  }

  /** One query of the scatter. */
  method ScatterQuery(idxs: seq<int>, q: nat, rows: nat, topk: nat, n: nat, mask: array<MaskEntry>)
    requires |idxs| == rows * topk && mask.Length == rows * n && q < rows
    requires RowOf(mask[..], q, rows, n) == Repeat(Closed, n)
    modifies mask
    ensures forall r :: 0 <= r < rows && r != q ==> RowOf(mask[..], r, rows, n) == old(RowOf(mask[..], r, rows, n))
    ensures Scattered(mask[..], idxs, q, rows, topk, n)
  {
    RowEnd(q, rows, n);
    RowEnd(q, rows, topk);
    ghost var before := mask[..];
    ScatterRow(Slice(idxs, q * topk, topk), mask, q * n, n);
    RowsKept(before, mask[..], q, rows, n);
  }

  method ScatterRow(row: seq<int>, mask: array<MaskEntry>, lo: nat, n: nat)
    requires lo + n <= mask.Length && Slice(mask[..], lo, n) == Repeat(Closed, n)
    modifies mask
    ensures forall p :: 0 <= p < mask.Length && !(lo <= p < lo + n) ==> mask[p] == old(mask[p])
    ensures OpenAt(Slice(mask[..], lo, n), row)
  {
    assert forall p :: lo <= p < lo + n ==> mask[p] == Slice(mask[..], lo, n)[p - lo];
    for t := 0 to |row|
      invariant forall p :: 0 <= p < mask.Length && !(lo <= p < lo + n) ==> mask[p] == old(mask[p])
      invariant forall p :: lo <= p < lo + n ==> (mask[p] == Open <==> p - lo in row[..t])
    {
      assert row[..t + 1] == row[..t] + [row[t]];
      var idx := row[t];
      if 0 <= idx < n {
        mask[lo + idx] := Open;
      }
    }
    assert row[..|row|] == row;
  }
}
