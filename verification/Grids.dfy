/** Row-major positions in flat buffers. */
module Grids {
  lemma Monotone(a: nat, b: nat, w: nat)
    requires a <= b
    ensures a * w <= b * w
  {
    assert b * w - a * w == (b - a) * w;
  }

  /** Column c of row r, with w columns, splits back into r and c. */
  lemma Split(r: nat, c: nat, w: nat)
    requires c < w
    ensures (r * w + c) / w == r && (r * w + c) % w == c
  {
    var q := (r * w + c) / w;
    if q > r {
      Monotone(r + 1, q, w);
    } else if q < r {
      Monotone(q + 1, r, w);
    }
  }

  lemma Bounded(r: nat, c: nat, n: nat, w: nat)
    requires r < n && c < w
    ensures r * w + c < r * w + w == (r + 1) * w <= n * w
  {
    Monotone(r + 1, n, w);
  }

  lemma RowEnd(r: nat, n: nat, w: nat)
    requires r < n
    ensures r * w + w == (r + 1) * w <= n * w
  {
    Monotone(r + 1, n, w);
  }

  /** The row of a position inside a grid of n rows. */
  lemma Inside(p: nat, n: nat, w: nat)
    requires p < n * w
    ensures w > 0 && p / w < n && p % w < w && p == p / w * w + p % w
  {
    if w > 0 && p / w >= n {
      Monotone(n, p / w, w);
    }
  }

  function Slice<T>(flat: seq<T>, lo: nat, w: nat): (row: seq<T>)
    requires lo + w <= |flat|
    ensures |row| == w && forall c :: 0 <= c < w ==> row[c] == flat[lo + c]
  {
    flat[lo..lo + w]
  }

  /** Row r of a flat buffer of n rows of w columns. */
  function RowOf<T>(flat: seq<T>, r: nat, n: nat, w: nat): (row: seq<T>)
    requires r < n && |flat| == n * w
    ensures |row| == w
  {
    RowEnd(r, n, w);
    Slice(flat, r * w, w)
  }

  lemma OtherRow<T>(a: seq<T>, b: seq<T>, q: nat, n: nat, k: nat)
    requires q < n && |a| == |b| == n * k
    requires forall p :: q * k <= p < q * k + k && p < |a| ==> a[p] == b[p]
    ensures RowOf(a, q, n, k) == RowOf(b, q, n, k)
  {
    RowEnd(q, n, k);
  }

  /** Writing row r leaves the other rows as they were. */
  lemma RowsKept<T>(a: seq<T>, b: seq<T>, r: nat, n: nat, w: nat)
    requires r < n && |a| == |b| == n * w
    requires forall p :: 0 <= p < |a| && !(r * w <= p < r * w + w) ==> a[p] == b[p]
    ensures forall q :: 0 <= q < n && q != r ==> RowOf(b, q, n, w) == RowOf(a, q, n, w)
  {
    forall q | 0 <= q < n && q != r ensures RowOf(b, q, n, w) == RowOf(a, q, n, w) {
      if q < r {
        RowEnd(q, r, w);
      } else {
        RowEnd(r, q, w);
      }
      OtherRow(a, b, q, n, w);
    }
  }

  function Repeat<T>(v: T, w: nat): (row: seq<T>)
    ensures |row| == w && forall c :: 0 <= c < w ==> row[c] == v
  {
    seq(w, _ => v)
  }

  lemma RepeatedRows<T>(a: seq<T>, v: T, n: nat, w: nat)
    requires |a| == n * w && forall p :: 0 <= p < |a| ==> a[p] == v
    ensures forall q :: 0 <= q < n ==> RowOf(a, q, n, w) == Repeat(v, w)
  {
    forall q | 0 <= q < n ensures RowOf(a, q, n, w) == Repeat(v, w) {
      RowEnd(q, n, w);
    }
  }

  /** A table of n rows of w entries, flat. */
  function Table<T>(f: (nat, nat) -> T, n: nat, w: nat): (flat: seq<T>)
    ensures |flat| == n * w
  {
    seq(n * w, p requires 0 <= p < n * w => if w == 0 then f(0, 0) else f(p / w, p % w))
  }

  lemma TableRow<T>(f: (nat, nat) -> T, r: nat, n: nat, w: nat, row: seq<T>)
    requires r < n && |row| == w && forall c: nat :: c < w ==> row[c] == f(r, c)
    ensures RowOf(Table(f, n, w), r, n, w) == row
  {
    forall c | 0 <= c < w ensures RowOf(Table(f, n, w), r, n, w)[c] == row[c] {
      Split(r, c, w);
      Bounded(r, c, n, w);
    }
  }
}
