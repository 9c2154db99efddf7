/**
  The layer ranges one peer offers for a model, merged where they overlap. Two ranges overlap when
  they share a layer; neighbours that only touch, 0-3 and 4-7, stay apart. A file name can also carry
  a reversed range, 7-4, which has no layers.
*/
module RangeMerge {
  import Sorting

  datatype Ranged = Ranged(start: nat, end: nat, file: string) {
    function Width(): int {
      end - start
    }
  }

  ghost predicate Proper(s: set<Ranged>) {
    forall r :: r in s ==> r.start <= r.end
  }

  /** Layer x is in one of the ranges. */
  ghost predicate Covers(s: set<Ranged>, x: nat) {
    exists r :: r in s && r.start <= x <= r.end
  }

  /** One of the ranges has both x and x + 1: the two layers end up in the same merged range. */
  ghost predicate Links(s: set<Ranged>, x: nat) {
    exists r :: r in s && r.start <= x < r.end
  }

  predicate Within(r: Ranged, o: Ranged) {
    o.start <= r.start && r.end <= o.end
  }

  ghost function SetOf(rs: seq<Ranged>): (s: set<Ranged>)
    ensures forall r :: r in s <==> r in rs
  {
    set r | r in rs
  }

  /** Sorted and pairwise disjoint. */
  ghost predicate Separate(out: seq<Ranged>) {
    && (forall i :: 0 <= i < |out| ==> out[i].start <= out[i].end)
    && (forall i, j :: 0 <= i < j < |out| ==> out[i].end < out[j].start)
  }

  /** The merged range carries the file of a widest range within it. */
  ghost predicate Represented(s: set<Ranged>, o: Ranged) {
    exists r :: r in s && Within(r, o) && r.file == o.file &&
      forall t :: t in s && Within(t, o) ==> t.Width() <= r.Width()
  }

  /** Every range is inside one of the merged ones, and by their separation inside only one. */
  ghost predicate Placed(s: set<Ranged>, out: seq<Ranged>) {
    forall r :: r in s ==> exists i :: 0 <= i < |out| && Within(r, out[i])
  }

  ghost predicate AllRepresented(s: set<Ranged>, out: seq<Ranged>) {
    forall i :: 0 <= i < |out| ==> Represented(s, out[i])
  }

  /** Two inputs with the same layers and links. */
  ghost predicate SamePoints(s: set<Ranged>, t: set<Ranged>) {
    forall x: nat :: (Covers(s, x) <==> Covers(t, x)) && (Links(s, x) <==> Links(t, x))
  }

  /** What the merge of a set of ranges is: separate ranges with the same layers and the same links. */
  ghost predicate IsMerge(s: set<Ranged>, out: seq<Ranged>) {
    Separate(out) && SamePoints(s, SetOf(out)) && Placed(s, out) && AllRepresented(s, out)
  }

  // ---------------------------------------------------------------- reversed ranges

  predicate IsProper(r: Ranged) {
    r.start <= r.end
  }

  ghost function ProperIn(m: multiset<Ranged>): (s: set<Ranged>)
    ensures Proper(s) && forall r :: r in s <==> r in m && IsProper(r)
  {
    set r | r in m && IsProper(r)
  }

  ghost function ProperOf(rs: seq<Ranged>): (s: set<Ranged>)
    ensures Proper(s) && forall r :: r in s <==> r in rs && IsProper(r)
  {
    set r | r in rs && IsProper(r)
  }

  /** The proper ranges of the list, in its order. */
  function ProperPart(rs: seq<Ranged>): seq<Ranged> {
    if rs == [] then []
    else
      var last := rs[|rs| - 1];
      ProperPart(rs[..|rs| - 1]) + if IsProper(last) then [last] else []
  }

  function Copies(m: multiset<Ranged>, r: Ranged): nat {
    m[r]
  }

  /** A reversed range comes out as often as it went in, but not where a proper range has its start layer. */
  ghost predicate ReversedKept(m: multiset<Ranged>, layers: set<Ranged>, out: seq<Ranged>) {
    forall r :: !IsProper(r) ==> Copies(multiset(out), r) == if Covers(layers, r.start) then 0 else Copies(m, r)
  }

  /** Every range ends before the later ones start, also the reversed ones. */
  ghost predicate InOrder(out: seq<Ranged>) {
    forall i, j :: 0 <= i < j < |out| ==> out[i].end < out[j].start && out[i].start <= out[j].start
  }

  /** What the merge of any ranges is: the proper ones merged, the reversed ones among them as they were. */
  ghost predicate IsMergeOf(m: multiset<Ranged>, out: seq<Ranged>) {
    IsMerge(ProperIn(m), ProperPart(out)) && ReversedKept(m, ProperIn(m), out) && InOrder(out)
  }

  lemma ProperPartPush(rs: seq<Ranged>, r: Ranged)
    ensures ProperPart(rs + [r]) == ProperPart(rs) + if IsProper(r) then [r] else []
  {
    assert (rs + [r])[..|rs|] == rs;
  }

  lemma {:induction false} ProperPartMembers(rs: seq<Ranged>)
    ensures SetOf(ProperPart(rs)) == ProperOf(rs)
    ensures forall r :: IsProper(r) ==> Copies(multiset(ProperPart(rs)), r) == Copies(multiset(rs), r)
  {
    if rs != [] {
      ProperPartMembers(rs[..|rs| - 1]);
      assert rs == rs[..|rs| - 1] + [rs[|rs| - 1]];
      forall r ensures r in ProperPart(rs) <==> r in ProperOf(rs) {
      }
    }
  }

  lemma ProperPartEnds(rs: seq<Ranged>, x: nat)
    requires EndBefore(rs, x)
    ensures EndBefore(ProperPart(rs), x)
  {
    ProperPartMembers(rs);
    forall k | 0 <= k < |ProperPart(rs)| ensures ProperPart(rs)[k].end < x {
      assert ProperPart(rs)[k] in SetOf(ProperPart(rs));
    }
  }

  /** No layer from x on is covered by ranges that merged into ranges ending before x. */
  lemma NotCovered(s: set<Ranged>, out: seq<Ranged>, x: nat)
    requires SamePoints(s, SetOf(out)) && EndBefore(out, x)
    ensures !Covers(s, x)
  {
    if Covers(SetOf(out), x) {
      var k := Holder(out, x);
      assert false;
    }
  }

  // ---------------------------------------------------------------- the algorithm

  /** By start, then wider first. */
  function Order(): (Ranged, Ranged) -> bool {
    (a: Ranged, b: Ranged) => a.start < b.start || (a.start == b.start && a.end >= b.end)
  }

  /** The ranges of block s fill o without a gap, and `best` is a widest of them. */
  ghost predicate Fills(s: set<Ranged>, o: Ranged) {
    && o.start <= o.end
    && (forall x: nat :: Covers(s, x) <==> o.start <= x <= o.end)
    && (forall x: nat :: Links(s, x) <==> o.start <= x < o.end)
    && (forall r :: r in s ==> Within(r, o))
  }

  ghost predicate Widest(s: set<Ranged>, b: Ranged) {
    b in s && forall t :: t in s ==> t.Width() <= b.Width()
  }

  ghost predicate FileOfWidest(s: set<Ranged>, o: Ranged) {
    exists b :: Widest(s, b) && o.file == b.file
  }

  lemma FillsOne(r: Ranged)
    requires r.start <= r.end
    ensures Fills({r}, r)
  {
    assert r in {r};
  }

  function Max(a: nat, b: nat): nat { if a > b then a else b }

  /** A range that starts inside the block extends it. */
  lemma FillsMore(s: set<Ranged>, o: Ranged, r: Ranged)
    requires Fills(s, o) && o.start <= r.start <= o.end && r.start <= r.end
    ensures Fills(s + {r}, o.(end := Max(o.end, r.end)))
  {
    var t, p := s + {r}, o.(end := Max(o.end, r.end));
    forall x: nat
      ensures Covers(t, x) <==> p.start <= x <= p.end
      ensures Links(t, x) <==> p.start <= x < p.end
    {
      UnionPoints(s, {r}, x);
      SinglePoints(r, x);
    }
  }

  lemma SinglePoints(r: Ranged, x: nat)
    ensures Covers({r}, x) <==> r.start <= x <= r.end
    ensures Links({r}, x) <==> r.start <= x < r.end
  {
    assert r in {r};
  }

  lemma UnionPoints(s: set<Ranged>, t: set<Ranged>, x: nat)
    ensures Covers(s + t, x) <==> Covers(s, x) || Covers(t, x)
    ensures Links(s + t, x) <==> Links(s, x) || Links(t, x)
  {
    if Covers(s, x) {
      var r :| r in s && r.start <= x <= r.end;
      assert r in s + t;
    }
    if Covers(t, x) {
      var r :| r in t && r.start <= x <= r.end;
      assert r in s + t;
    }
    if Links(s, x) {
      var r :| r in s && r.start <= x < r.end;
      assert r in s + t;
    }
    if Links(t, x) {
      var r :| r in t && r.start <= x < r.end;
      assert r in s + t;
    }
  }

  /** All ranges end before layer x. */
  ghost predicate EndBefore(out: seq<Ranged>, x: nat) {
    forall i :: 0 <= i < |out| ==> out[i].end < x
  }

  /** A finished block becomes one more merged range. */
  lemma AddBlock(s: set<Ranged>, out: seq<Ranged>, block: set<Ranged>, o: Ranged)
    requires IsMerge(s, out) && Proper(s) && Proper(block) && Fills(block, o) && FileOfWidest(block, o)
    requires EndBefore(out, o.start)
    ensures IsMerge(s + block, out + [o])
  {
    AddBlockPoints(s, out, block, o);
    AddBlockPlaced(s, out, block, o);
    AddBlockRepresented(s, out, block, o);
    AddSeparate(out, o);
  }

  lemma AddSeparate(out: seq<Ranged>, o: Ranged)
    requires Separate(out) && o.start <= o.end && EndBefore(out, o.start)
    ensures Separate(out + [o])
  {
  }

  lemma AddBlockPoints(s: set<Ranged>, out: seq<Ranged>, block: set<Ranged>, o: Ranged)
    requires SamePoints(s, SetOf(out)) && Fills(block, o)
    ensures SamePoints(s + block, SetOf(out + [o]))
  {
    assert SetOf(out + [o]) == SetOf(out) + {o};
    forall x: nat
      ensures Covers(s + block, x) <==> Covers(SetOf(out + [o]), x)
      ensures Links(s + block, x) <==> Links(SetOf(out + [o]), x)
    {
      UnionPoints(s, block, x);
      UnionPoints(SetOf(out), {o}, x);
      SinglePoints(o, x);
    }
  }

  lemma AddBlockRepresented(s: set<Ranged>, out: seq<Ranged>, block: set<Ranged>, o: Ranged)
    requires AllRepresented(s, out) && Placed(s, out) && Proper(s) && Proper(block)
    requires Fills(block, o) && FileOfWidest(block, o) && EndBefore(out, o.start)
    ensures AllRepresented(s + block, out + [o])
  {
    forall i | 0 <= i < |out| ensures Represented(s + block, out[i]) {
      StillRepresented(s, out[i], block, o);
    }
    var best :| Widest(block, best) && o.file == best.file;
    NewRepresented(s, out, block, o, best);
    PushRepresented(s + block, out, o);
  }

  lemma PushRepresented(t: set<Ranged>, out: seq<Ranged>, o: Ranged)
    requires AllRepresented(t, out) && Represented(t, o)
    ensures AllRepresented(t, out + [o])
  {
    forall i | 0 <= i < |out + [o]| ensures Represented(t, (out + [o])[i]) {
      assert i < |out| ==> (out + [o])[i] == out[i];
    }
  }

  lemma AddBlockPlaced(s: set<Ranged>, out: seq<Ranged>, block: set<Ranged>, o: Ranged)
    requires Placed(s, out) && Fills(block, o)
    ensures Placed(s + block, out + [o])
  {
    forall r | r in s + block ensures exists i :: 0 <= i < |out + [o]| && Within(r, (out + [o])[i]) {
      if r in s {
        var i :| 0 <= i < |out| && Within(r, out[i]);
        assert Within(r, (out + [o])[i]);
      } else {
        assert Within(r, (out + [o])[|out|]);
      }
    }
  }

  /** The ranges of a later block are not within an earlier merged range. */
  lemma StillRepresented(s: set<Ranged>, p: Ranged, block: set<Ranged>, o: Ranged)
    requires Represented(s, p) && Proper(block) && Fills(block, o) && p.end < o.start
    ensures Represented(s + block, p)
  {
    var r :| r in s && Within(r, p) && r.file == p.file &&
      forall t :: t in s && Within(t, p) ==> t.Width() <= r.Width();
    assert r in s + block;
    forall t | t in s + block && Within(t, p) ensures t.Width() <= r.Width() {
      assert t in s || t in block;
    }
  }

  lemma NewRepresented(s: set<Ranged>, out: seq<Ranged>, block: set<Ranged>, o: Ranged, best: Ranged)
    requires Placed(s, out) && Proper(s) && Fills(block, o) && Widest(block, best) && o.file == best.file
    requires EndBefore(out, o.start)
    ensures Represented(s + block, o)
  {
    assert best in s + block;
    forall t | t in s ensures !Within(t, o) {
      var j :| 0 <= j < |out| && Within(t, out[j]);
    }
  }

  lemma ProperParts(group: seq<Ranged>, i: nat, j: nat)
    requires i <= j <= |group|
    ensures ProperOf(group[..j]) == ProperOf(group[..i]) + ProperOf(group[i..j])
    ensures multiset(group[..j]) == multiset(group[..i]) + multiset(group[i..j])
  {
    assert group[..j] == group[..i] + group[i..j];
  }

  lemma LaterBlock(out: seq<Ranged>, o: Ranged, x: nat)
    requires EndBefore(out, o.start) && o.start <= x && o.end < x
    ensures EndBefore(out + [o], x)
  {
  }

  /** The blocks handled so far are merged into `out`. */
  ghost predicate MergedSoFar(group: seq<Ranged>, i: nat, out: seq<Ranged>)
    requires i <= |group|
  {
    && IsMerge(ProperOf(group[..i]), ProperPart(out))
    && ReversedKept(multiset(group[..i]), ProperOf(group[..i]), out)
    && InOrder(out)
    && (i < |group| ==> EndBefore(out, group[i].start))
    && (i < |group| ==> StartBefore(out, group[i].start))
  }

  ghost predicate StartBefore(out: seq<Ranged>, x: nat) {
    forall k :: 0 <= k < |out| ==> out[k].start <= x
  }

  /** The block from i to j is one reversed range, or proper ranges that fill o with reversed ones that start in it. */
  ghost predicate IsBlock(group: seq<Ranged>, i: nat, j: nat, o: Ranged)
    requires i < j <= |group|
  {
    && o.start == group[i].start && (j < |group| ==> o.end < group[j].start)
    && (IsProper(group[i]) ==> Fills(ProperOf(group[i..j]), o) && FileOfWidest(ProperOf(group[i..j]), o))
    && (IsProper(group[i]) ==> StartWithin(group[i..j], o))
    && (!IsProper(group[i]) ==> j == i + 1 && o == group[i])
  }

  ghost predicate StartWithin(rs: seq<Ranged>, o: Ranged) {
    forall r :: r in rs ==> o.start <= r.start <= o.end
  }

  lemma PushInOrder(out: seq<Ranged>, o: Ranged)
    requires InOrder(out) && EndBefore(out, o.start) && StartBefore(out, o.start)
    ensures InOrder(out + [o])
  {
  }

  lemma SameMultiset(a: multiset<Ranged>, b: multiset<Ranged>)
    requires forall r :: Copies(a, r) == Copies(b, r)
    ensures a == b
  {
    forall r: Ranged ensures a[r] == b[r] {
      assert Copies(a, r) == Copies(b, r);
    }
  }

  lemma CountPush(m: multiset<Ranged>, layers: set<Ranged>, out: seq<Ranged>, o: Ranged)
    requires ReversedKept(m, layers, out) && !IsProper(o) && !Covers(layers, o.start)
    ensures ReversedKept(m + multiset{o}, layers, out + [o])
  {
    forall r: Ranged | !IsProper(r)
      ensures Copies(multiset(out + [o]), r) == if Covers(layers, r.start) then 0 else Copies(m + multiset{o}, r)
    {
      assert multiset(out + [o]) == multiset(out) + multiset{o};
    }
  }

  /** A reversed range that is not inside a block comes out as it is. */
  lemma MergeReversed(group: seq<Ranged>, i: nat, out: seq<Ranged>)
    requires i < |group| && MergedSoFar(group, i, out) && !IsProper(group[i])
    ensures IsMerge(ProperOf(group[..i + 1]), ProperPart(out + [group[i]]))
    ensures ReversedKept(multiset(group[..i + 1]), ProperOf(group[..i + 1]), out + [group[i]])
  {
    var o := group[i];
    ReversedSlice(group, i);
    ProperPartPush(out, o);
    assert ProperPart(out) + [] == ProperPart(out);
    ProperPartEnds(out, o.start);
    NotCovered(ProperOf(group[..i]), ProperPart(out), o.start);
    CountPush(multiset(group[..i]), ProperOf(group[..i]), out, o);
  }

  lemma ReversedSlice(group: seq<Ranged>, i: nat)
    requires i < |group| && !IsProper(group[i])
    ensures ProperOf(group[..i + 1]) == ProperOf(group[..i])
    ensures multiset(group[..i + 1]) == multiset(group[..i]) + multiset{group[i]}
  {
    assert group[..i + 1] == group[..i] + [group[i]];
  }

  /** Reversed ranges before the block start before it. */
  lemma EarlierReversed(group: seq<Ranged>, i: nat, r: Ranged)
    requires i < |group| && Sorting.Sorted(group, Order()) && IsProper(group[i]) && !IsProper(r) && r in group[..i]
    ensures r.start < group[i].start
  {
    var k :| 0 <= k < i && group[k] == r;
    assert Order()(group[k], group[i]);
  }

  lemma ReversedAround(group: seq<Ranged>, i: nat, j: nat, out: seq<Ranged>, o: Ranged, r: Ranged)
    requires i < j <= |group| && Sorting.Sorted(group, Order()) && IsProper(group[i]) && !IsProper(r)
    requires ReversedKept(multiset(group[..i]), ProperOf(group[..i]), out) && IsBlock(group, i, j, o)
    ensures Copies(multiset(out + [o]), r) ==
        if Covers(ProperOf(group[..j]), r.start) then 0 else Copies(multiset(group[..j]), r)
  {
    ProperParts(group, i, j);
    UnionPoints(ProperOf(group[..i]), ProperOf(group[i..j]), r.start);
    assert Copies(multiset(out + [o]), r) == Copies(multiset(out), r);
    if o.start <= r.start <= o.end {
      if r in group[..i] {
        EarlierReversed(group, i, r);
      }
      assert multiset(group[..i])[r] == 0;
    } else {
      assert r !in group[i..j];
      assert multiset(group[i..j])[r] == 0;
    }
  }

  lemma MergeProper(group: seq<Ranged>, i: nat, j: nat, out: seq<Ranged>, o: Ranged)
    requires i < j <= |group| && Sorting.Sorted(group, Order()) && IsProper(group[i])
    requires MergedSoFar(group, i, out) && IsBlock(group, i, j, o)
    ensures IsMerge(ProperOf(group[..j]), ProperPart(out + [o]))
  {
    ProperParts(group, i, j);
    ProperPartPush(out, o);
    ProperPartEnds(out, o.start);
    AddBlock(ProperOf(group[..i]), ProperPart(out), ProperOf(group[i..j]), o);
  }

  lemma ReversedAroundBlock(group: seq<Ranged>, i: nat, j: nat, out: seq<Ranged>, o: Ranged)
    requires i < j <= |group| && Sorting.Sorted(group, Order()) && IsProper(group[i])
    requires ReversedKept(multiset(group[..i]), ProperOf(group[..i]), out) && IsBlock(group, i, j, o)
    ensures ReversedKept(multiset(group[..j]), ProperOf(group[..j]), out + [o])
  {
    forall r: Ranged | !IsProper(r)
      ensures Copies(multiset(out + [o]), r) ==
        if Covers(ProperOf(group[..j]), r.start) then 0 else Copies(multiset(group[..j]), r)
    {
      ReversedAround(group, i, j, out, o, r);
    }
  }

  lemma MergeOneMore(group: seq<Ranged>, i: nat, j: nat, out: seq<Ranged>, o: Ranged)
    requires i < j <= |group| && Sorting.Sorted(group, Order())
    requires MergedSoFar(group, i, out) && IsBlock(group, i, j, o)
    ensures MergedSoFar(group, j, out + [o])
  {
    if IsProper(group[i]) {
      MergeProper(group, i, j, out, o);
      ReversedAroundBlock(group, i, j, out, o);
    } else {
      MergeReversed(group, i, out);
    }
    PushInOrder(out, o);
    if j < |group| {
      assert Order()(group[i], group[j]);
      LaterBlock(out, o, group[j].start);
    }
  }

  lemma NothingMerged(group: seq<Ranged>)
    ensures MergedSoFar(group, 0, [])
  {
    assert group[..0] == [] && SetOf([]) == {} && ProperOf(group[..0]) == {};
  }

  lemma AllMerged(ranges: seq<Ranged>, group: seq<Ranged>, out: seq<Ranged>)
    requires multiset(ranges) == multiset(group) && MergedSoFar(group, |group|, out)
    ensures IsMergeOf(multiset(ranges), out)
  {
    assert group[..|group|] == group;
    assert ProperOf(group) == ProperIn(multiset(ranges));
  }

  method MergeRanges(ranges: seq<Ranged>) returns (merged: seq<Ranged>)
    ensures IsMergeOf(multiset(ranges), merged)
  {
    var group := Sorting.Sort(ranges, Order());
    Sorting.SortSorts(ranges, Order());
    merged := [];
    NothingMerged(group);
    var i := 0;
    while i < |group|
      invariant 0 <= i <= |group| && MergedSoFar(group, i, merged)
    {
      var j, o := MergeBlock(group, i);
      MergeOneMore(group, i, j, merged, o);
      merged := merged + [o];
      i := j;
    }
    AllMerged(ranges, group, merged);
  }

  lemma SliceGrows(group: seq<Ranged>, i: nat, j: nat)
    requires i <= j < |group|
    ensures group[i..j + 1] == group[i..j] + [group[j]]
    ensures ProperOf(group[i..j + 1]) == ProperOf(group[i..j]) + if IsProper(group[j]) then {group[j]} else {}
  {
    assert group[i..j + 1] == group[i..j] + [group[j]];
  }

  lemma BlockGrows(group: seq<Ranged>, i: nat, j: nat, hull: Ranged)
    requires i < j < |group| && Sorting.Sorted(group, Order())
    requires Fills(ProperOf(group[i..j]), hull) && hull.start == group[i].start && group[j].start <= hull.end
    requires StartWithin(group[i..j], hull)
    ensures var o := hull.(end := Max(hull.end, group[j].end));
      Fills(ProperOf(group[i..j + 1]), o) && StartWithin(group[i..j + 1], o)
  {
    SliceGrows(group, i, j);
    assert Order()(group[i], group[j]);
    if IsProper(group[j]) {
      FillsMore(ProperOf(group[i..j]), hull, group[j]);
    } else {
      assert ProperOf(group[i..j + 1]) == ProperOf(group[i..j]);
      assert hull.(end := Max(hull.end, group[j].end)) == hull;
    }
  }

  /** A range that is not wider leaves the widest as it was. */
  lemma WidestStays(s: set<Ranged>, b: Ranged, r: Ranged)
    requires Widest(s, b) && r.Width() <= b.Width()
    ensures Widest(s + {r}, b)
  {
  }

  lemma WidestChanges(s: set<Ranged>, b: Ranged, r: Ranged)
    requires Widest(s, b) && r.Width() > b.Width()
    ensures Widest(s + {r}, r)
  {
  }

  /** The best of the block so far, with the next range looked at. */
  lemma BestOf(group: seq<Ranged>, i: nat, j: nat, best: nat)
    requires i <= best < j < |group| && IsProper(group[best]) && Widest(ProperOf(group[i..j]), group[best])
    ensures var next := if group[j].Width() > group[best].Width() then j else best;
      IsProper(group[next]) && Widest(ProperOf(group[i..j + 1]), group[next])
  {
    SliceGrows(group, i, j);
    if group[j].Width() > group[best].Width() {
      WidestChanges(ProperOf(group[i..j]), group[best], group[j]);
    } else if IsProper(group[j]) {
      WidestStays(ProperOf(group[i..j]), group[best], group[j]);
    }
  }

  /** The inner loop up to j: what the block spans, and its widest range. */
  ghost predicate BlockSoFar(group: seq<Ranged>, i: nat, j: nat, hull: Ranged, best: nat)
    requires i < j <= |group|
  {
    && i <= best < j && hull.start == group[i].start
    && (IsProper(group[i]) ==> Fills(ProperOf(group[i..j]), hull) && StartWithin(group[i..j], hull))
    && (IsProper(group[i]) ==> IsProper(group[best]) && Widest(ProperOf(group[i..j]), group[best]))
    && (!IsProper(group[i]) ==> j == i + 1 && hull == group[i] && best == i)
  }

  lemma FirstOfBlock(group: seq<Ranged>, i: nat)
    requires i < |group|
    ensures BlockSoFar(group, i, i + 1, group[i], i)
  {
    assert group[i..i + 1] == [group[i]];
    if IsProper(group[i]) {
      assert ProperOf(group[i..i + 1]) == {group[i]};
      FillsOne(group[i]);
    }
  }

  lemma NextOfBlock(group: seq<Ranged>, i: nat, j: nat, hull: Ranged, best: nat, hull': Ranged, best': nat)
    requires i < j < |group| && Sorting.Sorted(group, Order()) && BlockSoFar(group, i, j, hull, best)
    requires group[j].start <= hull.end && hull' == hull.(end := Max(hull.end, group[j].end))
    requires best' == if group[j].Width() > group[best].Width() then j else best
    ensures BlockSoFar(group, i, j + 1, hull', best')
  {
    assert Order()(group[i], group[j]);
    BlockGrows(group, i, j, hull);
    BestOf(group, i, j, best);
  }

  lemma BlockEnds(group: seq<Ranged>, i: nat, j: nat, hull: Ranged, best: nat)
    requires i < j <= |group| && BlockSoFar(group, i, j, hull, best)
    requires j < |group| ==> hull.end < group[j].start
    ensures IsBlock(group, i, j, Ranged(group[i].start, hull.end, group[best].file))
  {
    if IsProper(group[i]) {
      SameHull(ProperOf(group[i..j]), hull, Ranged(group[i].start, hull.end, group[best].file));
    }
  }

  /** Where the inner loop ends from j on: the end of the block, its last layer and its widest range. */
  function Extend(group: seq<Ranged>, j: nat, curEnd: nat, best: nat): (r: (nat, nat, nat))
    requires best < j <= |group|
    ensures j <= r.0 <= |group| && r.2 < r.0
    decreases |group| - j
  {
    if j == |group| || group[j].start > curEnd then (j, curEnd, best)
    else Extend(group, j + 1, Max(curEnd, group[j].end), if group[j].Width() > group[best].Width() then j else best)
  }

  /** What the extension gives is the block from i on. */
  ghost predicate ExtendedIsBlock(group: seq<Ranged>, i: nat, j: nat, curEnd: nat, best: nat)
    requires i < j <= |group| && best < j
  {
    var (k, end, widest) := Extend(group, j, curEnd, best);
    IsBlock(group, i, k, Ranged(group[i].start, end, group[widest].file))
  }

  lemma {:induction false} ExtendIsBlock(group: seq<Ranged>, i: nat, j: nat, hull: Ranged, best: nat)
    requires i < j <= |group| && Sorting.Sorted(group, Order()) && BlockSoFar(group, i, j, hull, best)
    ensures ExtendedIsBlock(group, i, j, hull.end, best)
    decreases |group| - j
  {
    if j == |group| || group[j].start > hull.end {
      BlockEnds(group, i, j, hull, best);
    } else {
      var hull' := hull.(end := Max(hull.end, group[j].end));
      var best' := if group[j].Width() > group[best].Width() then j else best;
      NextOfBlock(group, i, j, hull, best, hull', best');
      ExtendIsBlock(group, i, j + 1, hull', best');
    }
  }

  /** The inner loop: the block that starts at i, up to j, as one range. */
  method MergeBlock(group: seq<Ranged>, i: nat) returns (j: nat, o: Ranged)
    requires i < |group| && Sorting.Sorted(group, Order())
    ensures i < j <= |group| && IsBlock(group, i, j, o)
  {
    var curEnd: nat := group[i].end;
    var best: nat := i;
    var bestWidth := curEnd - group[i].start;
    j := i + 1;
    while j < |group| && group[j].start <= curEnd
      invariant i < j <= |group| && i <= best < j && bestWidth == group[best].Width()
      invariant Extend(group, j, curEnd, best) == Extend(group, i + 1, group[i].end, i)
    {
      if group[j].end > curEnd {
        curEnd := group[j].end;
      }
      var w := group[j].end - group[j].start;
      if w > bestWidth {
        best := j;
        bestWidth := w;
      }
      j := j + 1;
    }
    o := Ranged(group[i].start, curEnd, group[best].file);
    FirstOfBlock(group, i);
    ExtendIsBlock(group, i, i + 1, group[i], i);
  }

  /** The file of a hull does not matter to what fills it. */
  lemma SameHull(s: set<Ranged>, a: Ranged, b: Ranged)
    requires Fills(s, a) && a.start == b.start && a.end == b.end
    ensures Fills(s, b)
  {
  }

  // ---------------------------------------------------------------- what a merge determines

  lemma OutCovers(out: seq<Ranged>, i: nat, x: nat)
    requires i < |out| && out[i].start <= x <= out[i].end
    ensures Covers(SetOf(out), x) && (x < out[i].end ==> Links(SetOf(out), x))
  {
    assert out[i] in SetOf(out);
  }

  /** The range that holds layer x. */
  lemma Holder(out: seq<Ranged>, x: nat) returns (k: nat)
    requires Covers(SetOf(out), x)
    ensures k < |out| && out[k].start <= x <= out[k].end
  {
    var r :| r in SetOf(out) && r.start <= x <= r.end;
    k :| 0 <= k < |out| && out[k] == r;
  }

  /** Nothing links the end of a range to the layer after it. */
  lemma EndUnlinked(out: seq<Ranged>, i: nat)
    requires Separate(out) && i < |out|
    ensures !Links(SetOf(out), out[i].end)
  {
    forall r | r in SetOf(out) ensures !(r.start <= out[i].end < r.end) {
      var k :| 0 <= k < |out| && out[k] == r;
    }
  }

  /** If the ranges before i agree, b has a range i, and it does not start later than that of a. */
  lemma StartsNoLater(a: seq<Ranged>, b: seq<Ranged>, i: nat)
    requires Separate(a) && Separate(b) && SamePoints(SetOf(a), SetOf(b)) && i < |a|
    requires forall k :: 0 <= k < i ==> k < |b| && a[k].start == b[k].start && a[k].end == b[k].end
    ensures i < |b| && b[i].start <= a[i].start
  {
    OutCovers(a, i, a[i].start);
    var k := Holder(b, a[i].start);
  }

  /** Nor does it end earlier. */
  lemma EndsNoEarlier(a: seq<Ranged>, b: seq<Ranged>, i: nat)
    requires Separate(a) && Separate(b) && SamePoints(SetOf(a), SetOf(b))
    requires i < |a| && i < |b| && a[i].start == b[i].start
    ensures a[i].end <= b[i].end
  {
    EndUnlinked(b, i);
    if b[i].end < a[i].end {
      OutCovers(a, i, b[i].end);
    }
  }

  lemma {:induction false} RangesAgree(a: seq<Ranged>, b: seq<Ranged>, n: nat)
    requires Separate(a) && Separate(b) && SamePoints(SetOf(a), SetOf(b)) && n <= |a|
    ensures n <= |b| && forall k :: 0 <= k < n ==> a[k].start == b[k].start && a[k].end == b[k].end
  {
    if n > 0 {
      var i := n - 1;
      RangesAgree(a, b, i);
      StartsNoLater(a, b, i);
      StartsNoLater(b, a, i);
      EndsNoEarlier(a, b, i);
      EndsNoEarlier(b, a, i);
    }
  }

  /** The merged ranges are determined by the layers and links, so input order and duplicates do not matter. */
  lemma MergeIsUnique(s: set<Ranged>, t: set<Ranged>, a: seq<Ranged>, b: seq<Ranged>)
    requires SamePoints(s, t) && IsMerge(s, a) && IsMerge(t, b)
    ensures |a| == |b| && forall k :: 0 <= k < |a| ==> a[k].start == b[k].start && a[k].end == b[k].end
  {
    assert SamePoints(SetOf(a), SetOf(b));
    RangesAgree(a, b, |a|);
    RangesAgree(b, a, |b|);
  }

  /** Whatever the order of the input, reversed ranges included. */
  lemma MergeIgnoresOrder(m: multiset<Ranged>, a: seq<Ranged>, b: seq<Ranged>)
    requires IsMergeOf(m, a) && IsMergeOf(m, b)
    ensures var x, y := ProperPart(a), ProperPart(b);
      |x| == |y| && forall k :: 0 <= k < |x| ==> x[k].start == y[k].start && x[k].end == y[k].end
    ensures forall r :: !IsProper(r) ==> Copies(multiset(a), r) == Copies(multiset(b), r)
  {
    MergeIsUnique(ProperIn(m), ProperIn(m), ProperPart(a), ProperPart(b));
  }

  /** No range is inside two merged ones. */
  lemma PlacedOnce(out: seq<Ranged>, r: Ranged, i: nat, j: nat)
    requires Separate(out) && r.start <= r.end && i < |out| && j < |out| && Within(r, out[i]) && Within(r, out[j])
    ensures i == j
  {
  }

  /** A merged range that represents separate ranges has the file of the one it equals. */
  lemma SameFile(out: seq<Ranged>, k: nat, o: Ranged)
    requires Separate(out) && k < |out| && out[k].start == o.start && out[k].end == o.end && Represented(SetOf(out), o)
    ensures out[k].file == o.file
  {
    var r :| r in SetOf(out) && Within(r, o) && r.file == o.file;
    var i :| 0 <= i < |out| && out[i] == r;
    PlacedOnce(out, r, i, k);
  }

  lemma ReversedTwice(m: multiset<Ranged>, out: seq<Ranged>, again: seq<Ranged>, r: Ranged)
    requires IsMergeOf(m, out) && IsMergeOf(multiset(out), again) && !IsProper(r)
    ensures Copies(multiset(again), r) == Copies(multiset(out), r)
  {
    ProperPartMembers(out);
    assert ProperIn(multiset(out)) == SetOf(ProperPart(out));
    assert Covers(ProperIn(m), r.start) <==> Covers(SetOf(ProperPart(out)), r.start);
  }

  lemma ProperTwice(m: multiset<Ranged>, out: seq<Ranged>, again: seq<Ranged>)
    requires IsMergeOf(m, out) && IsMergeOf(multiset(out), again)
    ensures ProperPart(again) == ProperPart(out)
  {
    ProperPartMembers(out);
    assert ProperIn(multiset(out)) == SetOf(ProperPart(out));
    MergedTwice(ProperPart(out), ProperPart(again));
  }

  lemma SameCount(m: multiset<Ranged>, out: seq<Ranged>, again: seq<Ranged>, r: Ranged)
    requires IsMergeOf(m, out) && IsMergeOf(multiset(out), again) && ProperPart(again) == ProperPart(out)
    ensures Copies(multiset(again), r) == Copies(multiset(out), r)
  {
    if IsProper(r) {
      ProperPartMembers(out);
      ProperPartMembers(again);
    } else {
      ReversedTwice(m, out, again, r);
    }
  }

  /** Merging what is merged already changes nothing, files and reversed ranges included. */
  lemma MergeIsIdempotent(m: multiset<Ranged>, out: seq<Ranged>, again: seq<Ranged>)
    requires IsMergeOf(m, out) && IsMergeOf(multiset(out), again)
    ensures ProperPart(again) == ProperPart(out) && multiset(again) == multiset(out)
  {
    ProperTwice(m, out, again);
    forall r: Ranged ensures Copies(multiset(again), r) == Copies(multiset(out), r) {
      SameCount(m, out, again, r);
    }
    SameMultiset(multiset(again), multiset(out));
  }

  lemma MergedTwice(out: seq<Ranged>, again: seq<Ranged>)
    requires Separate(out) && Separate(again) && SamePoints(SetOf(out), SetOf(again))
    requires AllRepresented(SetOf(out), again)
    ensures again == out
  {
    RangesAgree(out, again, |out|);
    RangesAgree(again, out, |again|);
    forall k | 0 <= k < |out| ensures again[k] == out[k] {
      SameFile(out, k, again[k]);
    }
  }
}
