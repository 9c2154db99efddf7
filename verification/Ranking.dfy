/** The k best of a row of scores, by a stable sort: experts of a token, compressed blocks of a query. */
module Ranking {
  import Sorting

  /** A candidate of the sort: a score and what it is the score of. */
  datatype Candidate = Candidate(score: real, item: nat)

  /** The comparison of the sort, higher scores first; the sort is stable. */
  function NotWorse(): (Candidate, Candidate) -> bool {
    (a: Candidate, b: Candidate) => a.score >= b.score
  }

  function Candidates(scores: seq<real>): (cs: seq<Candidate>)
    ensures |cs| == |scores|
    ensures forall j :: 0 <= j < |cs| ==> cs[j] == Candidate(scores[j], j)
  {
    seq(|scores|, j requires 0 <= j < |scores| => Candidate(scores[j], j))
  }

  function Ranked(scores: seq<real>): seq<Candidate> {
    Sorting.Sort(Candidates(scores), NotWorse())
  }

  /** A better score, or the same score and a lower number. */
  ghost predicate Better(scores: seq<real>, i: nat, j: nat)
    requires i < |scores| && j < |scores|
  {
    scores[i] > scores[j] || (scores[i] == scores[j] && i < j)
  }

  /** The k best of a row of scores, best first. */
  function Chosen(scores: seq<real>, k: nat): (r: seq<nat>)
    requires k <= |scores|
    ensures |r| == k && forall t :: 0 <= t < k ==> r[t] < |scores|
  {
    RankedEntries(scores);
    seq(k, t requires 0 <= t < k => Ranked(scores)[t].item)
  }

  ghost predicate Ahead(a: Candidate, b: Candidate) {
    a.score > b.score || (a.score == b.score && a.item < b.item)
  }

  ghost predicate StrictlyRanked(s: seq<Candidate>) {
    forall i, j :: 0 <= i < j < |s| ==> Ahead(s[i], s[j])
  }

  lemma {:induction false} InsertRanks(x: Candidate, s: seq<Candidate>)
    requires StrictlyRanked(s) && forall i :: 0 <= i < |s| ==> x.item < s[i].item
    ensures StrictlyRanked(Sorting.Insert(x, s, NotWorse()))
    decreases |s|
  {
    if s != [] && !NotWorse()(x, s[0]) {
      InsertRanks(x, s[1..]);
      var r := Sorting.Insert(x, s[1..], NotWorse());
      forall j | 0 <= j < |r| ensures Ahead(s[0], r[j]) {
        assert r[j] in multiset(r);
        if r[j] != x {
          assert r[j] in s[1..];
        }
      }
    }
  }

  lemma {:induction false} SortRanks(s: seq<Candidate>)
    requires forall i, j :: 0 <= i < j < |s| ==> s[i].item < s[j].item
    ensures StrictlyRanked(Sorting.Sort(s, NotWorse()))
    decreases |s|
  {
    if s != [] {
      SortRanks(s[1..]);
      var r := Sorting.Sort(s[1..], NotWorse());
      forall i | 0 <= i < |r| ensures s[0].item < r[i].item {
        assert r[i] in multiset(r);
        assert r[i] in s[1..];
      }
      InsertRanks(s[0], r);
    }
  }

  /** The ranking holds every item with its score, and nothing else. */
  lemma RankedEntries(scores: seq<real>)
    ensures |Ranked(scores)| == |scores| && StrictlyRanked(Ranked(scores))
    ensures forall t :: 0 <= t < |scores| ==>
      Ranked(scores)[t].item < |scores| && Ranked(scores)[t].score == scores[Ranked(scores)[t].item]
    ensures forall j :: 0 <= j < |scores| ==> Candidate(scores[j], j) in Ranked(scores)
  {
    var cs, r := Candidates(scores), Ranked(scores);
    SortRanks(cs);
    forall t | 0 <= t < |r| ensures r[t] in cs {
      assert r[t] in multiset(r);
    }
    forall j | 0 <= j < |scores| ensures cs[j] in r {
      assert cs[j] in multiset(cs);
    }
  }

  /**
    Choosing picks k distinct items: the k best by score, ties to the lower number, best first.
    Together these clauses leave only one list.
  */
  lemma ChosenAreBest(scores: seq<real>, k: nat)
    requires k <= |scores|
    ensures forall t :: 0 <= t < k ==> Chosen(scores, k)[t] < |scores|
    ensures forall s, t :: 0 <= s < t < k ==> Better(scores, Chosen(scores, k)[s], Chosen(scores, k)[t])
    ensures forall j, t :: 0 <= j < |scores| && j !in Chosen(scores, k) && 0 <= t < k ==>
      Better(scores, Chosen(scores, k)[t], j)
  {
    RankedEntries(scores);
    var r, chosen := Ranked(scores), Chosen(scores, k);
    forall u | 0 <= u < k ensures r[u].item in chosen {
      assert chosen[u] == r[u].item;
    }
    forall j, t | 0 <= j < |scores| && j !in chosen && 0 <= t < k ensures Better(scores, chosen[t], j) {
      var u :| 0 <= u < |r| && r[u] == Candidate(scores[j], j);
      assert Ahead(r[t], r[u]);
    }
  }
}
