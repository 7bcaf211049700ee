/** The two sorts of the width-positioning pass: events ranked by a number
    (their duration, or their conflict count), highest first, with ties broken
    by ascending identifier. The array sort the page calls is stable; it is
    modelled here as a stable insertion sort. */
module Ranking {
  import opened PlannerTypes

  /** An event paired with the number it is sorted by. */
  datatype Ranked = Ranked(event: AgendaEvent, rank: int)

  /** `x` goes strictly before `y`: a higher rank, or an equal rank and a
      smaller identifier. This is the comparator returning a negative number. */
  predicate RankBefore(x: Ranked, y: Ranked)
  {
    x.rank > y.rank || (x.rank == y.rank && IdLess(x.event.id, y.event.id))
  }

  /** No element is strictly before one that precedes it. */
  ghost predicate SortedByRank(s: seq<Ranked>)
  {
    forall i, j :: 0 <= i < j < |s| ==> !RankBefore(s[j], s[i])
  }

  lemma RankBeforeAsymmetric(x: Ranked, y: Ranked)
    requires RankBefore(x, y)
    ensures !RankBefore(y, x)
  {
    if x.rank == y.rank {
      IdLessAsymmetric(x.event.id, y.event.id);
    }
  }

  /** "Not before" is transitive, which makes RankBefore a strict weak order. */
  lemma NotBeforeTransitive(x: Ranked, y: Ranked, z: Ranked)
    requires !RankBefore(y, x) && !RankBefore(z, y)
    ensures !RankBefore(z, x)
  {
    if x.rank == y.rank == z.rank {
      var a, b, c := x.event.id, y.event.id, z.event.id;
      if IdLess(c, a) {
        if a != b { IdLessTotal(a, b); }
        if b != c { IdLessTotal(b, c); }
        if a != b && b != c {
          IdLessTransitive(a, b, c);
          IdLessAsymmetric(a, c);
        } else if a != b {
          IdLessAsymmetric(a, c);
        } else if b != c {
          IdLessAsymmetric(b, c);
        } else {
          IdLessIrreflexive(a);
        }
      }
    }
  }

  /** Places `x` in front of the first element it is not after. */
  function Insert(x: Ranked, s: seq<Ranked>): (r: seq<Ranked>)
    ensures multiset(r) == multiset(s) + multiset{x}
  {
    if s == [] then [x]
    else if RankBefore(s[0], x) then
      assert s == [s[0]] + s[1..];
      [s[0]] + Insert(x, s[1..])
    else [x] + s
  }

  /** The stable sort of the page: rank descending, identifier ascending. */
  function SortByRank(s: seq<Ranked>): (r: seq<Ranked>)
    ensures multiset(r) == multiset(s)
    ensures |r| == |s|
  {
    if s == [] then []
    else
      assert s == [s[0]] + s[1..];
      Insert(s[0], SortByRank(s[1..]))
  }

  /** Inserting an element no smaller than `y` into a list of such elements
      keeps every element of the result not before `y`. */
  lemma InsertKeepsBound(y: Ranked, x: Ranked, t: seq<Ranked>)
    requires !RankBefore(x, y)
    requires forall k :: 0 <= k < |t| ==> !RankBefore(t[k], y)
    ensures forall k :: 0 <= k < |Insert(x, t)| ==> !RankBefore(Insert(x, t)[k], y)
  {
    var rt := Insert(x, t);
    forall k | 0 <= k < |rt|
      ensures !RankBefore(rt[k], y)
    {
      var e := rt[k];
      assert e in multiset(rt);
      if e != x {
        assert e in multiset(t);
        assert e in t;
      }
    }
  }

  lemma {:induction false} InsertSorted(x: Ranked, s: seq<Ranked>)
    requires SortedByRank(s)
    ensures SortedByRank(Insert(x, s))
  {
    if s == [] {
    } else if RankBefore(s[0], x) {
      var t := s[1..];
      assert SortedByRank(t);
      InsertSorted(x, t);
      RankBeforeAsymmetric(s[0], x);
      assert forall k :: 0 <= k < |t| ==> t[k] == s[k + 1];
      InsertKeepsBound(s[0], x, t);
      var r := Insert(x, s);
      var rt := Insert(x, t);
      assert r == [s[0]] + rt;
      forall i, j | 0 <= i < j < |r|
        ensures !RankBefore(r[j], r[i])
      {
        assert r[j] == rt[j - 1];
        if i > 0 { assert r[i] == rt[i - 1]; }
      }
    } else {
      var r := [x] + s;
      forall j | 0 < j < |r|
        ensures !RankBefore(r[j], x)
      {
        if j > 1 {
          NotBeforeTransitive(x, s[0], s[j - 1]);
        }
      }
    }
  }

  /** The sort returns its input in rank order: a permutation (ensured by
      SortByRank) that no later element precedes an earlier one in. */
  lemma {:induction false} SortByRankSorted(s: seq<Ranked>)
    ensures SortedByRank(SortByRank(s))
  {
    if s != [] {
      SortByRankSorted(s[1..]);
      InsertSorted(s[0], SortByRank(s[1..]));
    }
  }

  /** A list no element of which goes strictly before its predecessor is
      returned unchanged by the sort. */
  lemma {:induction false} SortByRankKeepsOrdered(s: seq<Ranked>)
    requires forall i :: 0 < i < |s| ==> !RankBefore(s[i], s[i - 1])
    ensures SortByRank(s) == s
  {
    if s != [] {
      var t := s[1..];
      assert forall i :: 0 < i < |t| ==> t[i] == s[i + 1] && t[i - 1] == s[i];
      SortByRankKeepsOrdered(t);
      assert s == [s[0]] + t;
    }
  }

  /** Sorting twice is sorting once. */
  lemma SortByRankIdempotent(s: seq<Ranked>)
    ensures SortByRank(SortByRank(s)) == SortByRank(s)
  {
    SortByRankSorted(s);
    SortByRankKeepsOrdered(SortByRank(s));
  }

  /** With distinct identifiers the order is strict: rank descending, and
      identifier ascending within a rank. */
  lemma SortByRankStrict(s: seq<Ranked>, i: int, j: int)
    requires DistinctIds(s)
    requires 0 <= i < j < |SortByRank(s)|
    ensures SortByRank(s)[i].rank >= SortByRank(s)[j].rank
    ensures SortByRank(s)[i].rank == SortByRank(s)[j].rank ==>
              IdLess(SortByRank(s)[i].event.id, SortByRank(s)[j].event.id)
  {
    var r := SortByRank(s);
    SortByRankSorted(s);
    assert !RankBefore(r[j], r[i]);
    PermutationKeepsDistinctIds(s, r);
    assert r[i].event.id != r[j].event.id;
    if r[i].rank == r[j].rank {
      IdLessTotal(r[i].event.id, r[j].event.id);
    }
  }

  ghost predicate DistinctIds(s: seq<Ranked>)
  {
    forall a, b :: 0 <= a < b < |s| ==> s[a].event.id != s[b].event.id
  }

  lemma {:induction false} PermutationKeepsDistinctIds(s: seq<Ranked>, r: seq<Ranked>)
    requires DistinctIds(s)
    requires multiset(r) == multiset(s)
    ensures DistinctIds(r)
  {
    forall a, b | 0 <= a < b < |r|
      ensures r[a].event.id != r[b].event.id
    {
      assert r == r[..b] + [r[b]] + r[b + 1..];
      assert r[..b][a] == r[a];
      assert multiset(r)[r[a]] >= 1 + (if r[a] == r[b] then 1 else 0);
      DistinctIdsOccurOnce(s, r[a]);
      assert r[a] in multiset(s) && r[b] in multiset(s);
      var a' :| 0 <= a' < |s| && s[a'] == r[a];
      var b' :| 0 <= b' < |s| && s[b'] == r[b];
      assert a' != b';
      if a' < b' {
        assert s[a'].event.id != s[b'].event.id;
      } else {
        assert s[b'].event.id != s[a'].event.id;
      }
    }
  }

  lemma {:induction false} DistinctIdsOccurOnce(s: seq<Ranked>, y: Ranked)
    requires DistinctIds(s)
    ensures multiset(s)[y] <= 1
  {
    if s != [] {
      var t := s[1..];
      assert s == [s[0]] + t;
      assert DistinctIds(t) by {
        forall a, b | 0 <= a < b < |t|
          ensures t[a].event.id != t[b].event.id
        {
          assert t[a] == s[a + 1] && t[b] == s[b + 1];
        }
      }
      DistinctIdsOccurOnce(t, y);
      forall k | 0 <= k < |t|
        ensures t[k] != s[0]
      {
        assert t[k] == s[k + 1];
        assert s[0].event.id != s[k + 1].event.id;
      }
      assert s[0] !in t;
    }
  }
}
