/** `ORDER BY <timestamp> DESC OFFSET skip LIMIT limit`, the tail shared by the three list reads
    (the stock ledger, the purchase-request list and the audit-log list). */
module Queries {

  /** Ordered newest first: timestamps never increase along the sequence. Rows with equal
      timestamps may come in any order, as in SQL. */
  predicate NewestFirst<T>(s: seq<T>, stamp: T -> int)
  {
    forall i, j :: 0 <= i < j < |s| ==> stamp(s[i]) >= stamp(s[j])
  }

  /** Places x in front of the first row that is strictly older than x. */
  function InsertByTime<T>(x: T, s: seq<T>, stamp: T -> int): (r: seq<T>)
    requires NewestFirst(s, stamp)
    ensures NewestFirst(r, stamp)
    ensures multiset(r) == multiset(s) + multiset{x}
  {
    if s == [] || stamp(x) >= stamp(s[0]) then
      PrependKeepsNewestFirst(x, s, stamp);
      [x] + s
    else
      var rest := InsertByTime(x, s[1..], stamp);
      assert s == [s[0]] + s[1..];
      HeadBoundsInsertion(s[0], s[1..], x, rest, stamp);
      PrependKeepsNewestFirst(s[0], rest, stamp);
      [s[0]] + rest
  }

  /** A row at least as new as the head of a newest-first sequence can go in front of it. */
  lemma PrependKeepsNewestFirst<T>(h: T, s: seq<T>, stamp: T -> int)
    requires NewestFirst(s, stamp)
    requires s != [] ==> stamp(h) >= stamp(s[0])
    ensures NewestFirst([h] + s, stamp)
  {
    var t := [h] + s;
    forall i, j | 0 <= i < j < |t| ensures stamp(t[i]) >= stamp(t[j]) {
      assert t[j] == s[j - 1];
      if i > 0 {
        assert t[i] == s[i - 1];
      }
    }
  }

  /** A row at least as new as every row of `tail` and as x is at least as new as every row of
      any rearrangement of `tail` with x added. */
  lemma HeadBoundsInsertion<T>(h: T, tail: seq<T>, x: T, rest: seq<T>, stamp: T -> int)
    requires forall j :: 0 <= j < |tail| ==> stamp(h) >= stamp(tail[j])
    requires stamp(h) >= stamp(x)
    requires multiset(rest) == multiset(tail) + multiset{x}
    ensures forall j :: 0 <= j < |rest| ==> stamp(h) >= stamp(rest[j])
  {
    forall j | 0 <= j < |rest| ensures stamp(h) >= stamp(rest[j]) {
      var y := rest[j];
      assert y in multiset(rest);
      if y != x {
        assert y in multiset(tail);
        assert y in tail;
        var k :| 0 <= k < |tail| && tail[k] == y;
      }
    }
  }

  /** The rows of s, newest first. */
  function SortNewestFirst<T>(s: seq<T>, stamp: T -> int): (r: seq<T>)
    ensures NewestFirst(r, stamp)
    ensures multiset(r) == multiset(s)
  {
    if s == [] then []
    else
      assert s == [s[0]] + s[1..];
      InsertByTime(s[0], SortNewestFirst(s[1..], stamp), stamp)
  }

  function Min(a: int, b: int): int
  {
    if a <= b then a else b
  }

  /** `OFFSET skip LIMIT limit`: at most `limit` rows, starting at position `skip`. */
  function Page<T>(s: seq<T>, skip: nat, limit: nat): (r: seq<T>)
    ensures |r| == if skip >= |s| then 0 else Min(limit, |s| - skip)
    ensures forall i :: 0 <= i < |r| ==> skip + i < |s| && r[i] == s[skip + i]
  {
    if skip >= |s| then [] else s[skip..skip + Min(limit, |s| - skip)]
  }

  /** One page of the rows of s, newest first: the rows at positions skip.. of some newest-first
      arrangement of s, as many as `OFFSET skip LIMIT limit` leaves. */
  function NewestPage<T(!new)>(s: seq<T>, stamp: T -> int, skip: nat, limit: nat): (r: seq<T>)
    ensures NewestFirst(r, stamp)
    ensures |r| == if skip >= |s| then 0 else Min(limit, |s| - skip)
    ensures forall x :: x in r ==> x in s
    ensures skip == 0 && |s| <= limit ==> forall x :: x in s ==> x in r
    ensures exists t :: NewestFirst(t, stamp) && multiset(t) == multiset(s) && r == Page(t, skip, limit)
  {
    var sorted := SortNewestFirst(s, stamp);
    PageOfSorted(s, sorted, stamp, skip, limit);
    Page(sorted, skip, limit)
  }

  lemma PageOfSorted<T>(s: seq<T>, sorted: seq<T>, stamp: T -> int, skip: nat, limit: nat)
    requires NewestFirst(sorted, stamp) && multiset(sorted) == multiset(s)
    ensures |sorted| == |s|
    ensures NewestFirst(Page(sorted, skip, limit), stamp)
    ensures forall x :: x in Page(sorted, skip, limit) ==> x in s
    ensures skip == 0 && |s| <= limit ==> forall x :: x in s ==> x in Page(sorted, skip, limit)
  {
    var r := Page(sorted, skip, limit);
    assert |sorted| == |s| by {
      assert |multiset(sorted)| == |multiset(s)|;
    }
    forall x | x in r ensures x in s {
      var i :| 0 <= i < |r| && r[i] == x;
      assert sorted[skip + i] == x;
      assert x in multiset(sorted);
    }
    if skip == 0 && |s| <= limit {
      assert r == sorted;
      forall x | x in s ensures x in r {
        assert x in multiset(s);
      }
    }
  }

  /** A row left off the first page is no newer than any row on it: the first page holds the
      newest rows. */
  lemma FirstPageHoldsNewest<T(!new)>(s: seq<T>, stamp: T -> int, limit: nat, x: T, y: T)
    requires x in NewestPage(s, stamp, 0, limit)
    requires y in s && y !in NewestPage(s, stamp, 0, limit)
    ensures stamp(x) >= stamp(y)
  {
    var sorted := SortNewestFirst(s, stamp);
    var r := Page(sorted, 0, limit);
    var i :| 0 <= i < |r| && r[i] == x;
    assert y in multiset(sorted);
    var k :| 0 <= k < |sorted| && sorted[k] == y;
    assert k >= |r|;
    assert sorted[i] == x;
  }

  /** Rows on a page are no older than rows on the pages after it. */
  lemma LaterPagesAreOlder<T(!new)>(s: seq<T>, stamp: T -> int, skip: nat, n: nat, m: nat, x: T, y: T)
    requires x in NewestPage(s, stamp, skip, n)
    requires y in NewestPage(s, stamp, skip + n, m)
    ensures stamp(x) >= stamp(y)
  {
    var sorted := SortNewestFirst(s, stamp);
    var p, q := Page(sorted, skip, n), Page(sorted, skip + n, m);
    var i :| 0 <= i < |p| && p[i] == x;
    var j :| 0 <= j < |q| && q[j] == y;
    assert sorted[skip + i] == x && sorted[skip + n + j] == y;
  }

  /** Two consecutive pages make up the page that spans both. */
  lemma PagesConcatenate<T>(s: seq<T>, skip: nat, n: nat, m: nat)
    ensures Page(s, skip, n) + Page(s, skip + n, m) == Page(s, skip, n + m)
  {
  }

  /** Consecutive pages of a sequence without repeated rows share no row. */
  lemma {:induction false} PagesDisjoint<T>(s: seq<T>, skip: nat, n: nat, m: nat, x: T)
    requires forall i, j :: 0 <= i < j < |s| ==> s[i] != s[j]
    requires x in Page(s, skip, n)
    ensures x !in Page(s, skip + n, m)
  {
    var p, q := Page(s, skip, n), Page(s, skip + n, m);
    var i :| 0 <= i < |p| && p[i] == x;
    forall j | 0 <= j < |q| ensures q[j] != x {
      assert q[j] == s[skip + n + j] && x == s[skip + i];
    }
  }

  /** No row occurs twice. */
  ghost predicate Distinct<T>(s: seq<T>)
  {
    forall i, j :: 0 <= i < j < |s| ==> s[i] != s[j]
  }

  /** A sequence has no repeated row exactly when no row occurs more than once in its multiset. */
  lemma {:induction false} DistinctIffSingleOccurrences<T>(s: seq<T>)
    ensures Distinct(s) <==> forall x :: multiset(s)[x] <= 1
  {
    if s != [] {
      DistinctIffSingleOccurrences(s[1..]);
      assert s == [s[0]] + s[1..];
      if Distinct(s) {
        assert s[0] !in s[1..];
      }
      if forall x :: multiset(s)[x] <= 1 {
        assert multiset(s) == multiset{s[0]} + multiset(s[1..]);
        assert forall x :: multiset(s[1..])[x] <= multiset(s)[x];
        assert Distinct(s[1..]);
        forall i, j | 0 <= i < j < |s| ensures s[i] != s[j] {
          if i == 0 {
            assert s[j] == s[1..][j - 1];
            assert s[j] in multiset(s[1..]);
          } else {
            assert s[i] == s[1..][i - 1] && s[j] == s[1..][j - 1];
          }
        }
      }
    }
  }

  /** No two different rows share a timestamp, so the newest-first order has no ties to break. */
  ghost predicate TimesIdentify<T>(s: seq<T>, stamp: T -> int)
  {
    forall x, y :: x in s && y in s && stamp(x) == stamp(y) ==> x == y
  }

  /** Without timestamp ties there is only one newest-first arrangement of a collection of rows. */
  lemma {:induction false} NewestFirstUnique<T>(t1: seq<T>, t2: seq<T>, stamp: T -> int)
    requires NewestFirst(t1, stamp) && NewestFirst(t2, stamp)
    requires multiset(t1) == multiset(t2)
    requires TimesIdentify(t1, stamp)
    ensures t1 == t2
  {
    if t1 != [] {
      assert t1[0] in multiset(t2);
      SameNewest(t1, t2, stamp);
      SameRest(t1, t2);
      TailKeepsOrder(t1, stamp);
      TailKeepsOrder(t2, stamp);
      NewestFirstUnique(t1[1..], t2[1..], stamp);
      SameHeadAndTail(t1, t2);
    }
  }

  /** Sequences that agree on their first element and on the rest are equal. */
  lemma SameHeadAndTail<T>(t1: seq<T>, t2: seq<T>)
    requires t1 != [] && t2 != [] && t1[0] == t2[0] && t1[1..] == t2[1..]
    ensures t1 == t2
  {
    assert t1 == [t1[0]] + t1[1..] && t2 == [t2[0]] + t2[1..];
  }

  /** Dropping the newest row keeps the rest newest-first, and keeps it free of ties. */
  lemma TailKeepsOrder<T>(t: seq<T>, stamp: T -> int)
    requires t != [] && NewestFirst(t, stamp)
    ensures NewestFirst(t[1..], stamp)
    ensures TimesIdentify(t, stamp) ==> TimesIdentify(t[1..], stamp)
  {
    var r := t[1..];
    forall i, j | 0 <= i < j < |r| ensures stamp(r[i]) >= stamp(r[j]) {
      assert r[i] == t[i + 1] && r[j] == t[j + 1];
    }
    assert forall x :: x in r ==> x in t;
  }

  /** Two newest-first arrangements of the same rows, without ties, start with the same row. */
  lemma SameNewest<T>(t1: seq<T>, t2: seq<T>, stamp: T -> int)
    requires t1 != [] && t2 != []
    requires NewestFirst(t1, stamp) && NewestFirst(t2, stamp)
    requires multiset(t1) == multiset(t2)
    requires TimesIdentify(t1, stamp)
    ensures t1[0] == t2[0]
  {
    assert t1[0] in multiset(t2);
    assert t2[0] in multiset(t1);
    var j :| 0 <= j < |t1| && t1[j] == t2[0];
    var k :| 0 <= k < |t2| && t2[k] == t1[0];
    assert stamp(t1[0]) >= stamp(t1[j]) >= stamp(t2[k]);
  }

  /** Taking the same first row off two sequences with equal multisets leaves equal multisets. */
  lemma SameRest<T>(t1: seq<T>, t2: seq<T>)
    requires t1 != [] && t2 != [] && t1[0] == t2[0]
    requires multiset(t1) == multiset(t2)
    ensures multiset(t1[1..]) == multiset(t2[1..])
  {
    assert t1 == [t1[0]] + t1[1..] && t2 == [t2[0]] + t2[1..];
    assert multiset(t1) == multiset{t1[0]} + multiset(t1[1..]);
    assert multiset(t2) == multiset{t1[0]} + multiset(t2[1..]);
    forall z ensures multiset(t1[1..])[z] == multiset(t2[1..])[z] {
      assert multiset(t1)[z] == multiset{t1[0]}[z] + multiset(t1[1..])[z];
      assert multiset(t2)[z] == multiset{t1[0]}[z] + multiset(t2[1..])[z];
    }
  }

  /** Two separate queries for consecutive pages share no row, whichever newest-first arrangement
      each one reads, as long as no two rows share a timestamp and no row repeats. */
  lemma NewestPagesDisjoint<T>(s: seq<T>, stamp: T -> int, t1: seq<T>, t2: seq<T>, skip: nat, n: nat, m: nat, x: T)
    requires Distinct(s) && TimesIdentify(s, stamp)
    requires NewestFirst(t1, stamp) && multiset(t1) == multiset(s)
    requires NewestFirst(t2, stamp) && multiset(t2) == multiset(s)
    requires x in Page(t1, skip, n)
    ensures x !in Page(t2, skip + n, m)
  {
    forall y | y in t1 ensures y in s {
      assert y in multiset(t1);
    }
    NewestFirstUnique(t1, t2, stamp);
    DistinctIffSingleOccurrences(s);
    DistinctIffSingleOccurrences(t1);
    PagesDisjoint(t1, skip, n, m, x);
  }
}
