/**
 * Ordering transactions by date, as the chart (oldest first) and the history (newest first)
 * do with `Array.prototype.sort` and a comparator on `new Date(date).getTime()`.
 *
 * Dates come from an `<input type="date">`, so they have the ISO 8601 calendar-date form
 * `YYYY-MM-DD`; for such a date the time order is the order of the number YYYYMMDD.
 * The sort of ECMA-262 (section 23.1.3.30) is stable, so the result is determined: records are
 * ordered by date and records on the same date keep their relative order. `SortByDate` is a
 * stable insertion sort, and `StableSortUnique` shows that any sorted, order-keeping
 * rearrangement equals it.
 */
module DateOrder {
  import opened JsNumbers
  import opened Ledger

  /** A calendar date written `YYYY-MM-DD`. */
  predicate IsIsoDate(date: string)
  {
    && |date| == 10
    && date[4] == '-' && date[7] == '-'
    && AllDigits(date[..4]) && AllDigits(date[5..7]) && AllDigits(date[8..])
  }

  /** The date as the number YYYYMMDD; a date of another form ranks as 0. */
  function DateKey(date: string): int
  {
    if IsIsoDate(date) then ParseDigits(date[..4] + date[5..7] + date[8..]) else 0
  }

  /** Comparator `a - b` (oldest first) or `b - a` (newest first). */
  datatype Direction = Ascending | Descending

  /** The key the comparator sorts ascending by. */
  function Rank(t: Transaction, dir: Direction): int
  {
    if dir == Ascending then DateKey(t.date) else -DateKey(t.date)
  }

  predicate Sorted(s: seq<Transaction>, dir: Direction)
  {
    forall i, j :: 0 <= i < j < |s| ==> Rank(s[i], dir) <= Rank(s[j], dir)
  }

  /** The records of rank `k`, in their order in `s`. */
  function WithRank(s: seq<Transaction>, k: int, dir: Direction): seq<Transaction>
  {
    if s == [] then []
    else (if Rank(s[0], dir) == k then [s[0]] else []) + WithRank(s[1..], k, dir)
  }

  /** The filter keeps only records of `s`, and only those of rank `k`. */
  lemma {:induction false} WithRankMember(s: seq<Transaction>, k: int, dir: Direction, x: Transaction)
    requires x in WithRank(s, k, dir)
    ensures x in s && Rank(x, dir) == k
    decreases |s|
  {
    if x != s[0] || Rank(s[0], dir) != k {
      WithRankMember(s[1..], k, dir, x);
    }
  }

  /** Puts `t` in front of the first record whose rank is not below its own. */
  function Insert(t: Transaction, s: seq<Transaction>, dir: Direction): (r: seq<Transaction>)
    ensures multiset(r) == multiset(s) + multiset{t}
  {
    if s == [] then [t]
    else if Rank(t, dir) <= Rank(s[0], dir) then [t] + s
    else
      assert s == [s[0]] + s[1..];
      [s[0]] + Insert(t, s[1..], dir)
  }

  /** A record ranked no higher than every record of a sorted sequence can go in front of it. */
  lemma SortedCons(x: Transaction, r: seq<Transaction>, dir: Direction)
    requires Sorted(r, dir)
    requires forall y :: y in r ==> Rank(x, dir) <= Rank(y, dir)
    ensures Sorted([x] + r, dir)
  {
    var s := [x] + r;
    forall i, j | 0 <= i < j < |s|
      ensures Rank(s[i], dir) <= Rank(s[j], dir)
    {
      assert s[j] == r[j - 1];
      if i > 0 {
        assert s[i] == r[i - 1];
      }
    }
  }

  /** Inserting into a sorted sequence keeps it sorted. */
  lemma {:induction false} InsertSorted(t: Transaction, s: seq<Transaction>, dir: Direction)
    requires Sorted(s, dir)
    ensures Sorted(Insert(t, s, dir), dir)
    decreases |s|
  {
    if s == [] {
    } else if Rank(t, dir) <= Rank(s[0], dir) {
      forall y | y in s
        ensures Rank(t, dir) <= Rank(y, dir)
      {
        SortedHead(s, y, dir);
      }
      SortedCons(t, s, dir);
    } else {
      var rest := Insert(t, s[1..], dir);
      InsertSorted(t, s[1..], dir);
      forall y | y in rest
        ensures Rank(s[0], dir) <= Rank(y, dir)
      {
        assert y in multiset(rest);
        if y != t {
          assert y in multiset(s[1..]);
          assert y in s;
          SortedHead(s, y, dir);
        }
      }
      SortedCons(s[0], rest, dir);
    }
  }

  /** The stable sort of `s` by date in the given direction. */
  function SortByDate(s: seq<Transaction>, dir: Direction): (r: seq<Transaction>)
    ensures |r| == |s|
    ensures multiset(r) == multiset(s)
    ensures Sorted(r, dir)
  {
    if s == [] then []
    else
      assert s == [s[0]] + s[1..];
      var rest := SortByDate(s[1..], dir);
      InsertSorted(s[0], rest, dir);
      var r := Insert(s[0], rest, dir);
      assert |r| == |multiset(r)| == |multiset(s)|;
      r
  }

  /** Oldest first means non-decreasing dates; newest first means non-increasing dates. */
  lemma SortedDates(s: seq<Transaction>, dir: Direction, i: nat, j: nat)
    requires i < j < |s|
    ensures dir == Ascending ==> DateKey(SortByDate(s, dir)[i].date) <= DateKey(SortByDate(s, dir)[j].date)
    ensures dir == Descending ==> DateKey(SortByDate(s, dir)[i].date) >= DateKey(SortByDate(s, dir)[j].date)
  {
    var r := SortByDate(s, dir);
    assert Rank(r[i], dir) <= Rank(r[j], dir);
  }

  /** The rank filter of a sequence with a record in front. */
  lemma WithRankCons(x: Transaction, r: seq<Transaction>, k: int, dir: Direction)
    ensures WithRank([x] + r, k, dir) == (if Rank(x, dir) == k then [x] else []) + WithRank(r, k, dir)
  {
    assert ([x] + r)[1..] == r;
  }

  /** Inserting `t` puts it in front of every record of its own rank. */
  lemma {:induction false} InsertWithRank(t: Transaction, s: seq<Transaction>, k: int, dir: Direction)
    ensures WithRank(Insert(t, s, dir), k, dir)
         == (if Rank(t, dir) == k then [t] else []) + WithRank(s, k, dir)
    decreases |s|
  {
    if s == [] {
    } else if Rank(t, dir) <= Rank(s[0], dir) {
      WithRankCons(t, s, k, dir);
    } else {
      InsertWithRank(t, s[1..], k, dir);
      InsertPast(t, s, dir);
      FilterPastHead(s[0], s[1..], s, Insert(t, s[1..], dir), if Rank(t, dir) == k then [t] else [], k, dir);
    }
  }

  /**
   * The step of `InsertWithRank` where `t` goes past the first record `x`: if the filter of the
   * insertion into the tail is `mine` followed by the tail's filter, the same holds with `x` in
   * front of both.
   */
  lemma FilterPastHead(x: Transaction, tail: seq<Transaction>, s: seq<Transaction>, rest: seq<Transaction>,
                       mine: seq<Transaction>, k: int, dir: Direction)
    requires s != [] && x == s[0] && tail == s[1..]
    requires mine == [] || Rank(x, dir) != k
    requires WithRank(rest, k, dir) == mine + WithRank(tail, k, dir)
    ensures WithRank([x] + rest, k, dir) == mine + WithRank(s, k, dir)
  {
    var head := if Rank(x, dir) == k then [x] else [];
    var w := WithRank(tail, k, dir);
    assert WithRank([x] + rest, k, dir) == head + (mine + w) by {
      WithRankCons(x, rest, k, dir);
    }
    SwapHeads(WithRank([x] + rest, k, dir), head, mine, w, WithRank(s, k, dir));
  }

  /** Once `t` ranks after the first record, the insertion keeps that record in front. */
  lemma InsertPast(t: Transaction, s: seq<Transaction>, dir: Direction)
    requires s != [] && Rank(t, dir) > Rank(s[0], dir)
    ensures Insert(t, s, dir) == [s[0]] + Insert(t, s[1..], dir)
  {
  }

  /** Two prefixes commute in front of a sequence when one of them is empty. */
  lemma SwapHeads(a: seq<Transaction>, head: seq<Transaction>, mine: seq<Transaction>, w: seq<Transaction>,
                  b: seq<Transaction>)
    requires head == [] || mine == []
    requires a == head + (mine + w) && b == head + w
    ensures a == mine + b
  {
    if head == [] {
      assert a == mine + w;
    } else {
      assert a == head + w;
    }
  }

  /** Sorting keeps the relative order of the records that share a date. */
  lemma {:induction false} SortStable(s: seq<Transaction>, k: int, dir: Direction)
    ensures WithRank(SortByDate(s, dir), k, dir) == WithRank(s, k, dir)
    decreases |s|
  {
    if s != [] {
      SortStable(s[1..], k, dir);
      InsertWithRank(s[0], SortByDate(s[1..], dir), k, dir);
    }
  }

  /** A record of `s` has at least the rank of the first record of a sorted `s`. */
  lemma SortedHead(s: seq<Transaction>, x: Transaction, dir: Direction)
    requires Sorted(s, dir) && x in s
    ensures Rank(s[0], dir) <= Rank(x, dir)
  {
    var j :| 0 <= j < |s| && s[j] == x;
  }

  /** Dropping the first record of a sorted sequence, seen through the rank filters. */
  lemma WithRankTail(s: seq<Transaction>, k: int, dir: Direction)
    requires s != []
    ensures Rank(s[0], dir) == k ==> WithRank(s[1..], k, dir) == WithRank(s, k, dir)[1..]
    ensures Rank(s[0], dir) != k ==> WithRank(s[1..], k, dir) == WithRank(s, k, dir)
  {
  }

  /** The first record of a non-empty sequence shows up among the records of its rank. */
  lemma WithRankHead(s: seq<Transaction>, dir: Direction)
    requires s != []
    ensures var f := WithRank(s, Rank(s[0], dir), dir); f != [] && f[0] == s[0]
  {
  }

  /**
   * When the records of `r1[0]`'s rank are the same in both sequences, the sorted `r2` starts
   * with a record ranked no higher than `r1[0]`.
   */
  lemma HeadRankAtMost(r1: seq<Transaction>, r2: seq<Transaction>, dir: Direction)
    requires r1 != [] && Sorted(r2, dir)
    requires WithRank(r1, Rank(r1[0], dir), dir) == WithRank(r2, Rank(r1[0], dir), dir)
    ensures r2 != [] && Rank(r2[0], dir) <= Rank(r1[0], dir)
  {
    WithRankHead(r1, dir);
    var f := WithRank(r2, Rank(r1[0], dir), dir);
    WithRankMember(r2, Rank(r1[0], dir), dir, f[0]);
    SortedHead(r2, f[0], dir);
  }

  /** Two sorted sequences whose records of every rank agree, in order, are equal. */
  lemma {:induction false} SortedFiltersDetermine(r1: seq<Transaction>, r2: seq<Transaction>, dir: Direction)
    requires Sorted(r1, dir) && Sorted(r2, dir)
    requires forall k :: WithRank(r1, k, dir) == WithRank(r2, k, dir)
    ensures r1 == r2
    decreases |r1| + |r2|
  {
    if r1 == [] && r2 == [] {
    } else if r1 == [] || r2 == [] {
      WithRankHead(if r1 == [] then r2 else r1, dir);
      assert false;
    } else {
      HeadRankAtMost(r1, r2, dir);
      HeadRankAtMost(r2, r1, dir);
      WithRankHead(r1, dir);
      WithRankHead(r2, dir);
      assert r1[0] == r2[0];
      forall k
        ensures WithRank(r1[1..], k, dir) == WithRank(r2[1..], k, dir)
      {
        WithRankTail(r1, k, dir);
        WithRankTail(r2, k, dir);
      }
      SortedFiltersDetermine(r1[1..], r2[1..], dir);
      assert r1 == [r1[0]] + r1[1..];
      assert r2 == [r2[0]] + r2[1..];
    }
  }

  /**
   * `SortByDate` is the only sorted rearrangement that keeps the order of same-date records:
   * whatever stable sort the engine runs, its result is `SortByDate`.
   */
  lemma StableSortUnique(s: seq<Transaction>, r: seq<Transaction>, dir: Direction)
    requires Sorted(r, dir)
    requires forall k :: WithRank(r, k, dir) == WithRank(s, k, dir)
    ensures r == SortByDate(s, dir)
  {
    forall k
      ensures WithRank(r, k, dir) == WithRank(SortByDate(s, dir), k, dir)
    {
      SortStable(s, k, dir);
    }
    SortedFiltersDetermine(r, SortByDate(s, dir), dir);
  }

  /** Sorting an already sorted list changes nothing. */
  lemma SortIdempotent(s: seq<Transaction>, dir: Direction)
    ensures SortByDate(SortByDate(s, dir), dir) == SortByDate(s, dir)
  {
    var r := SortByDate(s, dir);
    StableSortUnique(r, r, dir);
  }
}
