/**
 * `Array.prototype.sort` with a comparator that subtracts two ranks, as the
 * flag page orders its environments. ECMAScript 2019 requires the sort to be
 * stable, so it is modelled as insertion sort that puts each element after
 * every element of rank at most its own.
 */
module StableSort {

  /** Ranks never decrease along `s`. */
  predicate SortedBy<T>(s: seq<T>, rank: T -> nat) {
    forall i, j :: 0 <= i < j < |s| ==> rank(s[i]) <= rank(s[j])
  }

  /** The elements of rank `k`, in order. */
  function OfRank<T>(s: seq<T>, rank: T -> nat, k: nat): (t: seq<T>)
  {
    if s == [] then []
    else OfRank(s[..|s| - 1], rank, k) + (if rank(s[|s| - 1]) == k then [s[|s| - 1]] else [])
  }

  /** Puts `x` after every element of `t` whose rank is at most its own. */
  function Insert<T>(t: seq<T>, x: T, rank: T -> nat): (r: seq<T>)
  {
    if t == [] || rank(t[|t| - 1]) <= rank(x) then t + [x]
    else Insert(t[..|t| - 1], x, rank) + [t[|t| - 1]]
  }

  function SortBy<T>(s: seq<T>, rank: T -> nat): (r: seq<T>)
  {
    if s == [] then [] else Insert(SortBy(s[..|s| - 1], rank), s[|s| - 1], rank)
  }

  lemma {:induction false} InsertPermutes<T>(t: seq<T>, x: T, rank: T -> nat)
    ensures multiset(Insert(t, x, rank)) == multiset(t) + multiset{x}
  {
    if !(t == [] || rank(t[|t| - 1]) <= rank(x)) {
      InsertPermutes(t[..|t| - 1], x, rank);
      assert t == t[..|t| - 1] + [t[|t| - 1]];
    }
  }

  /** Every rank in `t` is at most `b`. */
  predicate RanksAtMost<T>(t: seq<T>, rank: T -> nat, b: nat) {
    forall i :: 0 <= i < |t| ==> rank(t[i]) <= b
  }

  lemma {:induction false} InsertBounded<T>(t: seq<T>, x: T, rank: T -> nat, b: nat)
    requires RanksAtMost(t, rank, b) && rank(x) <= b
    ensures RanksAtMost(Insert(t, x, rank), rank, b)
  {
    if !(t == [] || rank(t[|t| - 1]) <= rank(x)) {
      InsertBounded(t[..|t| - 1], x, rank, b);
    }
  }

  lemma {:induction false} InsertSorted<T>(t: seq<T>, x: T, rank: T -> nat)
    requires SortedBy(t, rank)
    ensures SortedBy(Insert(t, x, rank), rank)
  {
    if !(t == [] || rank(t[|t| - 1]) <= rank(x)) {
      var init, last := t[..|t| - 1], t[|t| - 1];
      InsertSorted(init, x, rank);
      InsertBounded(init, x, rank, rank(last));
      assert Insert(t, x, rank) == Insert(init, x, rank) + [last];
    }
  }

  /** Sorting only reorders: every element is kept, with its multiplicity. */
  lemma {:induction false} SortPermutes<T>(s: seq<T>, rank: T -> nat)
    ensures multiset(SortBy(s, rank)) == multiset(s)
  {
    if s != [] {
      SortPermutes(s[..|s| - 1], rank);
      InsertPermutes(SortBy(s[..|s| - 1], rank), s[|s| - 1], rank);
      assert s == s[..|s| - 1] + [s[|s| - 1]];
    }
  }

  /** The sorted sequence never decreases in rank. */
  lemma {:induction false} SortSorted<T>(s: seq<T>, rank: T -> nat)
    ensures SortedBy(SortBy(s, rank), rank)
  {
    if s != [] {
      SortSorted(s[..|s| - 1], rank);
      InsertSorted(SortBy(s[..|s| - 1], rank), s[|s| - 1], rank);
    }
  }

  lemma {:induction false} OfRankAppend<T>(a: seq<T>, b: seq<T>, rank: T -> nat, k: nat)
    ensures OfRank(a + b, rank, k) == OfRank(a, rank, k) + OfRank(b, rank, k)
    decreases |b|
  {
    if b != [] {
      assert (a + b)[..|a + b| - 1] == a + b[..|b| - 1];
      OfRankAppend(a, b[..|b| - 1], rank, k);
    } else {
      assert a + b == a;
    }
  }

  lemma OfRankSingle<T>(x: T, rank: T -> nat, k: nat)
    ensures OfRank([x], rank, k) == (if rank(x) == k then [x] else [])
  {
    assert [x][..0] == [];
  }

  /** Inserting adds `x` at the end of its own rank and leaves every rank's order alone. */
  lemma {:induction false} InsertStable<T>(t: seq<T>, x: T, rank: T -> nat, k: nat)
    ensures OfRank(Insert(t, x, rank), rank, k) == OfRank(t, rank, k) + OfRank([x], rank, k)
  {
    if t == [] || rank(t[|t| - 1]) <= rank(x) {
      OfRankAppend(t, [x], rank, k);
    } else {
      var init, last := t[..|t| - 1], t[|t| - 1];
      InsertStable(init, x, rank, k);
      assert t == init + [last];
      PassHigher(Insert(init, x, rank), init, x, last, rank, k);
    }
  }

  /** Moving `x` in front of an element of higher rank changes no rank's order. */
  lemma PassHigher<T>(r: seq<T>, init: seq<T>, x: T, last: T, rank: T -> nat, k: nat)
    requires rank(x) < rank(last)
    requires OfRank(r, rank, k) == OfRank(init, rank, k) + OfRank([x], rank, k)
    ensures OfRank(r + [last], rank, k) == OfRank(init + [last], rank, k) + OfRank([x], rank, k)
  {
    OfRankAppend(r, [last], rank, k);
    OfRankAppend(init, [last], rank, k);
    OfRankSingle(x, rank, k);
    OfRankSingle(last, rank, k);
    // At most one of `x` and `last` has rank `k`.
    if rank(x) == k {
      assert OfRank([last], rank, k) == [];
      assert OfRank(r + [last], rank, k) == OfRank(r, rank, k);
      assert OfRank(init + [last], rank, k) == OfRank(init, rank, k);
    } else {
      assert OfRank([x], rank, k) == [];
      assert OfRank(r, rank, k) == OfRank(init, rank, k);
    }
  }

  /**
   * The sort is stable: the elements of each rank come out in the order
   * they went in.
   */
  lemma {:induction false} SortStable<T>(s: seq<T>, rank: T -> nat, k: nat)
    ensures OfRank(SortBy(s, rank), rank, k) == OfRank(s, rank, k)
  {
    if s != [] {
      SortStable(s[..|s| - 1], rank, k);
      InsertStable(SortBy(s[..|s| - 1], rank), s[|s| - 1], rank, k);
    }
  }
}
