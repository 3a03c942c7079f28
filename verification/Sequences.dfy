/** Filtering, summing and stable sorting of sequences, with the laws the other modules use. */
module Sequences {

  function Filter<T>(s: seq<T>, keep: T -> bool): seq<T> {
    if s == [] then []
    else if keep(s[0]) then [s[0]] + Filter(s[1..], keep)
    else Filter(s[1..], keep)
  }

  lemma {:induction false} FilterMembers<T(!new)>(s: seq<T>, keep: T -> bool)
    ensures |Filter(s, keep)| <= |s|
    ensures forall x :: x in Filter(s, keep) <==> x in s && keep(x)
  {
    if s != [] {
      FilterMembers(s[1..], keep);
      assert s == [s[0]] + s[1..];
    }
  }

  lemma {:induction false} FilterCons<T>(x: T, s: seq<T>, keep: T -> bool)
    ensures Filter([x] + s, keep) == if keep(x) then [x] + Filter(s, keep) else Filter(s, keep)
  {
    assert ([x] + s)[1..] == s;
  }

  function Map<T, U>(s: seq<T>, f: T -> U): seq<U> {
    seq(|s|, i requires 0 <= i < |s| => f(s[i]))
  }

  function Sum<T>(s: seq<T>, f: T -> int): int {
    if s == [] then 0 else f(s[0]) + Sum(s[1..], f)
  }

  /** Sum of `f` over the elements that pass `keep`. */
  function SumWhere<T>(s: seq<T>, keep: T -> bool, f: T -> int): int {
    if s == [] then 0 else (if keep(s[0]) then f(s[0]) else 0) + SumWhere(s[1..], keep, f)
  }

  /** Number of elements that pass `keep`. */
  function Count<T>(s: seq<T>, keep: T -> bool): nat {
    if s == [] then 0 else (if keep(s[0]) then 1 else 0) + Count(s[1..], keep)
  }

  ghost predicate Distinct<T>(s: seq<T>) {
    forall i, j :: 0 <= i < j < |s| ==> s[i] != s[j]
  }

  lemma {:induction false} FilterAppend<T>(a: seq<T>, b: seq<T>, keep: T -> bool)
    ensures Filter(a + b, keep) == Filter(a, keep) + Filter(b, keep)
  {
    if a == [] {
      assert a + b == b;
    } else {
      assert (a + b)[1..] == a[1..] + b;
      FilterAppend(a[1..], b, keep);
      if keep(a[0]) {
        assert [a[0]] + Filter(a[1..], keep) + Filter(b, keep) == [a[0]] + (Filter(a[1..], keep) + Filter(b, keep));
      }
    }
  }

  lemma {:induction false} CountAppend<T>(a: seq<T>, b: seq<T>, keep: T -> bool)
    ensures Count(a + b, keep) == Count(a, keep) + Count(b, keep)
  {
    if a == [] {
      assert a + b == b;
    } else {
      assert (a + b)[1..] == a[1..] + b;
      CountAppend(a[1..], b, keep);
    }
  }

  lemma {:induction false} SumAppend<T>(a: seq<T>, b: seq<T>, f: T -> int)
    ensures Sum(a + b, f) == Sum(a, f) + Sum(b, f)
  {
    if a == [] {
      assert a + b == b;
    } else {
      assert (a + b)[1..] == a[1..] + b;
      SumAppend(a[1..], b, f);
    }
  }

  lemma {:induction false} SumPrefix<T>(s: seq<T>, n: nat, f: T -> int)
    requires n < |s|
    ensures Sum(s[..n + 1], f) == Sum(s[..n], f) + f(s[n])
  {
    PrefixSnoc(s, n);
    SumAppend(s[..n], [s[n]], f);
  }

  lemma {:induction false} SumWhereAppend<T>(a: seq<T>, b: seq<T>, keep: T -> bool, f: T -> int)
    ensures SumWhere(a + b, keep, f) == SumWhere(a, keep, f) + SumWhere(b, keep, f)
  {
    if a == [] {
      assert a + b == b;
    } else {
      assert (a + b)[1..] == a[1..] + b;
      SumWhereAppend(a[1..], b, keep, f);
    }
  }

  lemma {:induction false} CountIsFilterLength<T>(s: seq<T>, keep: T -> bool)
    ensures Count(s, keep) == |Filter(s, keep)|
  {
    if s != [] {
      CountIsFilterLength(s[1..], keep);
    }
  }

  /** Filtering twice is filtering by both tests. */
  lemma {:induction false} FilterFilter<T>(s: seq<T>, first: T -> bool, second: T -> bool)
    requires forall x :: x in s && second(x) ==> first(x)
    ensures Filter(Filter(s, first), second) == Filter(s, second)
  {
    if s != [] {
      assert forall x :: x in s[1..] ==> x in s;
      FilterFilter(s[1..], first, second);
      FilterCons(s[0], Filter(s[1..], first), second);
      assert s[0] in s;
    }
  }

  /** Two tests that agree everywhere select the same elements. */
  lemma {:induction false} FilterAlike<T(!new)>(s: seq<T>, p: T -> bool, q: T -> bool)
    requires forall x :: p(x) == q(x)
    ensures Filter(s, p) == Filter(s, q)
  {
    if s != [] {
      FilterAlike(s[1..], p, q);
    }
  }

  lemma {:induction false} FilterPrefix<T>(s: seq<T>, n: nat, keep: T -> bool)
    requires n <= |s|
    ensures Filter(s[..n], keep) <= Filter(s, keep)
  {
    assert s == s[..n] + s[n..];
    FilterAppend(s[..n], s[n..], keep);
  }

  lemma {:induction false} CountUpdate<T>(s: seq<T>, i: nat, x: T, keep: T -> bool)
    requires i < |s|
    ensures Count(s[i := x], keep)
         == Count(s, keep) - (if keep(s[i]) then 1 else 0) + (if keep(x) then 1 else 0)
  {
    assert s == s[..i] + [s[i]] + s[i + 1..] && s[i := x] == s[..i] + [x] + s[i + 1..];
    CountAppend(s[..i] + [s[i]], s[i + 1..], keep);
    CountAppend(s[..i], [s[i]], keep);
    CountAppend(s[..i] + [x], s[i + 1..], keep);
    CountAppend(s[..i], [x], keep);
  }

  lemma {:induction false} CountCongruent<T>(s: seq<T>, p: T -> bool, q: T -> bool)
    requires forall i :: 0 <= i < |s| ==> p(s[i]) == q(s[i])
    ensures Count(s, p) == Count(s, q)
  {
    if s != [] {
      forall i | 0 <= i < |s[1..]| ensures p(s[1..][i]) == q(s[1..][i]) {
        assert p(s[i + 1]) == q(s[i + 1]);
      }
      CountCongruent(s[1..], p, q);
    }
  }

  lemma {:induction false} NoneCounted<T>(s: seq<T>, keep: T -> bool)
    requires forall i :: 0 <= i < |s| ==> !keep(s[i])
    ensures Count(s, keep) == 0
  {
    if s != [] {
      forall i | 0 <= i < |s[1..]| ensures !keep(s[1..][i]) {
        assert !keep(s[i + 1]);
      }
      NoneCounted(s[1..], keep);
    }
  }

  lemma {:induction false} CountIsAtMostLength<T>(s: seq<T>, keep: T -> bool)
    ensures Count(s, keep) <= |s|
  {
    if s != [] {
      CountIsAtMostLength(s[1..], keep);
    }
  }

  lemma {:induction false} CountSplit<T>(s: seq<T>, both: T -> bool, p: T -> bool, q: T -> bool)
    requires forall i :: 0 <= i < |s| ==> both(s[i]) == (p(s[i]) || q(s[i])) && !(p(s[i]) && q(s[i]))
    ensures Count(s, both) == Count(s, p) + Count(s, q)
  {
    if s != [] {
      forall i | 0 <= i < |s[1..]|
        ensures both(s[1..][i]) == (p(s[1..][i]) || q(s[1..][i])) && !(p(s[1..][i]) && q(s[1..][i]))
      {
        assert s[1..][i] == s[i + 1];
      }
      CountSplit(s[1..], both, p, q);
    }
  }

  lemma {:induction false} AllCounted<T>(s: seq<T>, keep: T -> bool)
    requires forall i :: 0 <= i < |s| ==> keep(s[i])
    ensures Count(s, keep) == |s|
  {
    if s != [] {
      forall i | 0 <= i < |s[1..]| ensures keep(s[1..][i]) {
        assert keep(s[i + 1]);
      }
      AllCounted(s[1..], keep);
    }
  }

  lemma PrefixSnoc<T>(s: seq<T>, n: nat)
    requires n < |s|
    ensures s[..n + 1] == s[..n] + [s[n]]
  {
  }

  lemma WholePrefix<T>(s: seq<T>)
    ensures s[..|s|] == s
  {
  }

  lemma {:induction false} MapAppend<T, U>(a: seq<T>, b: seq<T>, f: T -> U)
    ensures Map(a + b, f) == Map(a, f) + Map(b, f)
  {
  }

  /** A sequence has no repeats exactly when its multiset has none. */
  lemma {:induction false} DistinctIsOnce<T(!new)>(s: seq<T>)
    ensures Distinct(s) <==> forall x :: multiset(s)[x] <= 1
  {
    if s != [] {
      var last, most := s[|s| - 1], s[..|s| - 1];
      DistinctIsOnce(most);
      assert s == most + [last];
      assert multiset(s) == multiset(most) + multiset{last};
      assert last in most <==> multiset(most)[last] >= 1;
      if Distinct(s) {
        forall x ensures multiset(s)[x] <= 1 {
          assert Distinct(most);
        }
      } else if forall x :: multiset(s)[x] <= 1 {
        assert multiset(s)[last] <= 1;
        forall x ensures multiset(most)[x] <= 1 {
          assert multiset(s)[x] <= 1;
        }
      }
    }
  }

  // ----- Stable sorting -----

  /** Smaller ranks come first. */
  ghost predicate Sorted<T>(s: seq<T>, rank: T -> int) {
    forall i, j :: 0 <= i < j < |s| ==> rank(s[i]) <= rank(s[j])
  }

  function Insert<T>(x: T, s: seq<T>, rank: T -> int): seq<T> {
    if s != [] && rank(s[0]) < rank(x) then [s[0]] + Insert(x, s[1..], rank) else [x] + s
  }

  /** The stable sort of `Array.prototype.sort` with the comparator `rank(a) - rank(b)`. */
  function Sort<T>(s: seq<T>, rank: T -> int): seq<T> {
    if s == [] then [] else Insert(s[0], Sort(s[1..], rank), rank)
  }

  lemma SameMembers<T>(a: seq<T>, b: seq<T>)
    requires multiset(a) == multiset(b)
    ensures |a| == |b| && forall x :: x in a <==> x in b
  {
    assert |multiset(a)| == |a| && |multiset(b)| == |b|;
    forall x ensures x in a <==> x in b {
      assert x in a <==> x in multiset(a);
      assert x in b <==> x in multiset(b);
    }
  }

  ghost predicate AllFrom<T>(n: int, s: seq<T>, rank: T -> int) {
    forall i :: 0 <= i < |s| ==> n <= rank(s[i])
  }

  lemma {:induction false} SortedCons<T>(x: T, s: seq<T>, rank: T -> int)
    ensures Sorted([x] + s, rank) <==> AllFrom(rank(x), s, rank) && Sorted(s, rank)
  {
    var r := [x] + s;
    if Sorted(r, rank) {
      forall i | 0 <= i < |s| ensures rank(x) <= rank(s[i]) {
        assert rank(r[0]) <= rank(r[i + 1]);
      }
      forall i, j | 0 <= i < j < |s| ensures rank(s[i]) <= rank(s[j]) {
        assert rank(r[i + 1]) <= rank(r[j + 1]);
      }
    }
  }

  lemma {:induction false} InsertSorted<T>(x: T, s: seq<T>, n: int, rank: T -> int)
    requires Sorted(s, rank) && AllFrom(n, s, rank) && n <= rank(x)
    ensures Sorted(Insert(x, s, rank), rank) && AllFrom(n, Insert(x, s, rank), rank)
  {
    if s != [] {
      assert s == [s[0]] + s[1..];
      SortedCons(s[0], s[1..], rank);
      if rank(s[0]) < rank(x) {
        InsertSorted(x, s[1..], rank(s[0]), rank);
        SortedCons(s[0], Insert(x, s[1..], rank), rank);
      } else {
        assert AllFrom(rank(x), s, rank);
        SortedCons(x, s, rank);
      }
    }
  }

  lemma {:induction false} InsertKeepsElements<T>(x: T, s: seq<T>, rank: T -> int)
    ensures multiset(Insert(x, s, rank)) == multiset{x} + multiset(s)
  {
    if s != [] && rank(s[0]) < rank(x) {
      InsertKeepsElements(x, s[1..], rank);
      assert s == [s[0]] + s[1..];
    }
  }

  lemma {:induction false} SortIsSorted<T>(s: seq<T>, rank: T -> int)
    ensures Sorted(Sort(s, rank), rank)
  {
    if s != [] {
      var rest := Sort(s[1..], rank);
      SortIsSorted(s[1..], rank);
      var n := if rest != [] && rank(rest[0]) < rank(s[0]) then rank(rest[0]) else rank(s[0]);
      InsertSorted(s[0], rest, n, rank);
    }
  }

  lemma {:induction false} SortKeepsElements<T>(s: seq<T>, rank: T -> int)
    ensures multiset(Sort(s, rank)) == multiset(s)
  {
    if s != [] {
      SortKeepsElements(s[1..], rank);
      InsertKeepsElements(s[0], Sort(s[1..], rank), rank);
      assert s == [s[0]] + s[1..];
    }
  }

  lemma {:induction false} SortSorts<T>(s: seq<T>, rank: T -> int)
    ensures Sorted(Sort(s, rank), rank)
    ensures multiset(Sort(s, rank)) == multiset(s)
    ensures |Sort(s, rank)| == |s|
    ensures forall x :: x in Sort(s, rank) <==> x in s
  {
    SortIsSorted(s, rank);
    SortKeepsElements(s, rank);
    SameMembers(Sort(s, rank), s);
  }

  function WithRank<T>(n: int, rank: T -> int): T -> bool {
    x => rank(x) == n
  }

  lemma {:induction false} InsertIsStable<T>(x: T, s: seq<T>, n: int, rank: T -> int)
    ensures Filter(Insert(x, s, rank), WithRank(n, rank)) == Filter([x] + s, WithRank(n, rank))
  {
    if s != [] && rank(s[0]) < rank(x) {
      var tail := s[1..];
      InsertIsStable(x, tail, n, rank);
      FilterAppend([s[0]], Insert(x, tail, rank), WithRank(n, rank));
      FilterAppend([x], tail, WithRank(n, rank));
      FilterAppend([x], s, WithRank(n, rank));
    }
  }

  /** Elements of equal rank keep their order. */
  lemma {:induction false} SortIsStable<T>(s: seq<T>, n: int, rank: T -> int)
    ensures Filter(Sort(s, rank), WithRank(n, rank)) == Filter(s, WithRank(n, rank))
  {
    if s != [] {
      var rest := Sort(s[1..], rank);
      SortIsStable(s[1..], n, rank);
      InsertIsStable(s[0], rest, n, rank);
      FilterAppend([s[0]], rest, WithRank(n, rank));
    }
  }

  /** Sums do not see the order, so sorting keeps them. */
  lemma {:induction false} InsertSums<T>(x: T, s: seq<T>, rank: T -> int, f: T -> int)
    ensures Sum(Insert(x, s, rank), f) == f(x) + Sum(s, f)
  {
    if s != [] && rank(s[0]) < rank(x) {
      InsertSums(x, s[1..], rank, f);
      assert Insert(x, s, rank)[1..] == Insert(x, s[1..], rank);
    } else {
      assert ([x] + s)[1..] == s;
    }
  }

  lemma {:induction false} SortSums<T>(s: seq<T>, rank: T -> int, f: T -> int)
    ensures Sum(Sort(s, rank), f) == Sum(s, f)
  {
    if s != [] {
      SortSums(s[1..], rank, f);
      InsertSums(s[0], Sort(s[1..], rank), rank, f);
    }
  }

  lemma {:induction false} InsertInFront<T>(x: T, s: seq<T>, rank: T -> int)
    requires AllFrom(rank(x), s, rank)
    ensures Insert(x, s, rank) == [x] + s
  {
  }

  lemma {:induction false} InsertFilter<T>(x: T, s: seq<T>, rank: T -> int, keep: T -> bool)
    requires Sorted(s, rank)
    ensures Filter(Insert(x, s, rank), keep)
         == if keep(x) then Insert(x, Filter(s, keep), rank) else Filter(s, keep)
  {
    if s != [] {
      var y, tail := s[0], s[1..];
      assert s == [y] + tail;
      SortedCons(y, tail, rank);
      if rank(y) < rank(x) {
        InsertFilter(x, tail, rank, keep);
        FilterCons(y, Insert(x, tail, rank), keep);
        assert keep(y) ==> ([y] + Filter(tail, keep))[1..] == Filter(tail, keep);
      } else {
        FilterCons(x, s, keep);
        AllFromFilter(rank(x), s, rank, keep);
        InsertInFront(x, Filter(s, keep), rank);
      }
    } else {
      FilterCons(x, s, keep);
    }
  }

  lemma {:induction false} AllFromFilter<T>(n: int, s: seq<T>, rank: T -> int, keep: T -> bool)
    requires AllFrom(n, s, rank)
    ensures AllFrom(n, Filter(s, keep), rank)
  {
    if s != [] {
      AllFromFilter(n, s[1..], rank, keep);
    }
  }

  lemma {:induction false} SortedFilter<T>(s: seq<T>, rank: T -> int, keep: T -> bool)
    requires Sorted(s, rank)
    ensures Sorted(Filter(s, keep), rank)
  {
    if s != [] {
      var x, tail := s[0], s[1..];
      assert s == [x] + tail;
      SortedCons(x, tail, rank);
      SortedFilter(tail, rank, keep);
      if keep(x) {
        AllFromFilter(rank(x), tail, rank, keep);
        SortedCons(x, Filter(tail, keep), rank);
      }
    }
  }

  lemma {:induction false} FilterKeepsAmounts<T(!new)>(s: seq<T>, keep: T -> bool)
    ensures multiset(Filter(s, keep)) <= multiset(s)
  {
    if s != [] {
      FilterKeepsAmounts(s[1..], keep);
      assert s == [s[0]] + s[1..];
      assert multiset(s) == multiset{s[0]} + multiset(s[1..]);
    }
  }

  lemma {:induction false} SortCons<T>(x: T, s: seq<T>, rank: T -> int)
    ensures Sort([x] + s, rank) == Insert(x, Sort(s, rank), rank)
  {
    assert ([x] + s)[1..] == s;
  }

  /** Sorting before or after filtering gives the same elements in the same order. */
  lemma {:induction false} SortFilter<T>(s: seq<T>, rank: T -> int, keep: T -> bool)
    ensures Filter(Sort(s, rank), keep) == Sort(Filter(s, keep), rank)
  {
    if s != [] {
      var tail := s[1..];
      SortFilter(tail, rank, keep);
      SortIsSorted(tail, rank);
      InsertFilter(s[0], Sort(tail, rank), rank, keep);
      if keep(s[0]) {
        SortCons(s[0], Filter(tail, keep), rank);
      }
    }
  }

  lemma {:induction false} SortKeepsDistinct<T(!new)>(s: seq<T>, rank: T -> int)
    requires Distinct(s)
    ensures Distinct(Sort(s, rank))
  {
    SortKeepsElements(s, rank);
    DistinctIsOnce(s);
    DistinctIsOnce(Sort(s, rank));
  }

  function Take<T>(s: seq<T>, n: nat): seq<T> {
    if |s| <= n then s else s[..n]
  }

  /** A sorted sequence cut at `n`: sorted, as long as possible, and nothing better is left out. */
  lemma {:induction false} CutOfSorted<T(!new)>(s: seq<T>, rank: T -> int, n: nat)
    ensures var top := Take(Sort(s, rank), n);
      && |top| == (if |s| <= n then |s| else n)
      && Sorted(top, rank) && multiset(top) <= multiset(s)
      && (forall x <- top :: x in s)
      && (forall x <- s, y <- top :: x in top || rank(y) <= rank(x))
  {
    hide Sort;
    var all := Sort(s, rank);
    var top := Take(all, n);
    SortSorts(s, rank);
    assert all == top + all[|top|..];
    forall x <- s, y <- top ensures x in top || rank(y) <= rank(x) {
      var i :| 0 <= i < |all| && all[i] == x;
      var j :| 0 <= j < |top| && top[j] == y;
      if i < |top| {
        assert top[i] == x;
      }
    }
  }

  // ----- Counting with other tests -----

  /** Sums and counts depend on nothing but what the tests and amounts say. */
  lemma {:induction false} SumWhereAlike<T(!new)>(s: seq<T>, p: T -> bool, q: T -> bool, f: T -> int, g: T -> int)
    requires forall x :: p(x) == q(x) && f(x) == g(x)
    ensures SumWhere(s, p, f) == SumWhere(s, q, g) && Count(s, p) == Count(s, q) && Sum(s, f) == Sum(s, g)
  {
    if s != [] {
      SumWhereAlike(s[1..], p, q, f, g);
    }
  }

  lemma {:induction false} CountOfFilter<T(!new)>(s: seq<T>, p: T -> bool, q: T -> bool, both: T -> bool)
    requires forall x :: both(x) == (p(x) && q(x))
    ensures Count(Filter(s, p), q) == Count(s, both)
  {
    if s != [] {
      CountOfFilter(s[1..], p, q, both);
      assert p(s[0]) ==> ([s[0]] + Filter(s[1..], p))[1..] == Filter(s[1..], p);
    }
  }

  lemma {:induction false} CountOfMap<T(!new), U>(s: seq<T>, f: T -> U, q: U -> bool, p: T -> bool)
    requires forall x :: p(x) == q(f(x))
    ensures Count(Map(s, f), q) == Count(s, p)
  {
    if s != [] {
      CountOfMap(s[1..], f, q, p);
      assert Map(s, f)[1..] == Map(s[1..], f);
    }
  }

  lemma {:induction false} PositiveCount<T>(s: seq<T>, keep: T -> bool)
    ensures Count(s, keep) >= 1 <==> exists i :: 0 <= i < |s| && keep(s[i])
  {
    if s != [] {
      PositiveCount(s[1..], keep);
      if i :| 0 <= i < |s| && keep(s[i]) {
        assert i > 0 ==> keep(s[1..][i - 1]);
      }
      if i :| 0 <= i < |s[1..]| && keep(s[1..][i]) {
        assert keep(s[i + 1]);
      }
    }
  }

  /** Two elements are counted exactly when two positions hold such. */
  lemma {:induction false} CountsTwo<T>(s: seq<T>, keep: T -> bool)
    ensures Count(s, keep) >= 2 <==> exists i, j :: 0 <= i < j < |s| && keep(s[i]) && keep(s[j])
  {
    if s != [] {
      var tail := s[1..];
      CountsTwo(tail, keep);
      PositiveCount(tail, keep);
      if Count(s, keep) >= 2 {
        if Count(tail, keep) >= 2 {
          var i, j :| 0 <= i < j < |tail| && keep(tail[i]) && keep(tail[j]);
          assert keep(s[i + 1]) && keep(s[j + 1]);
        } else {
          var j :| 0 <= j < |tail| && keep(tail[j]);
          assert keep(s[0]) && keep(s[j + 1]);
        }
      }
      if i, j :| 0 <= i < j < |s| && keep(s[i]) && keep(s[j]) {
        assert keep(tail[j - 1]);
        assert i > 0 ==> keep(tail[i - 1]);
      }
    }
  }

  /** The elements that pass the test, as a set. */
  ghost function Chosen<T(!new)>(s: seq<T>, keep: T -> bool): set<T> {
    set x | x in s && keep(x)
  }

  lemma {:induction false} ChosenCons<T(!new)>(x: T, tail: seq<T>, keep: T -> bool)
    requires x !in tail
    ensures |Chosen([x] + tail, keep)| == |Chosen(tail, keep)| + if keep(x) then 1 else 0
  {
    var all, rest := Chosen([x] + tail, keep), Chosen(tail, keep);
    assert x !in rest;
    if keep(x) {
      assert all == {x} + rest;
    } else {
      assert all == rest;
    }
  }

  /** Among different elements, counting is the size of a set. */
  lemma {:induction false} CountIsSize<T(!new)>(s: seq<T>, keep: T -> bool)
    requires Distinct(s)
    ensures Count(s, keep) == |Chosen(s, keep)|
  {
    if s == [] {
      assert Chosen(s, keep) == {};
    } else {
      hide Chosen;
      var tail := s[1..];
      assert s == [s[0]] + tail && s[0] !in tail;
      assert forall i :: 0 <= i < |tail| ==> tail[i] == s[i + 1];
      CountIsSize(tail, keep);
      ChosenCons(s[0], tail, keep);
    }
  }
}
