/** Python's stable sort by a rank. */
module Sorting {

  function Insert<T>(rank: T -> int, x: T, s: seq<T>): seq<T> {
    if s == [] then [x]
    else if rank(x) <= rank(s[0]) then [x] + s
    else [s[0]] + Insert(rank, x, s[1..])
  }

  function Sort<T>(rank: T -> int, s: seq<T>): seq<T> {
    if s == [] then [] else Insert(rank, s[0], Sort(rank, s[1..]))
  }

  ghost predicate Sorted<T>(rank: T -> int, s: seq<T>) {
    forall i, j :: 0 <= i < j < |s| ==> rank(s[i]) <= rank(s[j])
  }

  /** The elements of one rank, in order. */
  ghost function OfRank<T>(rank: T -> int, r: int, s: seq<T>): seq<T> {
    if s == [] then []
    else (if rank(s[0]) == r then [s[0]] else []) + OfRank(rank, r, s[1..])
  }

  lemma {:induction false} InsertPermutes<T>(rank: T -> int, x: T, s: seq<T>)
    ensures multiset(Insert(rank, x, s)) == multiset{x} + multiset(s)
  {
    if s != [] && rank(x) > rank(s[0]) {
      InsertPermutes(rank, x, s[1..]);
      assert s == [s[0]] + s[1..];
    }
  }

  lemma MultisetMembers<T>(s: seq<T>, t: seq<T>)
    requires multiset(s) == multiset(t)
    ensures |s| == |t|
    ensures forall x :: x in s <==> x in t
  {
    assert |multiset(s)| == |multiset(t)|;
    assert forall x :: x in s <==> x in multiset(s);
    assert forall x :: x in t <==> x in multiset(t);
  }

  lemma {:induction false} InsertSorts<T>(rank: T -> int, x: T, s: seq<T>)
    requires Sorted(rank, s)
    ensures Sorted(rank, Insert(rank, x, s))
  {
    if s != [] && rank(x) > rank(s[0]) {
      InsertSorts(rank, x, s[1..]);
      var t := Insert(rank, x, s[1..]);
      forall i | 0 <= i < |t| ensures rank(s[0]) <= rank(t[i]) {
        InsertPermutes(rank, x, s[1..]);
        assert t[i] in multiset(t);
      }
    }
  }

  lemma {:induction false} InsertStable<T>(rank: T -> int, x: T, s: seq<T>, r: int)
    ensures OfRank(rank, r, Insert(rank, x, s)) == OfRank(rank, r, [x] + s)
  {
    assert ([x] + s)[1..] == s;
    if s != [] && rank(x) > rank(s[0]) {
      InsertStable(rank, x, s[1..], r);
      assert ([x] + s[1..])[1..] == s[1..];
      var t := Insert(rank, x, s[1..]);
      assert ([s[0]] + t)[1..] == t;
    }
  }

  /** Sorting permutes, orders, and keeps equal ranks in input order. */
  lemma {:induction false} SortProperties<T>(rank: T -> int, s: seq<T>, r: int)
    ensures Sorted(rank, Sort(rank, s))
    ensures multiset(Sort(rank, s)) == multiset(s)
    ensures OfRank(rank, r, Sort(rank, s)) == OfRank(rank, r, s)
  {
    if s != [] {
      SortProperties(rank, s[1..], r);
      InsertPermutes(rank, s[0], Sort(rank, s[1..]));
      InsertSorts(rank, s[0], Sort(rank, s[1..]));
      InsertStable(rank, s[0], Sort(rank, s[1..]), r);
      assert s == [s[0]] + s[1..];
      assert ([s[0]] + Sort(rank, s[1..]))[1..] == Sort(rank, s[1..]);
    }
  }

  lemma SortMembers<T>(rank: T -> int, s: seq<T>)
    ensures |Sort(rank, s)| == |s|
    ensures forall x :: x in Sort(rank, s) <==> x in s
  {
    SortProperties(rank, s, 0);
    MultisetMembers(Sort(rank, s), s);
  }

  ghost predicate RankInjective<T(!new)>(rank: T -> int, s: multiset<T>) {
    forall x, y :: x in s && y in s && rank(x) == rank(y) ==> x == y
  }

  lemma HeadIsLeast<T>(rank: T -> int, a: seq<T>, x: T)
    requires Sorted(rank, a) && x in a
    ensures rank(a[0]) <= rank(x)
  {
    var i :| 0 <= i < |a| && a[i] == x;
    assert i == 0 || rank(a[0]) <= rank(a[i]);
  }

  lemma SortedTail<T>(rank: T -> int, a: seq<T>)
    requires Sorted(rank, a) && a != []
    ensures Sorted(rank, a[1..])
  {
  }

  lemma SameHead<T(!new)>(rank: T -> int, a: seq<T>, b: seq<T>)
    requires multiset(a) == multiset(b) && a != [] && b != []
    requires Sorted(rank, a) && Sorted(rank, b)
    requires RankInjective(rank, multiset(a))
    ensures a[0] == b[0]
  {
    var x, y := a[0], b[0];
    assert x in multiset(a) && y in multiset(b);
    HeadIsLeast(rank, a, y);
    HeadIsLeast(rank, b, x);
  }

  lemma MultisetTail<T>(a: seq<T>)
    requires a != []
    ensures multiset(a) == multiset{a[0]} + multiset(a[1..])
  {
    assert a == [a[0]] + a[1..];
  }

  lemma InjectiveTail<T(!new)>(rank: T -> int, a: seq<T>)
    requires RankInjective(rank, multiset(a)) && a != []
    ensures RankInjective(rank, multiset(a[1..]))
  {
    MultisetTail(a);
  }

  lemma SameTails<T>(a: seq<T>, b: seq<T>)
    requires multiset(a) == multiset(b)
    requires a != [] && b != [] && a[0] == b[0]
    ensures multiset(a[1..]) == multiset(b[1..])
  {
    MultisetTail(a);
    MultisetTail(b);
    var head, tailA, tailB := multiset{a[0]}, multiset(a[1..]), multiset(b[1..]);
    assert (head + tailA) - head == tailA;
    assert (head + tailB) - head == tailB;
  }

  lemma {:induction false} SortedUnique<T(!new)>(rank: T -> int, a: seq<T>, b: seq<T>)
    requires multiset(a) == multiset(b)
    requires Sorted(rank, a) && Sorted(rank, b)
    requires RankInjective(rank, multiset(a))
    ensures a == b
  {
    MultisetMembers(a, b);
    if a != [] {
      SameHead(rank, a, b);
      SameTails(a, b);
      SortedTail(rank, a);
      SortedTail(rank, b);
      InjectiveTail(rank, a);
      SortedUnique(rank, a[1..], b[1..]);
      assert a == [a[0]] + a[1..] && b == [b[0]] + b[1..];
    }
  }

  /** With distinct ranks the sorted list does not depend on the input order. */
  lemma SortPermutationInvariant<T(!new)>(rank: T -> int, a: seq<T>, b: seq<T>)
    requires multiset(a) == multiset(b)
    requires RankInjective(rank, multiset(a))
    ensures Sort(rank, a) == Sort(rank, b)
  {
    SortProperties(rank, a, 0);
    SortProperties(rank, b, 0);
    SortedUnique(rank, Sort(rank, a), Sort(rank, b));
  }

  function Filter<T>(p: T -> bool, s: seq<T>): seq<T> {
    if s == [] then []
    else Filter(p, s[..|s| - 1]) + (if p(s[|s| - 1]) then [s[|s| - 1]] else [])
  }

  lemma {:induction false} FilterCount<T>(p: T -> bool, s: seq<T>, x: T)
    ensures multiset(Filter(p, s))[x] == if p(x) then multiset(s)[x] else 0
  {
    if s != [] {
      FilterCount(p, s[..|s| - 1], x);
      assert s == s[..|s| - 1] + [s[|s| - 1]];
    }
  }

  lemma FilterMembers<T(!new)>(p: T -> bool, s: seq<T>)
    ensures forall x :: x in Filter(p, s) <==> x in s && p(x)
  {
    forall x ensures x in Filter(p, s) <==> x in s && p(x) {
      FilterCount(p, s, x);
      assert x in Filter(p, s) <==> x in multiset(Filter(p, s));
      assert x in s <==> x in multiset(s);
    }
  }

  lemma FilterPermutes<T(!new)>(p: T -> bool, s: seq<T>, t: seq<T>)
    requires multiset(s) == multiset(t)
    ensures multiset(Filter(p, s)) == multiset(Filter(p, t))
  {
    forall x ensures multiset(Filter(p, s))[x] == multiset(Filter(p, t))[x] {
      FilterCount(p, s, x);
      FilterCount(p, t, x);
    }
  }

  // ----- The elements of a set of numbers in increasing order

  ghost predicate Increasing(s: seq<nat>) {
    forall i, j :: 0 <= i < j < |s| ==> s[i] < s[j]
  }

  ghost function ToSet<T>(s: seq<T>): set<T> {
    set x | x in s
  }

  ghost predicate NoDuplicates<T>(s: seq<T>) {
    forall i, j :: 0 <= i < j < |s| ==> s[i] != s[j]
  }

  lemma {:induction false} LeastNumber(s: set<nat>) returns (m: nat)
    requires s != {}
    ensures m in s && forall x :: x in s ==> m <= x
  {
    m :| m in s;
    if s != {m} {
      var n := LeastNumber(s - {m});
      assert forall x :: x in s ==> x == m || x in s - {m};
      m := if n < m then n else m;
    }
  }

  lemma ConsSet(m: nat, rest: seq<nat>)
    ensures ToSet([m] + rest) == {m} + ToSet(rest)
  {
    assert forall x :: x in [m] + rest <==> x == m || x in rest;
  }

  lemma ConsIncreasing(m: nat, rest: seq<nat>)
    requires Increasing(rest) && forall x :: x in ToSet(rest) ==> m < x
    ensures Increasing([m] + rest)
  {
    forall i | 0 <= i < |rest| ensures m < rest[i] {
      assert rest[i] in ToSet(rest);
    }
  }

  ghost predicate Lists(r: seq<nat>, s: set<nat>) {
    Increasing(r) && ToSet(r) == s
  }

  lemma {:induction false} ListExists(s: set<nat>) returns (r: seq<nat>)
    ensures Lists(r, s)
  {
    if s == {} {
      r := [];
      NonEmptySet(r);
    } else {
      var m := LeastNumber(s);
      var rest := ListExists(s - {m});
      ConsSet(m, rest);
      ConsIncreasing(m, rest);
      r := [m] + rest;
    }
  }

  ghost function Ascending(s: set<nat>): (r: seq<nat>)
    ensures Lists(r, s)
  {
    assert exists r :: Lists(r, s) by { var r := ListExists(s); }
    var r :| Lists(r, s);
    r
  }

  lemma NonEmptySet(s: seq<nat>)
    ensures s == [] <==> ToSet(s) == {}
    ensures s != [] ==> s[0] in ToSet(s)
  {
    if s == [] {
      assert forall x :: x !in s;
    } else {
      assert s[0] in ToSet(s);
    }
  }

  lemma HeadLeast(s: seq<nat>, x: nat)
    requires Increasing(s) && x in ToSet(s)
    ensures s != [] && s[0] <= x
  {
    var i :| 0 <= i < |s| && s[i] == x;
  }

  lemma {:induction false} IncreasingUnique(a: seq<nat>, b: seq<nat>)
    requires Increasing(a) && Increasing(b) && ToSet(a) == ToSet(b)
    ensures a == b
  {
    NonEmptySet(a);
    NonEmptySet(b);
    if a != [] {
      HeadLeast(a, b[0]);
      HeadLeast(b, a[0]);
      TailSet(a);
      TailSet(b);
      IncreasingUnique(a[1..], b[1..]);
      assert a == [a[0]] + a[1..] && b == [b[0]] + b[1..];
    }
  }

  lemma TailSet(a: seq<nat>)
    requires a != [] && Increasing(a)
    ensures ToSet(a[1..]) == ToSet(a) - {a[0]} && Increasing(a[1..])
  {
    assert a == [a[0]] + a[1..];
    assert forall x :: x in a <==> x == a[0] || x in a[1..];
    assert a[0] !in a[1..];
  }

  function Itself(x: nat): int {
    x
  }

  lemma {:induction false} NoDuplicatesCount<T>(s: seq<T>, x: T)
    requires NoDuplicates(s)
    ensures multiset(s)[x] == if x in s then 1 else 0
  {
    if s != [] {
      var n := |s| - 1;
      NoDuplicatesCount(s[..n], x);
      assert s == s[..n] + [s[n]];
    }
  }

  lemma TwiceCounted(s: seq<nat>, i: nat, j: nat)
    requires i < j < |s| && s[i] == s[j]
    ensures multiset(s)[s[i]] >= 2
  {
    assert s == s[..j] + s[j..];
    assert s[..j][i] == s[i] && s[j..][0] == s[i];
    assert s[i] in multiset(s[..j]) && s[i] in multiset(s[j..]);
  }

  lemma SortedDistinctIncreasing(s: seq<nat>)
    requires Sorted(Itself, s) && forall x :: multiset(s)[x] <= 1
    ensures Increasing(s)
  {
    forall i, j | 0 <= i < j < |s| ensures s[i] < s[j] {
      assert Itself(s[i]) <= Itself(s[j]);
      if s[i] == s[j] {
        TwiceCounted(s, i, j);
      }
    }
  }

  /** Sorting distinct numbers lists their set in increasing order. */
  lemma SortAscending(s: seq<nat>)
    requires NoDuplicates(s)
    ensures Sort(Itself, s) == Ascending(ToSet(s))
  {
    SortProperties(Itself, s, 0);
    SortMembers(Itself, s);
    var t := Sort(Itself, s);
    forall x ensures multiset(t)[x] <= 1 {
      NoDuplicatesCount(s, x);
    }
    SortedDistinctIncreasing(t);
    assert ToSet(t) == ToSet(s);
    IncreasingUnique(t, Ascending(ToSet(s)));
  }
}
