/**
 * sort.Slice and "collect the keys of a map and sort them", as functions.
 *
 * The operator only ever sorts with comparators that separate the elements it
 * sorts, so any sorting algorithm gives one result. `SortedUnique` is that
 * fact; `Sort` is one algorithm.
 */
module Sorting {

  /** A total preorder: what every comparator here is. */
  ghost predicate Ordering<T(!new)>(leq: (T, T) -> bool) {
    && (forall x, y :: leq(x, y) || leq(y, x))
    && (forall x, y, z :: leq(x, y) && leq(y, z) ==> leq(x, z))
  }

  ghost predicate Separates<T>(leq: (T, T) -> bool, s: seq<T>) {
    forall x, y :: x in s && y in s && leq(x, y) && leq(y, x) ==> x == y
  }

  ghost predicate Sorted<T>(leq: (T, T) -> bool, s: seq<T>) {
    forall i, j :: 0 <= i < j < |s| ==> leq(s[i], s[j])
  }

  function Insert<T>(leq: (T, T) -> bool, x: T, s: seq<T>): (r: seq<T>)
    ensures multiset(r) == multiset(s) + multiset{x}
  {
    if s == [] then [x]
    else if leq(x, s[0]) then [x] + s
    else
      assert s == [s[0]] + s[1..];
      [s[0]] + Insert(leq, x, s[1..])
  }

  function Sort<T>(leq: (T, T) -> bool, s: seq<T>): (r: seq<T>)
    ensures multiset(r) == multiset(s)
    ensures |r| == |s|
  {
    if s == [] then []
    else
      assert s == [s[0]] + s[1..];
      var r := Insert(leq, s[0], Sort(leq, s[1..]));
      assert |multiset(r)| == |multiset(s)|;
      r
  }

  lemma SameMembers<T(!new)>(a: seq<T>, b: seq<T>)
    requires multiset(a) == multiset(b)
    ensures |a| == |b|
    ensures forall x :: x in a <==> x in b
  {
    assert |multiset(a)| == |multiset(b)|;
    forall x ensures x in a <==> x in b {
      assert x in a <==> x in multiset(a);
      assert x in b <==> x in multiset(b);
    }
  }

  lemma {:induction false} InsertSorted<T(!new)>(leq: (T, T) -> bool, x: T, s: seq<T>)
    requires Ordering(leq) && Sorted(leq, s)
    ensures Sorted(leq, Insert(leq, x, s))
  {
    if s != [] && !leq(x, s[0]) {
      InsertSorted(leq, x, s[1..]);
      var r := Insert(leq, x, s[1..]);
      assert multiset(r) == multiset(s[1..] + [x]);
      SameMembers(r, s[1..] + [x]);
      assert forall y :: y in r ==> leq(s[0], y);
      assert forall i :: 0 <= i < |r| ==> r[i] in r;
    }
  }

  lemma {:induction false} SortSorted<T(!new)>(leq: (T, T) -> bool, s: seq<T>)
    requires Ordering(leq)
    ensures Sorted(leq, Sort(leq, s))
  {
    if s != [] {
      SortSorted(leq, s[1..]);
      InsertSorted(leq, s[0], Sort(leq, s[1..]));
    }
  }

  /** A list is determined by its elements once its order separates them. */
  lemma {:induction false} SortedUnique<T(!new)>(leq: (T, T) -> bool, a: seq<T>, b: seq<T>)
    requires Ordering(leq) && Separates(leq, a)
    requires Sorted(leq, a) && Sorted(leq, b) && multiset(a) == multiset(b)
    ensures a == b
  {
    SameMembers(a, b);
    if a != [] {
      SortedHead(leq, a, b);
      TailCount(a);
      TailCount(b);
      SortedTail(leq, a);
      SortedTail(leq, b);
      SeparatesTail(leq, a);
      SortedUnique(leq, a[1..], b[1..]);
      SameHeadAndTail(a, b);
    }
  }

  lemma SortedTail<T>(leq: (T, T) -> bool, s: seq<T>)
    requires s != [] && Sorted(leq, s)
    ensures Sorted(leq, s[1..])
  {
  }

  lemma SeparatesTail<T>(leq: (T, T) -> bool, s: seq<T>)
    requires s != [] && Separates(leq, s)
    ensures Separates(leq, s[1..])
  {
    assert forall x :: x in s[1..] ==> x in s;
  }

  lemma SameHeadAndTail<T>(a: seq<T>, b: seq<T>)
    requires a != [] && b != [] && a[0] == b[0] && a[1..] == b[1..]
    ensures a == b
  {
    assert a == [a[0]] + a[1..] && b == [b[0]] + b[1..];
  }

  lemma SortedHead<T(!new)>(leq: (T, T) -> bool, a: seq<T>, b: seq<T>)
    requires Ordering(leq) && Separates(leq, a) && Sorted(leq, a) && Sorted(leq, b)
    requires a != [] && b != [] && forall x :: x in a <==> x in b
    ensures a[0] == b[0]
  {
    assert b[0] in a && a[0] in b;
    assert leq(a[0], b[0]) && leq(b[0], a[0]);
  }

  lemma TailCount<T>(s: seq<T>)
    requires s != []
    ensures multiset(s[1..]) == multiset(s) - multiset{s[0]}
  {
    assert s == [s[0]] + s[1..];
  }

  /** Sorting forgets the order it was given. */
  lemma SortPermutation<T(!new)>(leq: (T, T) -> bool, a: seq<T>, b: seq<T>)
    requires Ordering(leq) && Separates(leq, a) && multiset(a) == multiset(b)
    ensures Sort(leq, a) == Sort(leq, b)
  {
    SortSorted(leq, a);
    SortSorted(leq, b);
    SameMembers(Sort(leq, a), a);
    SortedUnique(leq, Sort(leq, a), Sort(leq, b));
  }

  function Filter<T(!new)>(p: T -> bool, s: seq<T>): (r: seq<T>)
    ensures forall x :: x in r <==> x in s && p(x)
  {
    if s == [] then []
    else if p(s[0]) then [s[0]] + Filter(p, s[1..])
    else Filter(p, s[1..])
  }

  lemma {:induction false} FilterConcat<T(!new)>(p: T -> bool, a: seq<T>, b: seq<T>)
    ensures Filter(p, a + b) == Filter(p, a) + Filter(p, b)
  {
    if a == [] {
      assert a + b == b;
    } else {
      FilterConcat(p, a[1..], b);
      assert (a + b)[1..] == a[1..] + b;
    }
  }

  ghost predicate Linear<T(!new)>(leq: (T, T) -> bool) {
    && Ordering(leq)
    && (forall x, y :: leq(x, y) && leq(y, x) ==> x == y)
  }

  lemma LeastExists<T(!new)>(leq: (T, T) -> bool, s: set<T>) returns (least: T)
    requires Ordering(leq) && s != {}
    ensures least in s && forall x :: x in s ==> leq(least, x)
  {
    var pick :| pick in s;
    assert leq(pick, pick);
    if s == {pick} {
      least := pick;
    } else {
      var other := LeastExists(leq, s - {pick});
      least := if leq(pick, other) then pick else other;
      forall x | x in s ensures leq(least, x) {
        assert x == pick || (x in s - {pick} && leq(other, x));
      }
    }
  }

  /** The members of a set in order: a map's keys collected and sorted. */
  ghost function SortedSet<T(!new)>(leq: (T, T) -> bool, s: set<T>): (r: seq<T>)
    requires Linear(leq)
    ensures Sorted(leq, r)
    ensures forall x :: x in r <==> x in s
    ensures forall i, j :: 0 <= i < j < |r| ==> r[i] != r[j]
    ensures |r| == |s|
  {
    if s == {} then []
    else
      var least0 := Least(leq, s);
      var rest := SortedSet(leq, s - {least0});
      [least0] + rest
  }

  ghost function Least<T(!new)>(leq: (T, T) -> bool, s: set<T>): (least: T)
    requires Linear(leq) && s != {}
    ensures least in s && forall x :: x in s ==> leq(least, x)
  {
    assert exists x :: x in s && forall y :: y in s ==> leq(x, y) by {
      var l := LeastExists(leq, s);
    }
    var least :| least in s && forall x :: x in s ==> leq(least, x);
    least
  }

  // ----- concatenating what each element yields -----------------------------

  function FlatMap<T, U>(g: T -> seq<U>, s: seq<T>): seq<U> {
    if s == [] then [] else FlatMap(g, s[..|s| - 1]) + g(s[|s| - 1])
  }

  lemma {:induction false} FlatMapConcat<T, U>(g: T -> seq<U>, a: seq<T>, b: seq<T>)
    ensures FlatMap(g, a + b) == FlatMap(g, a) + FlatMap(g, b)
  {
    if b == [] {
      assert a + b == a;
    } else {
      var rest, last := b[..|b| - 1], b[|b| - 1];
      FlatMapConcat(g, a, rest);
      FlatMapSnoc(g, a + rest, last);
      Associates(a, rest, [last]);
      Associates(FlatMap(g, a), FlatMap(g, rest), g(last));
      assert b == rest + [last];
    }
  }

  lemma PrefixSplit<T>(s: seq<T>, m: nat, n: nat)
    requires m <= n <= |s|
    ensures s[..n] == s[..m] + s[m..n]
  {
  }

  lemma Associates<T>(a: seq<T>, b: seq<T>, c: seq<T>)
    ensures a + b + c == a + (b + c)
  {
  }

  lemma FlatMapSnoc<T, U>(g: T -> seq<U>, s: seq<T>, x: T)
    ensures FlatMap(g, s + [x]) == FlatMap(g, s) + g(x)
  {
    assert (s + [x])[..|s|] == s;
  }

  lemma {:induction false} FlatMapSame<T, U>(g: T -> seq<U>, h: T -> seq<U>, s: seq<T>)
    requires forall x :: x in s ==> g(x) == h(x)
    ensures FlatMap(g, s) == FlatMap(h, s)
  {
    if s != [] {
      FlatMapSame(g, h, s[..|s| - 1]);
    }
  }

  lemma {:induction false} FlatMapMembers<T(!new), U(!new)>(g: T -> seq<U>, s: seq<T>, y: U)
    ensures y in FlatMap(g, s) <==> exists x :: x in s && y in g(x)
  {
    if s != [] {
      var rest, last := s[..|s| - 1], s[|s| - 1];
      FlatMapMembers(g, rest, y);
      assert s == rest + [last];
      assert forall x :: x in s <==> x in rest || x == last;
    }
  }

  function Without<T>(s: seq<T>, j: nat): seq<T>
    requires j < |s|
  {
    s[..j] + s[j + 1..]
  }

  lemma WithoutCount<T>(s: seq<T>, j: nat)
    requires j < |s|
    ensures multiset(Without(s, j)) == multiset(s) - multiset{s[j]}
  {
    assert s == s[..j] + [s[j]] + s[j + 1..];
    assert multiset(s) == multiset(Without(s, j)) + multiset{s[j]};
  }

  lemma FlatMapWithout<T, U>(g: T -> seq<U>, s: seq<T>, j: nat)
    requires j < |s|
    ensures multiset(FlatMap(g, s)) == multiset(FlatMap(g, Without(s, j))) + multiset(g(s[j]))
  {
    FlatMapAround(g, s, j);
    FlatMapConcat(g, s[..j], s[j + 1..]);
    MiddleCount(FlatMap(g, s[..j]), g(s[j]), FlatMap(g, s[j + 1..]));
  }

  lemma FlatMapAround<T, U>(g: T -> seq<U>, s: seq<T>, j: nat)
    requires j < |s|
    ensures FlatMap(g, s) == FlatMap(g, s[..j]) + g(s[j]) + FlatMap(g, s[j + 1..])
  {
    assert s == s[..j + 1] + s[j + 1..] && s[..j + 1][..j] == s[..j];
    FlatMapConcat(g, s[..j + 1], s[j + 1..]);
  }

  lemma MiddleCount<T>(a: seq<T>, b: seq<T>, c: seq<T>)
    ensures multiset(a + b + c) == multiset(a + c) + multiset(b)
  {
  }

  /** Reordering the elements only reorders what they yield. */
  lemma {:induction false} FlatMapPermutation<T(!new), U>(g: T -> seq<U>, a: seq<T>, b: seq<T>)
    requires multiset(a) == multiset(b)
    ensures multiset(FlatMap(g, a)) == multiset(FlatMap(g, b))
    decreases |a|
  {
    SameMembers(a, b);
    if a != [] {
      var last := a[|a| - 1];
      assert last in a && last in b;
      var j :| 0 <= j < |b| && b[j] == last;
      WithoutCount(a, |a| - 1);
      WithoutCount(b, j);
      FlatMapWithout(g, a, |a| - 1);
      FlatMapWithout(g, b, j);
      FlatMapPermutation(g, Without(a, |a| - 1), Without(b, j));
    }
  }

  lemma {:induction false} FilterCount<T(!new)>(p: T -> bool, s: seq<T>, x: T)
    ensures multiset(Filter(p, s))[x] == if p(x) then multiset(s)[x] else 0
  {
    if s != [] {
      FilterCount(p, s[1..], x);
      assert s == [s[0]] + s[1..];
    }
  }

  lemma FilterPermutation<T(!new)>(p: T -> bool, a: seq<T>, b: seq<T>)
    requires multiset(a) == multiset(b)
    ensures multiset(Filter(p, a)) == multiset(Filter(p, b))
  {
    forall x ensures multiset(Filter(p, a))[x] == multiset(Filter(p, b))[x] {
      FilterCount(p, a, x);
      FilterCount(p, b, x);
    }
  }

  // ----- distinct elements --------------------------------------------------

  lemma {:induction false} DistinctByCount<T(!new), K>(s: seq<T>, f: T -> K)
    requires forall i, j :: 0 <= i < j < |s| ==> f(s[i]) != f(s[j])
    ensures forall x :: x in s ==> multiset(s)[x] == 1
    ensures forall x, y :: x in s && y in s && f(x) == f(y) ==> x == y
  {
    if s != [] {
      var before, last := s[..|s| - 1], s[|s| - 1];
      assert s == before + [last];
      DistinctByCount(before, f);
      assert last !in before;
    }
  }

  lemma CountIsDistinct<T(!new), K>(s: seq<T>, f: T -> K)
    requires forall x :: x in s ==> multiset(s)[x] == 1
    requires forall x, y :: x in s && y in s && f(x) == f(y) ==> x == y
    ensures forall i, j :: 0 <= i < j < |s| ==> f(s[i]) != f(s[j])
  {
    forall i, j | 0 <= i < j < |s| ensures f(s[i]) != f(s[j]) {
      assert s == s[..j] + [s[j]] + s[j + 1..];
      assert s[i] in s[..j];
      assert multiset(s)[s[j]] == multiset(s[..j])[s[j]] + 1 + multiset(s[j + 1..])[s[j]];
    }
  }

  /** Reordering distinct elements leaves them distinct. */
  lemma DistinctPermutation<T(!new), K>(a: seq<T>, b: seq<T>, f: T -> K)
    requires multiset(a) == multiset(b)
    requires forall i, j :: 0 <= i < j < |a| ==> f(a[i]) != f(a[j])
    ensures forall i, j :: 0 <= i < j < |b| ==> f(b[i]) != f(b[j])
    ensures forall x :: x in a <==> x in b
    ensures forall x, y :: x in a && y in a && f(x) == f(y) ==> x == y
  {
    SameMembers(a, b);
    DistinctByCount(a, f);
    CountIsDistinct(b, f);
  }

  /** Lists without repeats and with the same members are rearrangements. */
  lemma MembersOnce<T(!new)>(a: seq<T>, b: seq<T>)
    requires (forall i, j :: 0 <= i < j < |a| ==> a[i] != a[j]) && (forall i, j :: 0 <= i < j < |b| ==> b[i] != b[j])
    requires forall x :: x in a <==> x in b
    ensures multiset(a) == multiset(b)
  {
    DistinctByCount(a, (x: T) => x);
    DistinctByCount(b, (x: T) => x);
    forall x ensures multiset(a)[x] == multiset(b)[x] {
      assert x in a <==> x in multiset(a);
      assert x in b <==> x in multiset(b);
    }
  }

  lemma ConsSplit<T>(h: T, a: seq<T>, x: T, b: seq<T>)
    ensures [h] + (a + [x] + b) == ([h] + a) + [x] + b
  {
  }

  /** Insertion puts the element somewhere and moves nothing else. */
  lemma {:induction false} InsertSplits<T(!new)>(leq: (T, T) -> bool, x: T, s: seq<T>) returns (n: nat)
    ensures n <= |s| && Insert(leq, x, s) == s[..n] + [x] + s[n..]
    ensures n < |s| ==> leq(x, s[n])
  {
    if s == [] || leq(x, s[0]) {
      n := 0;
    } else {
      var m := InsertSplits(leq, x, s[1..]);
      n := m + 1;
      ConsSplit(s[0], s[1..][..m], x, s[1..][m..]);
      assert s[..n] == [s[0]] + s[1..][..m] && s[n..] == s[1..][m..];
    }
  }

  /** Sorting a list without repeats gives its members in order. */
  lemma SortOfOnce<T(!new)>(leq: (T, T) -> bool, s: seq<T>, members: set<T>)
    requires Linear(leq)
    requires (forall x :: x in s <==> x in members) && forall i, j :: 0 <= i < j < |s| ==> s[i] != s[j]
    ensures Sort(leq, s) == SortedSet(leq, members)
  {
    var sorted := SortedSet(leq, members);
    MembersOnce(s, sorted);
    SortSorted(leq, s);
    SortedUnique(leq, sorted, Sort(leq, s));
  }

  /** Where one part of a set comes before the other, the order lists it first. */
  lemma JoinSorted<T(!new)>(leq: (T, T) -> bool, a: set<T>, b: set<T>)
    requires Linear(leq) && a !! b && forall x, y :: x in a && y in b ==> leq(x, y)
    ensures var s := SortedSet(leq, a) + SortedSet(leq, b);
            Sorted(leq, s) && forall i, j :: 0 <= i < j < |s| ==> s[i] != s[j]
  {
    var x, y := SortedSet(leq, a), SortedSet(leq, b);
    var s := x + y;
    forall i, j | 0 <= i < j < |s| ensures s[i] != s[j] && leq(s[i], s[j]) {
      if i < |x| <= j { assert x[i] in a && y[j - |x|] in b; }
    }
  }

  lemma SortedSetSplit<T(!new)>(leq: (T, T) -> bool, a: set<T>, b: set<T>)
    requires Linear(leq) && a !! b && forall x, y :: x in a && y in b ==> leq(x, y)
    ensures SortedSet(leq, a + b) == SortedSet(leq, a) + SortedSet(leq, b)
  {
    var s, all := SortedSet(leq, a) + SortedSet(leq, b), SortedSet(leq, a + b);
    JoinSorted(leq, a, b);
    MembersOnce(s, all);
    SortedUnique(leq, all, s);
  }
}
