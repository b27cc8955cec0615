/** Facts about finite sequences that several components rely on: distinctness, counting
    arguments, and the uniqueness of a sorted arrangement. */
module Sequences {

  datatype Option<+T> = None | Some(value: T)

  ghost predicate Distinct<T>(s: seq<T>) {
    forall i, j :: 0 <= i < j < |s| ==> s[i] != s[j]
  }

  ghost predicate Permutation<T>(a: seq<T>, b: seq<T>) {
    multiset(a) == multiset(b)
  }

  lemma PermutationMembers<T>(a: seq<T>, b: seq<T>)
    requires Permutation(a, b)
    ensures |a| == |b|
    ensures forall x :: x in a <==> x in b
  {
    assert |multiset(a)| == |a| && |multiset(b)| == |b|;
    forall x ensures x in a <==> x in b {
      assert x in a <==> x in multiset(a);
      assert x in b <==> x in multiset(b);
    }
  }

  lemma TailDistinct<T>(s: seq<T>)
    requires Distinct(s) && s != []
    ensures Distinct(s[1..]) && s[0] !in s[1..]
  {
  }

  lemma DistinctSnoc<T>(s: seq<T>, x: T)
    ensures Distinct(s + [x]) <==> Distinct(s) && x !in s
  {
    var t := s + [x];
    if Distinct(t) {
      assert forall i :: 0 <= i < |s| ==> t[i] == s[i] && t[i] != t[|s|];
    }
  }

  lemma PrefixOf<T>(s: seq<T>, i: nat)
    requires i < |s|
    ensures s[..i + 1] == s[..i] + [s[i]]
    ensures Distinct(s) ==> Distinct(s[..i + 1])
  {
  }

  lemma RepeatedTwice<T>(s: seq<T>, i: nat, j: nat)
    requires i < j < |s| && s[i] == s[j]
    ensures multiset(s)[s[i]] >= 2
  {
    assert s == s[..j] + ([s[j]] + s[j + 1..]);
    assert s[..j][i] == s[i];
    assert s[i] in multiset(s[..j]);
  }

  /** A sequence is distinct exactly when no element occurs twice. */
  lemma {:induction false} DistinctCounts<T>(s: seq<T>)
    ensures Distinct(s) <==> forall x :: multiset(s)[x] <= 1
  {
    if !Distinct(s) {
      var i, j :| 0 <= i < j < |s| && s[i] == s[j];
      RepeatedTwice(s, i, j);
    } else if s != [] {
      TailDistinct(s);
      DistinctCounts(s[1..]);
      assert s == [s[0]] + s[1..];
      assert s[0] !in multiset(s[1..]);
    }
  }

  lemma PermutationDistinct<T>(a: seq<T>, b: seq<T>)
    requires Permutation(a, b) && Distinct(a)
    ensures Distinct(b)
  {
    DistinctCounts(a);
    DistinctCounts(b);
  }

  /** Pigeonhole: distinct elements that all occur in an equally long sequence leave no
      room there for a repetition or for anything else. */
  lemma Pigeonhole<T>(a: seq<T>, b: seq<T>)
    requires Distinct(a) && |a| == |b|
    requires forall x :: x in a ==> x in b
    ensures Permutation(a, b) && Distinct(b)
  {
    DistinctCounts(a);
    forall x ensures multiset(a)[x] <= multiset(b)[x] {
      if x in multiset(a) {
        assert x in a;
        assert x in multiset(b);
      }
    }
    assert multiset(a) <= multiset(b);
    assert multiset(b) == multiset(a) + (multiset(b) - multiset(a));
    assert |multiset(b) - multiset(a)| == 0;
    PermutationDistinct(a, b);
  }

  // ---- Mapping ---------------------------------------------------------------------

  function Map<A, B>(f: A -> B, s: seq<A>): (r: seq<B>)
    ensures |r| == |s| && forall i :: 0 <= i < |s| ==> r[i] == f(s[i])
  {
    seq(|s|, i requires 0 <= i < |s| => f(s[i]))
  }

  lemma MapAround<A, B>(f: A -> B, left: seq<A>, x: A, right: seq<A>)
    ensures multiset(Map(f, left + [x] + right)) == multiset(Map(f, left + right)) + multiset{f(x)}
  {
    assert Map(f, left + [x] + right) == Map(f, left) + [f(x)] + Map(f, right);
    assert Map(f, left + right) == Map(f, left) + Map(f, right);
  }

  lemma MultisetAround<A>(left: seq<A>, x: A, right: seq<A>)
    ensures multiset(left + [x] + right) == multiset(left + right) + multiset{x}
  {
  }

  lemma {:induction false} MapPermutation<A, B>(f: A -> B, a: seq<A>, b: seq<A>)
    requires Permutation(a, b)
    ensures Permutation(Map(f, a), Map(f, b))
    decreases |a|
  {
    PermutationMembers(a, b);
    if a == [] {
    } else {
      var x, rest := a[0], a[1..];
      assert x in b;
      var k :| 0 <= k < |b| && b[k] == x;
      var left, right := b[..k], b[k + 1..];
      assert b == left + [x] + right;
      assert a == [] + [x] + rest && [] + rest == rest;
      MultisetAround(left, x, right);
      MultisetAround([], x, rest);
      RemoveOne(rest, left + right, x, multiset(a));
      MapPermutation(f, rest, left + right);
      MapAround(f, left, x, right);
      MapAround(f, [], x, rest);
    }
  }

  lemma RemoveOne<A>(a: seq<A>, b: seq<A>, x: A, m: multiset<A>)
    requires multiset(a) + multiset{x} == m && multiset(b) + multiset{x} == m
    ensures Permutation(a, b)
  {
    assert multiset(a) == m - multiset{x};
    assert multiset(b) == m - multiset{x};
  }

  // ---- Filtering and counting ------------------------------------------------------------

  function Filter<T>(p: T -> bool, s: seq<T>): (r: seq<T>)
    ensures |r| <= |s|
  {
    if s == [] then []
    else Filter(p, s[..|s| - 1]) + if p(s[|s| - 1]) then [s[|s| - 1]] else []
  }

  function Count<T>(p: T -> bool, s: seq<T>): nat { |Filter(p, s)| }

  lemma {:induction false} FilterMembers<T>(p: T -> bool, s: seq<T>)
    ensures forall x :: x in Filter(p, s) ==> x in s && p(x)
    ensures forall x :: x in s && p(x) ==> x in Filter(p, s)
  {
    if s == [] {
    } else {
      FilterMembers(p, s[..|s| - 1]);
      assert s == s[..|s| - 1] + [s[|s| - 1]];
    }
  }

  lemma {:induction false} FilterConcat<T>(p: T -> bool, a: seq<T>, b: seq<T>)
    ensures Filter(p, a + b) == Filter(p, a) + Filter(p, b)
  {
    if b == [] {
      assert a + b == a;
    } else {
      FilterConcat(p, a, b[..|b| - 1]);
      assert (a + b)[..|a + b| - 1] == a + b[..|b| - 1];
    }
  }

  /** Where an element that passes goes. */
  lemma {:induction false} FilterAt<T>(p: T -> bool, s: seq<T>, i: nat)
    requires i < |s| && p(s[i])
    ensures var r, before := Filter(p, s), Filter(p, s[..i]);
      |before| < |r| && r[..|before|] == before && r[|before|] == s[i]
  {
    var last := |s| - 1;
    if i < last {
      FilterAt(p, s[..last], i);
      assert s[..last][..i] == s[..i];
    }
  }

  lemma FilterAround<T>(p: T -> bool, left: seq<T>, x: T, right: seq<T>)
    ensures multiset(Filter(p, left + [x] + right)) ==
      multiset(Filter(p, left + right)) + if p(x) then multiset{x} else multiset{}
  {
    FilterConcat(p, left + [x], right);
    FilterConcat(p, left, [x]);
    FilterConcat(p, left, right);
    assert [x][..0] == [];
    assert Filter(p, [x]) == if p(x) then [x] else [];
  }

  lemma {:induction false} NoneFiltered<T>(p: T -> bool, s: seq<T>)
    requires forall i :: 0 <= i < |s| ==> !p(s[i])
    ensures Filter(p, s) == []
  {
    if s == [] {
    } else {
      NoneFiltered(p, s[..|s| - 1]);
    }
  }

  lemma {:induction false} OnceFiltered<T>(p: T -> bool, s: seq<T>, i: nat)
    requires i < |s| && p(s[i]) && forall j :: 0 <= j < |s| && j != i ==> !p(s[j])
    ensures Filter(p, s) == [s[i]]
  {
    var last := |s| - 1;
    if i == last {
      NoneFiltered(p, s[..last]);
    } else {
      OnceFiltered(p, s[..last], i);
    }
  }

  lemma NoneCounted<T>(p: T -> bool, s: seq<T>)
    requires Count(p, s) == 0
    ensures forall i :: 0 <= i < |s| ==> !p(s[i])
  {
    FilterMembers(p, s);
    assert forall i :: 0 <= i < |s| ==> s[i] in s;
  }

  lemma {:induction false} OncePosition<T>(p: T -> bool, s: seq<T>) returns (i: nat)
    requires Count(p, s) == 1
    ensures i < |s| && p(s[i]) && forall j :: 0 <= j < |s| && j != i ==> !p(s[j])
  {
    var last := |s| - 1;
    if p(s[last]) {
      NoneCounted(p, s[..last]);
      i := last;
    } else {
      i := OncePosition(p, s[..last]);
    }
    forall j | 0 <= j < last && j != i ensures !p(s[j]) {
      assert s[..last][j] == s[j];
    }
  }

  /** One element is counted exactly when there is one position for it. */
  lemma CountedOnce<T>(p: T -> bool, s: seq<T>)
    ensures Count(p, s) == 1 <==>
      exists i :: 0 <= i < |s| && p(s[i]) && forall j :: 0 <= j < |s| && j != i ==> !p(s[j])
  {
    if i :| 0 <= i < |s| && p(s[i]) && forall j :: 0 <= j < |s| && j != i ==> !p(s[j]) {
      OnceFiltered(p, s, i);
    }
    if Count(p, s) == 1 { var i := OncePosition(p, s); }
  }

  lemma FilterLast<T>(p: T -> bool, s: seq<T>, x: T)
    ensures Filter(p, s + [x]) == Filter(p, s) + if p(x) then [x] else []
  {
    assert (s + [x])[..|s|] == s;
  }

  lemma {:induction false} FilterTwice<T>(p: T -> bool, q: T -> bool, s: seq<T>)
    ensures Filter(p, Filter(q, s)) == Filter(Both(p, q), s)
  {
    if s == [] {
    } else {
      var front, last := s[..|s| - 1], s[|s| - 1];
      FilterTwice(p, q, front);
      if q(last) { FilterLast(p, Filter(q, front), last); }
      assert Filter(q, s) == Filter(q, front) + if q(last) then [last] else [];
      assert Filter(q, front) + [] == Filter(q, front);
    }
  }

  lemma {:induction false} FilterPermutation<T>(p: T -> bool, a: seq<T>, b: seq<T>)
    requires Permutation(a, b)
    ensures Permutation(Filter(p, a), Filter(p, b))
    decreases |a|
  {
    PermutationMembers(a, b);
    if a == [] {
    } else {
      var x, rest := a[0], a[1..];
      assert x in b;
      var k :| 0 <= k < |b| && b[k] == x;
      var left, right := b[..k], b[k + 1..];
      assert b == left + [x] + right;
      assert a == [] + [x] + rest && [] + rest == rest;
      MultisetAround(left, x, right);
      MultisetAround([], x, rest);
      RemoveOne(rest, left + right, x, multiset(a));
      FilterPermutation(p, rest, left + right);
      FilterAround(p, left, x, right);
      FilterAround(p, [], x, rest);
    }
  }

  lemma {:induction false} CountMonotone<T>(p: T -> bool, q: T -> bool, s: seq<T>)
    requires forall x :: x in s && p(x) ==> q(x)
    ensures Count(p, s) <= Count(q, s)
  {
    if s == [] {
    } else {
      assert s == s[..|s| - 1] + [s[|s| - 1]];
      CountMonotone(p, q, s[..|s| - 1]);
    }
  }

  function Both<T>(p: T -> bool, q: T -> bool): T -> bool { x => p(x) && q(x) }

  function Only<T>(p: T -> bool, q: T -> bool): T -> bool { x => p(x) && !q(x) }

  lemma CountSame<T>(p: T -> bool, q: T -> bool, s: seq<T>)
    requires forall x :: x in s ==> (p(x) <==> q(x))
    ensures Count(p, s) == Count(q, s)
  {
    CountMonotone(p, q, s);
    CountMonotone(q, p, s);
  }

  lemma {:induction false} CountSplit<T>(p: T -> bool, q: T -> bool, s: seq<T>)
    ensures Count(p, s) == Count(Both(p, q), s) + Count(Only(p, q), s)
  {
    if s == [] {
    } else {
      CountSplit(p, q, s[..|s| - 1]);
    }
  }

  /** Two properties that each have more than half of the r's in s share an element. */
  lemma MajoritiesMeet<T>(p: T -> bool, q: T -> bool, r: T -> bool, s: seq<T>)
    requires forall x :: x in s && (p(x) || q(x)) ==> r(x)
    requires 2 * Count(p, s) > Count(r, s) && 2 * Count(q, s) > Count(r, s)
    ensures exists x :: x in s && p(x) && q(x)
  {
    CountSplit(p, q, s);
    CountSplit(r, q, s);
    CountMonotone(Only(p, q), Only(r, q), s);
    CountMonotone(q, Both(r, q), s);
    FilterMembers(Both(p, q), s);
    var shared := Filter(Both(p, q), s);
    assert |shared| > 0 && shared[0] in shared;
    assert shared[0] in s && Both(p, q)(shared[0]);
  }

  lemma CountAround<T>(p: T -> bool, left: seq<T>, x: T, right: seq<T>)
    ensures Count(p, left + [x] + right) == Count(p, left + right) + if p(x) then 1 else 0
  {
    FilterConcat(p, left + [x], right);
    FilterConcat(p, left, [x]);
    FilterConcat(p, left, right);
    assert [x][..0] == [];
    assert Filter(p, [x]) == if p(x) then [x] else [];
  }

  // ---- Sorting ---------------------------------------------------------------------

  ghost predicate Sorted<T>(s: seq<T>, less: (T, T) -> bool) {
    forall i, j :: 0 <= i < j < |s| ==> less(s[i], s[j])
  }

  /** `less` is a strict total order on dom. */
  ghost predicate OrdersStrictly<T>(dom: set<T>, less: (T, T) -> bool) {
    && (forall x :: x in dom ==> !less(x, x))
    && (forall x, y :: x in dom && y in dom && x != y ==> less(x, y) || less(y, x))
    && (forall x, y, z :: x in dom && y in dom && z in dom && less(x, y) && less(y, z) ==> less(x, z))
  }

  ghost predicate Within<T>(s: seq<T>, dom: set<T>) {
    forall x :: x in s ==> x in dom
  }

  function Insert<T>(x: T, s: seq<T>, less: (T, T) -> bool): (r: seq<T>)
    ensures multiset(r) == multiset(s) + multiset{x}
    ensures |r| == |s| + 1
  {
    if s == [] then [x]
    else if less(x, s[0]) then [x] + s
    else
      assert s == [s[0]] + s[1..];
      [s[0]] + Insert(x, s[1..], less)
  }

  /** The library sort. SortOrderIndependent and SortedUnique show that the algorithm does
      not matter wherever the order is strict and total on the elements. */
  function Sort<T>(s: seq<T>, less: (T, T) -> bool): (r: seq<T>)
    ensures multiset(r) == multiset(s)
    ensures |r| == |s|
  {
    if s == [] then []
    else
      assert s == [s[0]] + s[1..];
      Insert(s[0], Sort(s[1..], less), less)
  }

  lemma {:induction false} InsertSorted<T>(x: T, s: seq<T>, dom: set<T>, less: (T, T) -> bool)
    requires OrdersStrictly(dom, less) && Within(s, dom) && x in dom && x !in s && Sorted(s, less)
    ensures Sorted(Insert(x, s, less), less)
  {
    if s == [] {
    } else if less(x, s[0]) {
      forall j | 0 <= j < |s| ensures less(x, s[j]) {
        assert s[0] in dom && s[j] in dom;
        assert j == 0 || less(s[0], s[j]);
      }
    } else {
      var tail := s[1..];
      InsertSorted(x, tail, dom, less);
      var r := Insert(x, tail, less);
      assert s[0] in dom && less(s[0], x);
      forall j | 0 <= j < |r| ensures less(s[0], r[j]) {
        assert r[j] in multiset(r);
        assert r[j] in multiset(tail) + multiset{x};
        assert r[j] == x || r[j] in tail;
      }
    }
  }

  lemma WithinPermutation<T>(a: seq<T>, b: seq<T>, dom: set<T>)
    requires Permutation(a, b) && Within(a, dom)
    ensures Within(b, dom)
  {
    PermutationMembers(a, b);
  }

  lemma {:induction false} SortSorts<T>(s: seq<T>, dom: set<T>, less: (T, T) -> bool)
    requires OrdersStrictly(dom, less) && Within(s, dom) && Distinct(s)
    ensures Sorted(Sort(s, less), less)
  {
    if s == [] {
    } else {
      var x, rest := s[0], s[1..];
      TailDistinct(s);
      SortSorts(rest, dom, less);
      var t := Sort(rest, less);
      PermutationMembers(rest, t);
      WithinPermutation(rest, t, dom);
      InsertSorted(x, t, dom, less);
    }
  }

  lemma TailPermutation<T>(a: seq<T>, b: seq<T>)
    requires Permutation(a, b) && a != [] && b != [] && a[0] == b[0]
    ensures Permutation(a[1..], b[1..])
  {
    assert a == [a[0]] + a[1..] && b == [b[0]] + b[1..];
    RemoveOne(a[1..], b[1..], a[0], multiset(a));
  }

  lemma {:induction false} SortedUnique<T>(a: seq<T>, b: seq<T>, dom: set<T>, less: (T, T) -> bool)
    requires Permutation(a, b) && Sorted(a, less) && Sorted(b, less)
    requires OrdersStrictly(dom, less) && Within(a, dom)
    ensures a == b
  {
    assert |a| == |multiset(a)| == |multiset(b)| == |b|;
    if a == [] {
    } else {
      SameHead(a, b, dom, less);
      TailPermutation(a, b);
      SortedUnique(a[1..], b[1..], dom, less);
      assert a == [a[0]] + a[1..] && b == [b[0]] + b[1..];
    }
  }

  lemma HeadLeast<T>(s: seq<T>, less: (T, T) -> bool, x: T)
    requires Sorted(s, less) && x in s
    ensures x == s[0] || less(s[0], x)
  {
  }

  lemma SameHead<T>(a: seq<T>, b: seq<T>, dom: set<T>, less: (T, T) -> bool)
    requires Permutation(a, b) && Sorted(a, less) && Sorted(b, less)
    requires OrdersStrictly(dom, less) && Within(a, dom) && a != [] && b != []
    ensures a[0] == b[0]
  {
    PermutationMembers(a, b);
    HeadLeast(a, less, b[0]);
    HeadLeast(b, less, a[0]);
  }

  /** Sorting forgets the order of its input. */
  lemma SortOrderIndependent<T>(a: seq<T>, b: seq<T>, dom: set<T>, less: (T, T) -> bool)
    requires Permutation(a, b) && Distinct(a) && OrdersStrictly(dom, less) && Within(a, dom)
    ensures Sort(a, less) == Sort(b, less)
  {
    PermutationMembers(a, b);
    PermutationDistinct(a, b);
    WithinPermutation(a, b, dom);
    WithinPermutation(a, Sort(a, less), dom);
    SortSorts(a, dom, less);
    SortSorts(b, dom, less);
    SortedUnique(Sort(a, less), Sort(b, less), dom, less);
  }
}
