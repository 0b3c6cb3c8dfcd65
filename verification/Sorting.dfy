/**
 * Python's stable `sorted`, as an insertion sort over a caller-supplied order. The order is any total preorder, since
 * sort keys may tie; where no two elements tie there is only one sorted arrangement, whatever order they came in.
 */
module Sorting {

  /** A total preorder: every key comparison `sorted` is given here is one. */
  ghost predicate TotalPreorder<T(!new)>(leq: (T, T) -> bool) {
    && (forall x, y :: leq(x, y) || leq(y, x))
    && (forall x, y, z :: leq(x, y) && leq(y, z) ==> leq(x, z))
  }

  ghost predicate Sorted<T>(xs: seq<T>, leq: (T, T) -> bool) {
    forall i, j :: 0 <= i < j < |xs| ==> leq(xs[i], xs[j])
  }

  /** Puts `x` before the first element it does not exceed. */
  function Insert<T>(x: T, xs: seq<T>, leq: (T, T) -> bool): (r: seq<T>) {
    if xs == [] || leq(x, xs[0]) then [x] + xs else [xs[0]] + Insert(x, xs[1..], leq)
  }

  function Sort<T>(xs: seq<T>, leq: (T, T) -> bool): (r: seq<T>) {
    if xs == [] then [] else Insert(xs[0], Sort(xs[1..], leq), leq)
  }

  lemma {:induction false} InsertPermutes<T>(x: T, xs: seq<T>, leq: (T, T) -> bool)
    ensures multiset(Insert(x, xs, leq)) == multiset{x} + multiset(xs)
  {
    if xs != [] && !leq(x, xs[0]) {
      InsertPermutes(x, xs[1..], leq);
      assert xs == [xs[0]] + xs[1..];
    }
  }

  lemma {:induction false} InsertSorted<T(!new)>(x: T, xs: seq<T>, leq: (T, T) -> bool)
    requires TotalPreorder(leq) && Sorted(xs, leq)
    ensures Sorted(Insert(x, xs, leq), leq)
  {
    if xs != [] && !leq(x, xs[0]) {
      InsertSorted(x, xs[1..], leq);
      InsertPermutes(x, xs[1..], leq);
      var r := Insert(x, xs[1..], leq);
      forall k | 0 <= k < |r| ensures leq(xs[0], r[k]) {
        assert r[k] in multiset(r);
        if r[k] != x { assert r[k] in xs[1..]; }
      }
    }
  }

  /** The result holds the same elements, as often, in non-descending order. */
  lemma {:induction false} SortSpec<T(!new)>(xs: seq<T>, leq: (T, T) -> bool)
    requires TotalPreorder(leq)
    ensures multiset(Sort(xs, leq)) == multiset(xs) && Sorted(Sort(xs, leq), leq)
    ensures |Sort(xs, leq)| == |xs|
  {
    if xs != [] {
      SortSpec(xs[1..], leq);
      InsertPermutes(xs[0], Sort(xs[1..], leq), leq);
      InsertSorted(xs[0], Sort(xs[1..], leq), leq);
      assert xs == [xs[0]] + xs[1..];
    }
    assert |multiset(Sort(xs, leq))| == |multiset(xs)|;
  }

  lemma SortMembers<T(!new)>(xs: seq<T>, leq: (T, T) -> bool, x: T)
    requires TotalPreorder(leq)
    ensures x in Sort(xs, leq) <==> x in xs
  {
    SortSpec(xs, leq);
    assert x in multiset(Sort(xs, leq)) <==> x in multiset(xs);
  }

  lemma SortedFirst<T(!new)>(xs: seq<T>, leq: (T, T) -> bool)
    requires TotalPreorder(leq) && Sorted(xs, leq)
    ensures forall x :: x in xs ==> leq(xs[0], x)
  {
    forall x | x in xs ensures leq(xs[0], x) {
      var i :| 0 <= i < |xs| && xs[i] == x;
    }
  }

  /** Cutting a sorted sequence: nothing in the second part comes before anything in the first. */
  lemma {:induction false} SortedSplits<T>(xs: seq<T>, n: nat, leq: (T, T) -> bool)
    requires n <= |xs| && Sorted(xs, leq)
    ensures Sorted(xs[..n], leq) && multiset(xs[..n]) + multiset(xs[n..]) == multiset(xs)
    ensures forall i, j :: 0 <= i < |xs[..n]| && 0 <= j < |xs[n..]| ==> leq(xs[..n][i], xs[n..][j])
  {
    assert xs == xs[..n] + xs[n..];
  }

  /** Elements of `xs` tie only with themselves. */
  ghost predicate NoTies<T>(xs: seq<T>, leq: (T, T) -> bool) {
    forall x, y :: x in xs && y in xs && leq(x, y) && leq(y, x) ==> x == y
  }

  lemma SameBagNoTies<T>(a: seq<T>, b: seq<T>, leq: (T, T) -> bool)
    requires multiset(a) == multiset(b) && NoTies(a, leq)
    ensures NoTies(b, leq)
  {
    forall x | x in b ensures x in a { assert x in multiset(b); }
  }

  lemma SortedHead<T(!new)>(a: seq<T>, b: seq<T>, leq: (T, T) -> bool)
    requires a != [] && b != [] && a[0] in b && b[0] in a
    requires Sorted(a, leq) && Sorted(b, leq) && NoTies(a, leq)
    ensures a[0] == b[0]
  {
    var i :| 0 <= i < |b| && b[i] == a[0];
    var j :| 0 <= j < |a| && a[j] == b[0];
    if i != 0 && j != 0 {
      assert leq(b[0], b[i]) && leq(a[0], a[j]);
    }
  }

  lemma TailBag<T>(a: seq<T>, b: seq<T>)
    requires a != [] && b != [] && a[0] == b[0] && multiset(a) == multiset(b)
    ensures multiset(a[1..]) == multiset(b[1..])
  {
    assert a == [a[0]] + a[1..] && b == [b[0]] + b[1..];
    assert multiset(a[1..]) == multiset(a) - multiset{a[0]};
    assert multiset(b[1..]) == multiset(b) - multiset{b[0]};
  }

  lemma TailSorted<T>(a: seq<T>, leq: (T, T) -> bool)
    requires a != [] && Sorted(a, leq) && NoTies(a, leq)
    ensures Sorted(a[1..], leq) && NoTies(a[1..], leq)
  {
    assert forall x :: x in a[1..] ==> x in a;
  }

  /** Elements that only tie with themselves leave one sorted arrangement. */
  lemma {:induction false} SortedUnique<T(!new)>(a: seq<T>, b: seq<T>, leq: (T, T) -> bool)
    requires multiset(a) == multiset(b) && Sorted(a, leq) && Sorted(b, leq) && NoTies(a, leq)
    ensures a == b
    decreases |a|
  {
    assert |a| == |multiset(a)| == |multiset(b)| == |b|;
    if a != [] {
      assert a[0] in multiset(b) && b[0] in multiset(a);
      SortedHead(a, b, leq);
      TailBag(a, b);
      TailSorted(a, leq);
      SameBagNoTies(a, b, leq);
      TailSorted(b, leq);
      SortedUnique(a[1..], b[1..], leq);
      assert a == [a[0]] + a[1..] && b == [b[0]] + b[1..];
    }
  }
}
