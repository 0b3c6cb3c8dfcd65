/**
 * Facts about sequences that the proofs name instead of leaving to the solver. Concatenation is associative and cutting
 * undoes it, but the solver looks for such equalities only where it is told to; naming them keeps each proof short.
 */
module Sequences {

  lemma AppendNil<T>(a: seq<T>)
    ensures a + [] == a
  {
  }

  lemma Assoc<T>(a: seq<T>, b: seq<T>, c: seq<T>)
    ensures (a + b) + c == a + (b + c)
  {
  }

  /** Cutting an element off the end of what it was appended to. */
  lemma InitLast<T>(a: seq<T>, x: T)
    ensures (a + [x])[..|a + [x]| - 1] == a && (a + [x])[|a + [x]| - 1] == x && |a + [x]| == |a| + 1
  {
  }

  lemma AppendLast<T>(a: seq<T>)
    requires a != []
    ensures a == a[..|a| - 1] + [a[|a| - 1]]
  {
  }

  lemma CutAround<T>(a: seq<T>, i: nat)
    requires i < |a|
    ensures a == a[..i] + ([a[i]] + a[i + 1..])
  {
  }

  lemma DropOfTail<T>(a: seq<T>, n: nat)
    requires 0 < n <= |a|
    ensures a[1..][n - 1..] == a[n..]
  {
  }

  lemma CountAppend<T>(xs: seq<T>, x: T, y: T)
    ensures multiset(xs + [x])[y] == multiset(xs)[y] + if x == y then 1 else 0
  {
  }
}
