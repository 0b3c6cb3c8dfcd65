/** The order of strings that the sorts compare by is the one of a dictionary. */
module Dictionary {
  import opened Text

  /** `a` comes before `b` in a dictionary: at the first difference it is smaller, or it ends there. */
  ghost predicate Precedes(a: string, b: string) {
    exists k: nat :: DifferAt(a, b, k)
  }

  predicate DifferAt(a: string, b: string, k: nat) {
    k <= |a| && k < |b| && a[..k] == b[..k] && (k < |a| ==> a[k] < b[k])
  }

  lemma {:induction false} LeqIsDictionaryOrder(a: string, b: string)
    ensures StrLeq(a, b) <==> a == b || Precedes(a, b)
  {
    if a == "" {
      if b != "" { assert DifferAt(a, b, 0); }
    } else if b != "" && a[0] == b[0] {
      LeqIsDictionaryOrder(a[1..], b[1..]);
      assert a == b <==> a[1..] == b[1..] by { assert a == [a[0]] + a[1..] && b == [b[0]] + b[1..]; }
      TailsDiffer(a, b);
    } else if b != "" && a[0] < b[0] {
      assert DifferAt(a, b, 0);
    } else {
      forall k: nat ensures !DifferAt(a, b, k) { if k > 0 && k <= |a| && k <= |b| { assert a[..k][0] == a[0]; } }
    }
  }

  lemma {:induction false} TailsDiffer(a: string, b: string)
    requires a != "" && b != "" && a[0] == b[0]
    ensures Precedes(a, b) <==> Precedes(a[1..], b[1..])
  {
    if k: nat :| DifferAt(a, b, k) {
      assert k > 0;
      assert a[1..][..k - 1] == a[..k][1..] && b[1..][..k - 1] == b[..k][1..];
      assert DifferAt(a[1..], b[1..], k - 1);
    }
    if k: nat :| DifferAt(a[1..], b[1..], k) {
      assert a[..k + 1] == [a[0]] + a[1..][..k] && b[..k + 1] == [b[0]] + b[1..][..k];
      assert DifferAt(a, b, k + 1);
    }
  }
}
