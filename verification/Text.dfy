/**
 * Strings as the Python sources use them: strip, split on one character, join, compare. Whitespace is Python's, which
 * includes the separators of ASCII and of Unicode; two strings are compared by code point, as `sorted` does it.
 */
module Text {

  /** The characters `str.strip` removes. */
  predicate IsSpace(c: char) {
    var n := c as int;
    9 <= n <= 13 || 28 <= n <= 32 || n == 0x85 || n == 0xA0 || n == 0x1680 || 0x2000 <= n <= 0x200A ||
    n == 0x2028 || n == 0x2029 || n == 0x202F || n == 0x205F || n == 0x3000
  }

  predicate Blank(s: string) {
    forall i :: 0 <= i < |s| ==> IsSpace(s[i])
  }

  /** Nothing left to strip at either end. */
  predicate Trimmed(s: string) {
    s == "" || (!IsSpace(s[0]) && !IsSpace(s[|s| - 1]))
  }

  function LStrip(s: string): (r: string) {
    if s != "" && IsSpace(s[0]) then LStrip(s[1..]) else s
  }

  function RStrip(s: string): (r: string) {
    if s != "" && IsSpace(s[|s| - 1]) then RStrip(s[..|s| - 1]) else s
  }

  function Strip(s: string): (r: string) {
    RStrip(LStrip(s))
  }

  lemma {:induction false} LStripDrops(a: string, m: string)
    requires Blank(a) && (m == "" || !IsSpace(m[0]))
    ensures LStrip(a + m) == m
  {
    if a == "" {
      assert a + m == m;
    } else {
      assert (a + m)[1..] == a[1..] + m;
      LStripDrops(a[1..], m);
    }
  }

  lemma {:induction false} RStripDrops(m: string, b: string)
    requires Blank(b) && (m == "" || !IsSpace(m[|m| - 1]))
    ensures RStrip(m + b) == m
  {
    if b == "" {
      assert m + b == m;
    } else {
      assert (m + b)[..|m + b| - 1] == m + b[..|b| - 1];
      RStripDrops(m, b[..|b| - 1]);
    }
  }

  /** Blank text around a trimmed core is exactly what `Strip` removes. */
  lemma StripOf(a: string, m: string, b: string)
    requires Blank(a) && Blank(b) && Trimmed(m)
    ensures Strip(a + m + b) == m
  {
    if m == "" {
      assert a + m + b == (a + b) + "";
      LStripDrops(a + b, "");
    } else {
      assert a + m + b == a + (m + b);
      LStripDrops(a, m + b);
      RStripDrops(m, b);
    }
  }

  lemma OneMoreBefore(s: string, a: string, m: string, b: string)
    requires s != "" && s[1..] == a + m + b
    ensures s == ([s[0]] + a) + m + b
  {
    assert s == [s[0]] + s[1..];
  }

  lemma OneMoreAfter(s: string, a: string, m: string, b: string)
    requires s != "" && s[..|s| - 1] == a + m + b
    ensures s == a + m + (b + [s[|s| - 1]])
  {
    assert s == s[..|s| - 1] + [s[|s| - 1]];
  }

  /** Every string is blank text, a trimmed core and blank text; the core is `Strip(s)`. */
  lemma {:induction false} StripParts(s: string) returns (a: string, b: string)
    ensures Blank(a) && Blank(b) && Trimmed(Strip(s)) && s == a + Strip(s) + b
  {
    if Trimmed(s) {
      a, b := "", "";
      StripOf(a, s, b);
      assert a + s + b == s;
    } else if IsSpace(s[0]) {
      var m := Strip(s[1..]);
      a, b := StripParts(s[1..]);
      OneMoreBefore(s, a, m, b);
      a := [s[0]] + a;
      StripOf(a, m, b);
    } else {
      var n := |s| - 1;
      var m := Strip(s[..n]);
      a, b := StripParts(s[..n]);
      OneMoreAfter(s, a, m, b);
      b := b + [s[n]];
      StripOf(a, m, b);
    }
  }

  /** Blank text added at either end never changes what `Strip` leaves. */
  lemma StripPadded(a: string, s: string, b: string)
    requires Blank(a) && Blank(b)
    ensures Strip(a + s + b) == Strip(s)
  {
    var a', b' := StripParts(s);
    assert a + s + b == (a + a') + Strip(s) + (b' + b);
    StripOf(a + a', Strip(s), b' + b);
  }

  // ---------------------------------------------------------------- split and join

  /** `s.split(c)` for a one-character separator. */
  function Split(s: string, c: char): (r: seq<string>)
    ensures |r| >= 1
    ensures forall p :: p in r ==> c !in p
  {
    if s == "" then [""]
    else if s[0] == c then [""] + Split(s[1..], c)
    else var r := Split(s[1..], c); [[s[0]] + r[0]] + r[1..]
  }

  /** A separator-free prefix only extends the first piece. */
  lemma {:induction false} SplitPrefix(a: string, s: string, c: char)
    requires c !in a
    ensures Split(a + s, c) == [a + Split(s, c)[0]] + Split(s, c)[1..]
  {
    if a == "" {
      assert a + s == s;
      var r := Split(s, c);
      assert "" + r[0] == r[0] && [r[0]] + r[1..] == r;
    } else {
      assert (a + s)[1..] == a[1..] + s;
      SplitPrefix(a[1..], s, c);
      var h := Split(s, c)[0];
      assert [a[0]] + (a[1..] + h) == a + h;
    }
  }

  /** Splitting at a separator that follows a separator-free prefix. */
  lemma SplitAt(a: string, s: string, c: char)
    requires c !in a
    ensures Split(a + [c] + s, c) == [a] + Split(s, c)
  {
    assert a + [c] + s == a + ([c] + s);
    assert ([c] + s)[1..] == s;
    SplitPrefix(a, [c] + s, c);
    assert a + "" == a;
  }

  lemma {:induction false} SplitNone(a: string, c: char)
    requires c !in a
    ensures Split(a, c) == [a]
  {
    SplitPrefix(a, "", c);
    assert a + "" == a;
  }

  lemma ExtendLast(q: seq<string>, h: string, b: string)
    requires q != []
    ensures [h + q[0]] + q[1..] != []
    ensures var (p, r) := (q[..|q| - 1] + [q[|q| - 1] + b], [h + q[0]] + q[1..]);
            [h + p[0]] + p[1..] == r[..|r| - 1] + [r[|r| - 1] + b]
  {
    assert (h + q[0]) + b == h + (q[0] + b);
  }

  /** A separator-free suffix only extends the last piece. */
  lemma {:induction false} SplitSuffix(s: string, b: string, c: char)
    requires c !in b
    ensures var r := Split(s, c); Split(s + b, c) == r[..|r| - 1] + [r[|r| - 1] + b]
  {
    if s == "" {
      assert s + b == b;
      SplitNone(b, c);
      assert "" + b == b;
    } else {
      assert (s + b)[1..] == s[1..] + b;
      SplitSuffix(s[1..], b, c);
      if s[0] != c { ExtendLast(Split(s[1..], c), [s[0]], b); }
    }
  }

  /** `sep.join(parts)`. */
  function Join(parts: seq<string>, sep: string): (r: string) {
    if |parts| == 0 then ""
    else if |parts| == 1 then parts[0]
    else parts[0] + sep + Join(parts[1..], sep)
  }

  /** `needle in s`. */
  predicate Contains(s: string, needle: string) {
    exists i :: 0 <= i <= |s| && needle <= s[i..]
  }

  // ---------------------------------------------------------------- comparison

  /** `a <= b` on strings: by code point, shorter first. */
  predicate StrLeq(a: string, b: string) {
    a == "" || (b != "" && (a[0] < b[0] || (a[0] == b[0] && StrLeq(a[1..], b[1..]))))
  }

  lemma {:induction false} StrLeqTotal(a: string, b: string)
    ensures StrLeq(a, b) || StrLeq(b, a)
  {
    if a != "" && b != "" && a[0] == b[0] { StrLeqTotal(a[1..], b[1..]); }
  }

  lemma {:induction false} StrLeqAntisymmetric(a: string, b: string)
    requires StrLeq(a, b) && StrLeq(b, a)
    ensures a == b
  {
    if a != "" && b != "" {
      StrLeqAntisymmetric(a[1..], b[1..]);
      assert a == [a[0]] + a[1..] && b == [b[0]] + b[1..];
    }
  }

  lemma {:induction false} StrLeqTransitive(a: string, b: string, c: string)
    requires StrLeq(a, b) && StrLeq(b, c)
    ensures StrLeq(a, c)
  {
    if a != "" && a[0] == b[0] && b[0] == c[0] { StrLeqTransitive(a[1..], b[1..], c[1..]); }
  }
}
