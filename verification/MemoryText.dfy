/**
 * The memory document as text: its entries are separated by a line with a section sign. Both stores parse it, join it
 * and measure it, and check it for injected instructions; this is what those operations do to any text whatever.
 */
module MemoryText {
  import opened Sequences
  import opened Text

  const SECTION: char := '\U{A7}'
  const DELIMITER: string := "\n\U{A7}\n"

  /** Strip every piece and drop the empty ones. */
  function Clean(pieces: seq<string>): (r: seq<string>)
    ensures forall e :: e in r ==> e != ""
  {
    if pieces == [] then []
    else (if Strip(pieces[0]) == "" then [] else [Strip(pieces[0])]) + Clean(pieces[1..])
  }

  /** `MemoryStore.entries`: the file text is stripped before it is split. */
  function LocalEntries(raw: string): (r: seq<string>) {
    if Strip(raw) == "" then [] else Clean(Split(Strip(raw), SECTION))
  }

  /** `_split_entries`: the document body is split as stored. */
  function CloudEntries(body: string): (r: seq<string>) {
    if body == "" then [] else Clean(Split(body, SECTION))
  }

  function JoinEntries(entries: seq<string>): (r: string) {
    Join(entries, DELIMITER)
  }

  function SumLengths(entries: seq<string>): (r: nat) {
    if entries == [] then 0 else |entries[0]| + SumLengths(entries[1..])
  }

  /** `total_chars`: the lengths plus one delimiter between neighbours. */
  function TotalChars(entries: seq<string>): (r: nat) {
    SumLengths(entries) + (if entries == [] then 0 else (|entries| - 1) * |DELIMITER|)
  }

  predicate SectionFree(s: string) {
    SECTION !in s
  }

  predicate AllSectionFree(entries: seq<string>) {
    forall e :: e in entries ==> SectionFree(e)
  }

  // ---------------------------------------------------------------- parsing

  lemma {:induction false} CleanAppend(a: seq<string>, b: seq<string>)
    ensures Clean(a + b) == Clean(a) + Clean(b)
  {
    if a == [] {
      assert a + b == b;
    } else {
      assert (a + b)[1..] == a[1..] + b;
      CleanAppend(a[1..], b);
    }
  }

  lemma BlankIsSectionFree(s: string)
    requires Blank(s)
    ensures SectionFree(s)
  {
  }

  lemma {:induction false} CleanAfterPrefix(a: string, s: string)
    requires Blank(a)
    ensures Clean(Split(a + s, SECTION)) == Clean(Split(s, SECTION))
  {
    BlankIsSectionFree(a);
    SplitPrefix(a, s, SECTION);
    var r := Split(s, SECTION);
    StripPadded(a, r[0], "");
    assert a + r[0] + "" == a + r[0];
  }

  lemma {:induction false} CleanBeforeSuffix(s: string, b: string)
    requires Blank(b)
    ensures Clean(Split(s + b, SECTION)) == Clean(Split(s, SECTION))
  {
    BlankIsSectionFree(b);
    SplitSuffix(s, b, SECTION);
    var r := Split(s, SECTION);
    var n := |r| - 1;
    StripPadded("", r[n], b);
    assert "" + r[n] + b == r[n] + b;
    CleanAppend(r[..n], [r[n] + b]);
    CleanAppend(r[..n], [r[n]]);
    assert r[..n] + [r[n]] == r;
  }

  lemma {:induction false} CleanPadded(a: string, s: string, b: string)
    requires Blank(a) && Blank(b)
    ensures Clean(Split(a + (s + b), SECTION)) == Clean(Split(s, SECTION))
  {
    CleanAfterPrefix(a, s + b);
    CleanBeforeSuffix(s, b);
  }

  lemma NothingToClean()
    ensures Clean(Split("", SECTION)) == []
  {
    StripOf("", "", "");
  }

  /** The local and the cloud parser read the same entries from every text. */
  lemma ParsersAgree(raw: string)
    ensures LocalEntries(raw) == CloudEntries(raw)
  {
    var a, b := StripParts(raw);
    Assoc(a, Strip(raw), b);
    CleanPadded(a, Strip(raw), b);
    NothingToClean();
  }

  /** Parsing a joined list gives back its entries, stripped. */
  lemma {:induction false} ParseJoined(entries: seq<string>)
    requires AllSectionFree(entries)
    ensures Clean(Split(JoinEntries(entries), SECTION)) == Clean(entries)
  {
    if |entries| == 0 {
      NothingToClean();
    } else if |entries| == 1 {
      assert SectionFree(entries[0]);
      SplitNone(entries[0], SECTION);
      assert [entries[0]] == entries;
    } else {
      var e, rest := entries[0], JoinEntries(entries[1..]);
      assert SectionFree(e);
      assert JoinEntries(entries) == (e + "\n") + [SECTION] + ("\n" + rest);
      SplitAt(e + "\n", "\n" + rest, SECTION);
      StripPadded("", e, "\n");
      assert "" + e + "\n" == e + "\n";
      CleanAfterPrefix("\n", rest);
      ParseJoined(entries[1..]);
    }
  }

  /** `Clean` changes nothing in a list of trimmed, non-empty entries. */
  lemma {:induction false} CleanIdle(entries: seq<string>)
    requires forall e :: e in entries ==> Trimmed(e) && e != ""
    ensures Clean(entries) == entries
  {
    if entries != [] {
      StripOf("", entries[0], "");
      assert "" + entries[0] + "" == entries[0];
      CleanIdle(entries[1..]);
      assert entries == [entries[0]] + entries[1..];
    }
  }

  /** Every parsed entry is a trimmed, non-empty slice of one piece. */
  lemma {:induction false} CleanMember(pieces: seq<string>, e: string) returns (k: nat, i: nat)
    requires e in Clean(pieces)
    ensures k < |pieces| && i + |e| <= |pieces[k]| && pieces[k][i..i + |e|] == e && Trimmed(e) && e != ""
  {
    var a, b := StripParts(pieces[0]);
    if Strip(pieces[0]) == e {
      k, i := 0, |a|;
    } else {
      k, i := CleanMember(pieces[1..], e);
      k := k + 1;
    }
  }

  lemma SliceOfTail(s: string, i: nat, n: nat)
    requires s != "" && i + n <= |s| - 1
    ensures s[1..][i..i + n] == s[i + 1..i + 1 + n]
    ensures i == 0 ==> s[..n + 1] == [s[0]] + s[1..][..n]
  {
  }

  /** Every piece of a split is a slice of the whole. */
  lemma {:induction false} PieceIsSlice(s: string, k: nat) returns (i: nat)
    requires k < |Split(s, SECTION)|
    ensures var p := Split(s, SECTION)[k]; i + |p| <= |s| && s[i..i + |p|] == p
    ensures k == 0 ==> i == 0
  {
    if s == "" || (k == 0 && s[0] == SECTION) {
      i := 0;
    } else if s[0] == SECTION {
      i := PieceIsSlice(s[1..], k - 1);
      SliceOfTail(s, i, |Split(s, SECTION)[k]|);
      i := i + 1;
    } else {
      i := PieceIsSlice(s[1..], k);
      SliceOfTail(s, i, |Split(s[1..], SECTION)[k]|);
      i := if k == 0 then 0 else i + 1;
    }
  }

  // ---------------------------------------------------------------- size

  /** `total_chars` is the length of the joined text. */
  lemma {:induction false} TotalIsJoinedLength(entries: seq<string>)
    ensures |JoinEntries(entries)| == TotalChars(entries)
  {
    if |entries| == 1 {
      assert SumLengths(entries[1..]) == 0;
    } else if |entries| > 1 {
      TotalIsJoinedLength(entries[1..]);
    }
  }

  lemma {:induction false} SumLengthsAppend(a: seq<string>, b: seq<string>)
    ensures SumLengths(a + b) == SumLengths(a) + SumLengths(b)
  {
    if a == [] {
      assert a + b == b;
    } else {
      assert (a + b)[1..] == a[1..] + b;
      SumLengthsAppend(a[1..], b);
    }
  }

  lemma TotalWithoutOne(entries: seq<string>, k: nat)
    requires k < |entries|
    ensures TotalChars(entries[..k] + entries[k + 1..]) <= TotalChars(entries)
  {
    SumLengthsAppend(entries[..k], entries[k + 1..]);
    SumLengthsAppend(entries[..k], entries[k..]);
    assert entries == entries[..k] + entries[k..] && entries[k..][1..] == entries[k + 1..];
  }

  lemma {:induction false} CleanShortens(entries: seq<string>)
    ensures |Clean(entries)| <= |entries| && SumLengths(Clean(entries)) <= SumLengths(entries)
  {
    if entries != [] {
      var a, b := StripParts(entries[0]);
      CleanShortens(entries[1..]);
      if Strip(entries[0]) != "" {
        assert Clean(entries)[1..] == Clean(entries[1..]);
      } else {
        assert Clean(entries) == Clean(entries[1..]);
      }
    }
  }

  // ---------------------------------------------------------------- the injection check

  /** `check_untrusted` rejects `s`: some slice is in the match language `bad`. */
  predicate Unsafe(bad: string -> bool, s: string) {
    exists i, j :: 0 <= i <= j <= |s| && bad(s[i..j])
  }

  /** All the patterns match only text that is trimmed, non-empty and free of the section sign. */
  ghost predicate WellBehaved(bad: string -> bool) {
    forall m: string :: bad(m) ==> m != "" && Trimmed(m) && SectionFree(m)
  }

  lemma UnsafeSlice(bad: string -> bool, s: string, i: nat, n: nat)
    requires i + n <= |s| && Unsafe(bad, s[i..i + n])
    ensures Unsafe(bad, s)
  {
    var t := s[i..i + n];
    var x, y :| 0 <= x <= y <= |t| && bad(t[x..y]);
    assert |t[x..y]| == |s[i + x..i + y]|;
    assert forall k :: 0 <= k < y - x ==> t[x..y][k] == s[i + x + k] == s[i + x..i + y][k];
    assert t[x..y] == s[i + x..i + y];
  }

  lemma UnsafePiece(bad: string -> bool, s: string, k: nat)
    requires k < |Split(s, SECTION)| && Unsafe(bad, Split(s, SECTION)[k])
    ensures Unsafe(bad, s)
  {
    var i := PieceIsSlice(s, k);
    UnsafeSlice(bad, s, i, |Split(s, SECTION)[k]|);
  }

  lemma UnsafeEntryUnsafePiece(bad: string -> bool, pieces: seq<string>, e: string) returns (k: nat)
    requires e in Clean(pieces) && Unsafe(bad, e)
    ensures k < |pieces| && Unsafe(bad, pieces[k])
  {
    var piece, i := CleanMember(pieces, e);
    k := piece;
    UnsafeSlice(bad, pieces[k], i, |e|);
  }

  lemma UnsafeEntryUnsafeBody(bad: string -> bool, body: string, e: string)
    requires e in CloudEntries(body) && Unsafe(bad, e)
    ensures Unsafe(bad, body)
  {
    var k := UnsafeEntryUnsafePiece(bad, Split(body, SECTION), e);
    UnsafePiece(bad, body, k);
  }

  /** A trimmed stretch without a section sign ends before a delimiter at `d` or starts after it. */
  lemma MatchAvoids(s: string, d: nat, i: nat, j: nat)
    requires d + |DELIMITER| <= |s| && s[d] == '\n' && s[d + 1] == SECTION && s[d + 2] == '\n'
    requires i < j <= |s| && Trimmed(s[i..j]) && SectionFree(s[i..j])
    ensures j <= d || d + |DELIMITER| <= i
  {
    var m := s[i..j];
    assert m[0] == s[i] && m[|m| - 1] == s[j - 1];
    forall k | i <= k < j ensures s[k] != SECTION { assert m[k - i] == s[k]; }
  }

  /** A match cannot span a delimiter: it sits in the first entry or in the rest. */
  lemma MatchWithinOneSide(bad: string -> bool, e: string, rest: string)
    requires WellBehaved(bad) && Unsafe(bad, e + DELIMITER + rest)
    ensures Unsafe(bad, e) || Unsafe(bad, rest)
  {
    var s := e + DELIMITER + rest;
    var i, j :| 0 <= i <= j <= |s| && bad(s[i..j]);
    MatchAvoids(s, |e|, i, j);
    if j <= |e| {
      assert s[i..j] == e[i..j];
    } else {
      var o := |e| + |DELIMITER|;
      assert s[o..] == rest;
      assert s[o..][i - o..j - o] == s[i..j];
    }
  }

  lemma UnsafeSides(bad: string -> bool, e: string, rest: string)
    requires WellBehaved(bad)
    ensures Unsafe(bad, e + DELIMITER + rest) <==> Unsafe(bad, e) || Unsafe(bad, rest)
  {
    var (s, o) := (e + DELIMITER + rest, |e| + |DELIMITER|);
    if Unsafe(bad, s) { MatchWithinOneSide(bad, e, rest); }
    assert s[0..0 + |e|] == e && s[o..o + |rest|] == rest;
    if Unsafe(bad, e) { UnsafeSlice(bad, s, 0, |e|); }
    if Unsafe(bad, rest) { UnsafeSlice(bad, s, o, |rest|); }
  }

  /** A joined body is unsafe exactly when one of its entries is. */
  lemma {:induction false} JoinedUnsafe(bad: string -> bool, entries: seq<string>)
    requires WellBehaved(bad)
    ensures Unsafe(bad, JoinEntries(entries)) <==> exists e :: e in entries && Unsafe(bad, e)
  {
    if |entries| == 0 {
      assert forall i, j :: 0 <= i <= j <= 0 ==> ""[i..j] == "";
    } else if |entries| == 1 {
      assert entries[0] in entries && forall e :: e in entries ==> e == entries[0];
    } else {
      var e, rest := entries[0], JoinEntries(entries[1..]);
      JoinedUnsafe(bad, entries[1..]);
      UnsafeSides(bad, e, rest);
      assert entries == [e] + entries[1..];
      assert e in entries && forall x :: x in entries[1..] ==> x in entries;
    }
  }
}
