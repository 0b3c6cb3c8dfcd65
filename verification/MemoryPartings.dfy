/**
 * Notes with section signs, after which the two memory stores part. Such a note is re-read as several entries, and
 * the text they are saved as can outgrow the repository's limit, which the file store does not have.
 */
module MemoryPartings {
  import opened Memory
  import opened MemoryAgreement
  import opened MemoryText
  import opened Text

  /** "b§a§a...": one note that re-reads as `m + 1` entries. */
  function Splitting(m: nat): (r: string) {
    if m == 0 then "b" else Splitting(m - 1) + [SECTION] + "a"
  }

  /** The entries "b§a§a..." reads as: one "b", then `m` times "a". */
  function Pieces(m: nat): (r: seq<string>) {
    if m == 0 then ["b"] else Pieces(m - 1) + ["a"]
  }

  lemma {:induction false} PiecesShape(m: nat)
    ensures |Pieces(m)| == m + 1 && Pieces(m)[0] == "b" && forall k :: 1 <= k <= m ==> Pieces(m)[k] == "a"
    ensures SumLengths(Pieces(m)[1..]) == m
  {
    if m > 0 {
      PiecesShape(m - 1);
      SumLengthsAppend(Pieces(m - 1)[1..], ["a"]);
      assert Pieces(m)[1..] == Pieces(m - 1)[1..] + ["a"];
      assert SumLengths(["a"]) == 1 + SumLengths(["a"][1..]);
    }
  }

  lemma {:induction false} SplittingReadsAs(m: nat)
    ensures |Splitting(m)| == 2 * m + 1 && Splitting(m)[0] == 'b' && Split(Splitting(m), SECTION) == Pieces(m)
  {
    if m == 0 {
      SplitNone("b", SECTION);
    } else {
      SplittingReadsAs(m - 1);
      SplitLast(Splitting(m - 1), "a");
    }
  }

  lemma OneLetter(s: string, c: char)
    requires |s| == 1
    ensures Contains(s, [c]) <==> s[0] == c
  {
    if s[0] == c {
      assert [c] <= s[0..];
    } else {
      forall i | 0 <= i <= |s| ensures !([c] <= s[i..]) {
        assert i == 0 ==> s[i..][0] == s[0];
      }
    }
  }

  lemma MatchesMore(entries: seq<string>, e: string, sub: string)
    ensures Matches(entries + [e], sub) == Matches(entries, sub) + (if Contains(e, sub) then [|entries|] else [])
  {
    assert (entries + [e])[..|entries|] == entries;
  }

  /** Only the first of the pieces contains "b". */
  lemma {:induction false} OnlyFirstMatches(m: nat)
    ensures Matches(Pieces(m), ['b']) == [0]
  {
    OneLetter("a", 'b');
    OneLetter("b", 'b');
    if m == 0 {
      assert Pieces(m) == [] + ["b"];
      MatchesMore([], "b", ['b']);
    } else {
      PiecesShape(m - 1);
      OnlyFirstMatches(m - 1);
      MatchesMore(Pieces(m - 1), "a", ['b']);
    }
  }

  lemma {:induction false} SplitLast(s: string, a: string)
    requires SectionFree(a)
    ensures Split(s + [SECTION] + a, SECTION) == Split(s, SECTION) + [a]
  {
    if s == "" {
      SplitAt("", a, SECTION);
      SplitNone(a, SECTION);
      assert s + [SECTION] + a == "" + [SECTION] + a;
    } else {
      assert (s + [SECTION] + a)[1..] == s[1..] + [SECTION] + a;
      SplitLast(s[1..], a);
    }
  }

  /** Such a note passes every check of an add to an empty store. */
  lemma SplittingIsSaved(bad: string -> bool, m: nat)
    requires 2 * m + 1 <= CharLimit(Notes) && !Unsafe(bad, Splitting(m))
    ensures Decide(bad, CharLimit(Notes), [], Op.Add(Splitting(m))) == Save([Splitting(m)])
  {
    var note := Splitting(m);
    SplittingReadsAs(m);
    var a, b := StripParts(note);
    assert Strip(note) != "";
    TotalWithOneMore([], note);
    assert [] + [note] == [note];
  }

  lemma PiecesIdle(m: nat)
    ensures Clean(Pieces(m)) == Pieces(m)
  {
    PiecesShape(m);
    CleanIdle(Pieces(m));
  }

  /** Both stores then read it as those pieces, and removing the first would overflow the repository. */
  lemma SplittingOverflows(m: nat)
    requires m + 3 * (m - 1) > RepoLimit(Notes)
    ensures CloudEntries(Splitting(m)) == Pieces(m) && RemovalOverflows(Notes, Pieces(m), Op.Remove("b"))
  {
    SplittingReadsAs(m);
    PiecesIdle(m);
    PiecesOverflow(m, Pieces(m));
  }

  lemma PiecesOverflow(m: nat, pieces: seq<string>)
    requires m + 3 * (m - 1) > RepoLimit(Notes) && pieces == Pieces(m)
    ensures RemovalOverflows(Notes, pieces, Op.Remove("b"))
  {
    PiecesShape(m);
    OnlyFirstMatches(m);
    assert pieces[..0] + pieces[0 + 1..] == pieces[1..];
    assert TotalChars(pieces[1..]) == m + (m - 1) * 3;
  }

  /**
   * With a section sign in a note the stores can part: after "b§a§a..." (601 to 1099 times "§a") is stored by
   * both, removing "b" is accepted by the file store and refused by the repository, whose rewritten body is too long.
   */
  lemma {:induction false} SectionSignParts(bad: string -> bool, m: nat)
    requires 601 <= m <= 1099 && WellBehaved(bad) && !Unsafe(bad, Splitting(m))
    ensures var (raw, doc) := (LocalApply(bad, Notes, "", Op.Add(Splitting(m))).1,
                               CloudApply(bad, Notes, Doc("", 0), Op.Add(Splitting(m))).1);
            && LocalApply(bad, Notes, raw, Op.Remove("b")).0 == Done
            && CloudApply(bad, Notes, doc, Op.Remove("b")) == (Full, doc)
  {
    AgreedStart(bad, Notes);
    SplittingIsSaved(bad, m);
    var add := Op.Add(Splitting(m));
    var raw, doc := LocalApply(bad, Notes, "", add).1, CloudApply(bad, Notes, Doc("", 0), add).1;
    StepsAgree(bad, Notes, "", Doc("", 0), add);
    SplittingReadsAs(m);
    assert doc.body == Splitting(m);
    SplittingOverflows(m);
    StepsAgree(bad, Notes, raw, doc, Op.Remove("b"));
  }
}
