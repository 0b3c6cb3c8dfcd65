/** What an edit of the memory does. */
module MemoryEdits {
  import opened Memory
  import opened MemoryAgreement
  import opened MemoryText
  import opened Sequences
  import opened Text

  // ---------------------------------------------------------------- the matches

  ghost predicate SomeMatch(entries: seq<string>, sub: string) {
    exists k :: 0 <= k < |entries| && Contains(entries[k], sub)
  }

  ghost predicate TwoMatch(entries: seq<string>, sub: string) {
    exists i, j :: 0 <= i < j < |entries| && Contains(entries[i], sub) && Contains(entries[j], sub)
  }

  /** Entry `k`, and no other, contains `sub`. */
  ghost predicate OnlyMatch(entries: seq<string>, sub: string, k: nat) {
    k < |entries| && forall i :: 0 <= i < |entries| ==> (Contains(entries[i], sub) <==> i == k)
  }

  lemma {:induction false} MatchesAscend(entries: seq<string>, sub: string)
    ensures forall i, j :: 0 <= i < j < |Matches(entries, sub)| ==> Matches(entries, sub)[i] < Matches(entries, sub)[j]
  {
    if entries != [] { MatchesAscend(entries[..|entries| - 1], sub); }
  }

  lemma {:induction false} MatchCases(entries: seq<string>, sub: string)
    ensures var m := Matches(entries, sub);
            && (m == [] <==> !SomeMatch(entries, sub)) && (|m| > 1 <==> TwoMatch(entries, sub))
            && (|m| == 1 ==> OnlyMatch(entries, sub, m[0]))
  {
    var m := Matches(entries, sub);
    MatchesAscend(entries, sub);
    if m != [] { assert m[0] in m; }
    if |m| > 1 { assert m[0] in m && m[1] in m; }
    if i, j :| 0 <= i < j < |entries| && Contains(entries[i], sub) && Contains(entries[j], sub) {
      assert i in m && j in m;
    }
    if |m| == 1 {
      forall i | 0 <= i < |entries| ensures Contains(entries[i], sub) <==> i == m[0] { assert i in m <==> i == m[0]; }
    }
  }

  // ---------------------------------------------------------------- what is read back

  /** Entries as they are read: trimmed, not empty, and in one piece. */
  ghost predicate Whole(entries: seq<string>) {
    forall e :: e in entries ==> Trimmed(e) && e != "" && SectionFree(e)
  }

  lemma {:induction false} CleanIsWhole(pieces: seq<string>)
    requires AllSectionFree(pieces)
    ensures Whole(Clean(pieces))
  {
    if pieces != [] {
      assert SectionFree(pieces[0]);
      StripKeepsSectionFree(pieces[0]);
      var a, b := StripParts(pieces[0]);
      assert AllSectionFree(pieces[1..]) by { assert forall p :: p in pieces[1..] ==> p in pieces; }
      CleanIsWhole(pieces[1..]);
    }
  }

  lemma ReadIsWhole(body: string)
    ensures Whole(CloudEntries(body))
  {
    CleanIsWhole(Split(body, SECTION));
  }

  lemma ReadsAsOne(e: string)
    requires SectionFree(e) && Strip(e) != ""
    ensures CloudEntries(e) == [Strip(e)]
  {
    SplitNone(e, SECTION);
    NothingToClean();
    assert [e][1..] == [];
  }

  lemma {:induction false} ReadIsClean(body: string)
    ensures CloudEntries(body) == Clean(Split(body, SECTION))
  {
    NothingToClean();
  }

  lemma {:induction false} SplitTwo(a: string, b: string, c: char)
    ensures Split(a + [c] + b, c) == Split(a, c) + Split(b, c)
  {
    if a == "" {
      assert a + [c] + b == [c] + b;
      assert ([c] + b)[1..] == b;
    } else {
      assert (a + [c] + b)[1..] == a[1..] + [c] + b && (a + [c] + b)[0] == a[0];
      SplitTwo(a[1..], b, c);
    }
  }

  lemma {:induction false} CleanTwo(left: string, right: string)
    ensures Clean(Split(left + [SECTION] + right, SECTION)) ==
            Clean(Split(left, SECTION)) + Clean(Split(right, SECTION))
  {
    SplitTwo(left, right, SECTION);
    CleanAppend(Split(left, SECTION), Split(right, SECTION));
  }

  lemma {:induction false} AroundTheSign(s: string, t: string)
    ensures s + DELIMITER + t == (s + "\n") + [SECTION] + ("\n" + t)
  {
  }

  /** The first of two joined texts does not run into the second. */
  lemma {:induction false} ReadJoinedPair(s: string, t: string)
    ensures CloudEntries(s + DELIMITER + t) == CloudEntries(s) + CloudEntries(t)
  {
    ReadIsClean(s);
    ReadIsClean(t);
    ReadIsClean(s + DELIMITER + t);
    AroundTheSign(s, t);
    CleanTwo(s + "\n", "\n" + t);
    CleanBeforeSuffix(s, "\n");
    CleanAfterPrefix("\n", t);
  }

  /** What a list of texts reads as, once joined: what each reads as, end to end. */
  function ReadEach(texts: seq<string>): (r: seq<string>) {
    if texts == [] then [] else CloudEntries(texts[0]) + ReadEach(texts[1..])
  }

  lemma {:induction false} ReadJoined(texts: seq<string>)
    ensures CloudEntries(JoinEntries(texts)) == ReadEach(texts)
  {
    if |texts| == 1 {
      AppendNil(CloudEntries(texts[0]));
      assert texts[1..] == [];
    } else if |texts| > 1 {
      ReadJoinedPair(texts[0], JoinEntries(texts[1..]));
      ReadJoined(texts[1..]);
      assert JoinEntries(texts) == texts[0] + DELIMITER + JoinEntries(texts[1..]);
    }
  }

  lemma {:induction false} ReadEachAppend(a: seq<string>, b: seq<string>)
    ensures ReadEach(a + b) == ReadEach(a) + ReadEach(b)
  {
    if a == [] {
      assert a + b == b;
    } else {
      assert (a + b)[1..] == a[1..] + b && (a + b)[0] == a[0];
      ReadEachAppend(a[1..], b);
    }
  }

  lemma {:induction false} ReadEachWhole(entries: seq<string>)
    requires Whole(entries)
    ensures ReadEach(entries) == entries
  {
    if entries != [] {
      var e := entries[0];
      assert e in entries;
      StripOf("", e, "");
      assert "" + e + "" == e;
      ReadsAsOne(e);
      assert Whole(entries[1..]) by { assert forall x :: x in entries[1..] ==> x in entries; }
      ReadEachWhole(entries[1..]);
      assert entries == [e] + entries[1..];
    }
  }

  /** Whole entries around one new text: they are read as they are, and the text as it reads alone. */
  lemma {:induction false} ReadAround(a: seq<string>, content: string, b: seq<string>)
    requires Whole(a) && Whole(b)
    ensures CloudEntries(JoinEntries(a + [content] + b)) == a + CloudEntries(content) + b
  {
    ReadJoined(a + [content] + b);
    ReadEachAppend(a + [content], b);
    ReadEachAppend(a, [content]);
    ReadEachWhole(a);
    ReadEachWhole(b);
    assert [content][1..] == [];
    AppendNil(CloudEntries(content));
  }

  lemma {:induction false} WholePart(entries: seq<string>, n: nat, m: nat)
    requires n <= m <= |entries| && Whole(entries)
    ensures Whole(entries[n..m])
  {
    assert forall e :: e in entries[n..m] ==> e in entries;
  }

  // ---------------------------------------------------------------- the outcomes

  /** The content of an add or a replace is looked at first. */
  ghost predicate ContentRefused(bad: string -> bool, op: Op, o: Outcome) {
    !op.Remove? && o == (if Strip(op.content) == "" then EmptyEntry else UnsafeEntry)
    && (Strip(op.content) == "" || Unsafe(bad, op.content))
  }

  ghost predicate ContentFits(bad: string -> bool, op: Op) {
    op.Remove? || (Strip(op.content) != "" && !Unsafe(bad, op.content))
  }

  /** What a store must answer, from the entries it reads before the operation. */
  ghost predicate Answers(bad: string -> bool, limit: nat, entries: seq<string>, op: Op, o: Outcome) {
    if !ContentFits(bad, op) then ContentRefused(bad, op, o)
    else if op.Add? then
      o == if op.content !in entries && |JoinEntries(entries + [op.content])| > limit then Full else Done
    else
      && (o == NoMatch <==> !SomeMatch(entries, op.sub))
      && (o == Ambiguous <==> TwoMatch(entries, op.sub))
      && (o == Full <==> exists k: nat :: OnlyMatch(entries, op.sub, k) && op.Replace?
                                     && |JoinEntries(entries[..k] + [op.content] + entries[k + 1..])| > limit)
      && (o in {NoMatch, Ambiguous, Full, Done})
  }

  /** What an accepted operation makes of the entries: they are read after it as `after`. */
  ghost predicate Edits(entries: seq<string>, op: Op, after: seq<string>) {
    match op
    case Add(content) => after == if content in entries then entries else entries + CloudEntries(content)
    case Replace(sub, content) =>
      exists k: nat :: OnlyMatch(entries, sub, k) && after == entries[..k] + CloudEntries(content) + entries[k + 1..]
    case Remove(sub) => exists k: nat :: OnlyMatch(entries, sub, k) && after == entries[..k] + entries[k + 1..]
  }

  /** A text without a section sign reads as one entry, itself without the blanks at its ends. */
  lemma PlainContentReadsAsItself(content: string)
    requires SectionFree(content) && Strip(content) != ""
    ensures CloudEntries(content) == [Strip(content)]
  {
    ReadsAsOne(content);
  }

  lemma OnlyOne(entries: seq<string>, sub: string, i: nat, j: nat)
    requires OnlyMatch(entries, sub, i) && OnlyMatch(entries, sub, j)
    ensures i == j
  {
    assert Contains(entries[i], sub);
  }

  // ---------------------------------------------------------------- the decision

  function OutcomeOf(v: Verdict): (o: Outcome) {
    if v.Refuse? then v.why else Done
  }

  lemma {:induction false} AddIsAnswered(bad: string -> bool, limit: nat, entries: seq<string>, op: Op)
    requires op.Add? && ContentFits(bad, op)
    ensures Answers(bad, limit, entries, op, OutcomeOf(Decide(bad, limit, entries, op)))
  {
    TotalIsJoinedLength(entries + [op.content]);
  }

  lemma {:induction false} ReplacedAt(entries: seq<string>, k: nat, content: string)
    requires k < |entries|
    ensures entries[k := content] == entries[..k] + [content] + entries[k + 1..]
  {
  }

  lemma {:induction false} MatchIsAnswered(bad: string -> bool, limit: nat, entries: seq<string>, op: Op)
    requires !op.Add? && ContentFits(bad, op)
    ensures Answers(bad, limit, entries, op, OutcomeOf(Decide(bad, limit, entries, op)))
  {
    var m := Matches(entries, op.sub);
    MatchCases(entries, op.sub);
    if |m| == 1 {
      assert SomeMatch(entries, op.sub) && !TwoMatch(entries, op.sub);
      if op.Replace? {
        ReplacedAt(entries, m[0], op.content);
        TotalIsJoinedLength(entries[m[0] := op.content]);
      }
      forall k: nat | OnlyMatch(entries, op.sub, k) ensures k == m[0] { OnlyOne(entries, op.sub, k, m[0]); }
    } else {
      forall k: nat ensures !OnlyMatch(entries, op.sub, k) {
        if OnlyMatch(entries, op.sub, k) { OnlyIsOne(entries, op.sub, k); }
      }
    }
  }

  lemma {:induction false} OnlyIsOne(entries: seq<string>, sub: string, k: nat)
    requires OnlyMatch(entries, sub, k)
    ensures |Matches(entries, sub)| == 1
  {
    MatchCases(entries, sub);
    assert Contains(entries[k], sub);
  }

  lemma {:induction false} DecideAnswers(bad: string -> bool, limit: nat, entries: seq<string>, op: Op)
    ensures Answers(bad, limit, entries, op, OutcomeOf(Decide(bad, limit, entries, op)))
  {
    if ContentFits(bad, op) {
      if op.Add? { AddIsAnswered(bad, limit, entries, op); } else { MatchIsAnswered(bad, limit, entries, op); }
    }
  }

  lemma {:induction false} AddReads(entries: seq<string>, content: string)
    requires Whole(entries)
    ensures CloudEntries(JoinEntries(entries + [content])) == entries + CloudEntries(content)
  {
    ReadAround(entries, content, []);
    AppendNil(entries + [content]);
    AppendNil(entries + CloudEntries(content));
  }

  lemma {:induction false} WholeAround(entries: seq<string>, k: nat)
    requires Whole(entries) && k < |entries|
    ensures Whole(entries[..k]) && Whole(entries[k + 1..])
  {
    WholePart(entries, 0, k);
    WholePart(entries, k + 1, |entries|);
    assert entries[0..k] == entries[..k] && entries[k + 1..|entries|] == entries[k + 1..];
  }

  lemma {:induction false} ReplaceReads(entries: seq<string>, k: nat, content: string)
    requires Whole(entries) && k < |entries|
    ensures CloudEntries(JoinEntries(entries[k := content])) == entries[..k] + CloudEntries(content) + entries[k + 1..]
  {
    WholeAround(entries, k);
    ReplacedAt(entries, k, content);
    ReadAround(entries[..k], content, entries[k + 1..]);
  }

  /** What is saved reads back as the edit says. */
  lemma {:induction false} DecideEdits(bad: string -> bool, limit: nat, entries: seq<string>, op: Op)
    requires Whole(entries)
    ensures match Decide(bad, limit, entries, op)
            case Refuse(_) => true
            case Keep => Edits(entries, op, entries)
            case Save(saved) => Edits(entries, op, CloudEntries(JoinEntries(saved)))
  {
    var v := Decide(bad, limit, entries, op);
    if v.Save? {
      if op.Add? {
        AddReads(entries, op.content);
      } else {
        var k := Matches(entries, op.sub)[0];
        MatchCases(entries, op.sub);
        if op.Replace? {
          ReplaceReads(entries, k, op.content);
        } else {
          WholeAround(entries, k);
          RestReads(entries[..k], entries[k + 1..]);
        }
      }
    }
  }

  lemma {:induction false} RestReads(a: seq<string>, b: seq<string>)
    requires Whole(a) && Whole(b)
    ensures CloudEntries(JoinEntries(a + b)) == a + b
  {
    ReadJoined(a + b);
    ReadEachAppend(a, b);
    ReadEachWhole(a);
    ReadEachWhole(b);
  }

  // ---------------------------------------------------------------- the two stores

  /**
   * The memory file: every operation is answered from the entries read before it; a refusal leaves the text as it
   * was, and after an accepted operation the entries read are the edited ones.
   */
  lemma {:induction false} FileEdits(bad: string -> bool, kind: Kind, raw: string, op: Op)
    ensures var (o, raw') := LocalApply(bad, kind, raw, op);
            && Answers(bad, if kind.Notes? then 2200 else 1375, LocalEntries(raw), op, o)
            && (if o == Done then Edits(LocalEntries(raw), op, LocalEntries(raw')) else raw' == raw)
            && (op.Add? && op.content in LocalEntries(raw) ==> raw' == raw)
  {
    var entries := LocalEntries(raw);
    ParsersAgree(raw);
    ReadIsWhole(raw);
    DecideAnswers(bad, CharLimit(kind), entries, op);
    DecideEdits(bad, CharLimit(kind), entries, op);
    var v := Decide(bad, CharLimit(kind), entries, op);
    if v.Save? { RenderedReadsBack(v.entries); }
  }

  /** Without entry `k` the document is still too long for the repository. */
  predicate Outgrows(kind: Kind, entries: seq<string>, k: nat) {
    k < |entries| && |JoinEntries(entries[..k] + entries[k + 1..])| > if kind.Notes? then 2400 else 1500
  }

  /** A removal whose rewritten document outgrows the repository: the one thing only the cloud refuses. */
  ghost predicate Overflows(kind: Kind, entries: seq<string>, op: Op) {
    op.Remove? && exists k: nat :: OnlyMatch(entries, op.sub, k) && Outgrows(kind, entries, k)
  }

  lemma {:induction false} OverflowsIff(kind: Kind, entries: seq<string>, op: Op)
    ensures Overflows(kind, entries, op) <==> RemovalOverflows(kind, entries, op)
  {
    if op.Remove? {
      var m := Matches(entries, op.sub);
      MatchCases(entries, op.sub);
      if |m| == 1 {
        TotalIsJoinedLength(entries[..m[0]] + entries[m[0] + 1..]);
        assert Outgrows(kind, entries, m[0]) <==> RemovalOverflows(kind, entries, op);
      }
      if k: nat :| OnlyMatch(entries, op.sub, k) && Outgrows(kind, entries, k) {
        OnlyIsOne(entries, op.sub, k);
        OnlyOne(entries, op.sub, k, m[0]);
      }
    }
  }

  lemma {:induction false} KeepsIff(bad: string -> bool, limit: nat, entries: seq<string>, op: Op)
    ensures Decide(bad, limit, entries, op) == Keep ==> op.Add? && op.content in entries
    ensures op.Add? && op.content in entries ==> !Decide(bad, limit, entries, op).Save?
  {
  }

  lemma {:induction false} CloudWrites(bad: string -> bool, kind: Kind, doc: Doc, op: Op)
    ensures var (o, doc') := CloudApply(bad, kind, doc, op);
            && (o != Done || (op.Add? && op.content in CloudEntries(doc.body)) ==> doc' == doc)
            && (o == Done && !(op.Add? && op.content in CloudEntries(doc.body)) ==> doc'.version == doc.version + 1)
  {
    KeepsIff(bad, CharLimit(kind), CloudEntries(doc.body), op);
  }

  /**
   * The document in the cloud: but for an overflowing removal, the same answers and the same edits; every write adds
   * one to the version.
   */
  lemma {:induction false} DocumentEdits(bad: string -> bool, kind: Kind, doc: Doc, op: Op)
    requires WellBehaved(bad) && !Unsafe(bad, doc.body)
    ensures var ((o, doc'), entries) := (CloudApply(bad, kind, doc, op), CloudEntries(doc.body));
            && (if Overflows(kind, entries, op) then o == Full
                else Answers(bad, if kind.Notes? then 2200 else 1375, entries, op, o))
            && (if o == Done then Edits(entries, op, CloudEntries(doc'.body)) else doc' == doc)
            && (op.Add? && op.content in entries ==> doc' == doc)
            && (o == Done && !(op.Add? && op.content in entries) ==> doc'.version == doc.version + 1)
            && !Unsafe(bad, doc'.body)
  {
    var entries := CloudEntries(doc.body);
    ParsersAgree(doc.body);
    FileEdits(bad, kind, doc.body, op);
    StepsAgree(bad, kind, doc.body, doc, op);
    OverflowsIff(kind, entries, op);
    CloudWrites(bad, kind, doc, op);
  }

  lemma {:induction false} RenderedEnds(entries: seq<string>)
    ensures Rendered(entries) == "" || Rendered(entries)[|Rendered(entries)| - 1] == '\n'
  {
  }

  /** A rewritten file is empty or ends in a newline. */
  lemma {:induction false} FileEndsInNewline(bad: string -> bool, kind: Kind, raw: string, op: Op)
    ensures var (_, raw') := LocalApply(bad, kind, raw, op);
            raw' != raw ==> raw' == "" || raw'[|raw'| - 1] == '\n'
  {
    var v := Decide(bad, CharLimit(kind), LocalEntries(raw), op);
    if v.Save? { RenderedEnds(v.entries); }
  }

  lemma {:induction false} NothingIsSafe(bad: string -> bool)
    requires WellBehaved(bad)
    ensures !Unsafe(bad, "")
  {
    forall i, j | 0 <= i <= j <= 0 ensures !bad(""[i..j]) { assert ""[i..j] == ""; }
  }

  /** The repository's own write: too long, then unsafe, then it replaces the document. */
  lemma {:induction false} RepositoryWrites(bad: string -> bool, kind: Kind, doc: Doc, content: string)
    requires WellBehaved(bad)
    ensures var (o, doc') := RepoPut(bad, kind, doc, content);
            && (o == Full <==> |content| > if kind.Notes? then 2400 else 1500)
            && (o == UnsafeEntry <==> |content| <= (if kind.Notes? then 2400 else 1500) && Unsafe(bad, content))
            && (if o == Done then doc'.body == content && doc'.version == doc.version + 1 else doc' == doc)
            && (o == Done || o == Full || o == UnsafeEntry)
  {
    NothingIsSafe(bad);
  }
}
