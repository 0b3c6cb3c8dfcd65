/**
 * What the file store and the cloud backend keep in common, step by step and over whole runs. They hold the same
 * entries in different text, and the cloud's repository has a second limit and a second content check of its own.
 */
module MemoryAgreement {
  import opened Memory
  import opened MemoryText
  import opened Text

  /** The one way the stores part: a removal whose rewritten body outgrows the repository limit. */
  predicate RemovalOverflows(kind: Kind, entries: seq<string>, op: Op) {
    op.Remove? &&
    var m := Matches(entries, op.sub);
    |m| == 1 && TotalChars(entries[..m[0]] + entries[m[0] + 1..]) > RepoLimit(kind)
  }

  /** What both stores keep between calls. */
  ghost predicate InStep(bad: string -> bool, raw: string, doc: Doc) {
    LocalEntries(raw) == CloudEntries(doc.body) && !Unsafe(bad, doc.body)
  }

  /** The list an operation saves is safe when the stored body and the new content are. */
  lemma SavedIsSafe(bad: string -> bool, limit: nat, body: string, op: Op)
    requires WellBehaved(bad) && !Unsafe(bad, body)
    requires Decide(bad, limit, CloudEntries(body), op).Save?
    ensures !Unsafe(bad, JoinEntries(Decide(bad, limit, CloudEntries(body), op).entries))
  {
    var entries := CloudEntries(body);
    var saved := Decide(bad, limit, entries, op).entries;
    forall e | e in saved ensures !Unsafe(bad, e) {
      assert e in entries || (!op.Remove? && e == op.content);
      if e in entries && Unsafe(bad, e) { UnsafeEntryUnsafeBody(bad, body, e); }
    }
    JoinedUnsafe(bad, saved);
  }

  lemma RenderedReadsBack(entries: seq<string>)
    ensures LocalEntries(Rendered(entries)) == CloudEntries(JoinEntries(entries))
  {
    ParsersAgree(Rendered(entries));
    CleanBeforeSuffix(JoinEntries(entries), "\n");
  }

  /** Of a safe body the repository only looks at the length. */
  lemma SafePut(bad: string -> bool, kind: Kind, doc: Doc, body: string)
    requires !Unsafe(bad, body)
    ensures RepoPut(bad, kind, doc, body) ==
            if |body| > RepoLimit(kind) then (Full, doc) else (Done, Doc(body, doc.version + 1))
  {
  }

  /** What is saved outgrows the repository only in an overflowing removal. */
  lemma {:induction false} SavedFitsUnlessOverflows(bad: string -> bool, kind: Kind, entries: seq<string>, op: Op)
    requires Decide(bad, CharLimit(kind), entries, op).Save?
    ensures TotalChars(Decide(bad, CharLimit(kind), entries, op).entries) > RepoLimit(kind) <==>
              RemovalOverflows(kind, entries, op)
  {
    assert CharLimit(kind) <= RepoLimit(kind);
  }

  /**
   * From equal entries, any operation with any content has the same outcome in both stores and leaves
   * equal entries, unless it is an overflowing removal; then the file store accepts and the cloud refuses.
   */
  lemma {:induction false} StepsAgree(bad: string -> bool, kind: Kind, raw: string, doc: Doc, op: Op)
    requires WellBehaved(bad) && InStep(bad, raw, doc)
    ensures var (o, raw') := LocalApply(bad, kind, raw, op);
            var (o', doc') := CloudApply(bad, kind, doc, op);
            && (RemovalOverflows(kind, LocalEntries(raw), op) <==> o != o')
            && (o == o' ==> InStep(bad, raw', doc'))
            && (o != o' ==> o == Done && o' == Full && doc' == doc)
  {
    var entries := CloudEntries(doc.body);
    var v := Decide(bad, CharLimit(kind), entries, op);
    if v.Save? {
      SavedIsSafe(bad, CharLimit(kind), doc.body, op);
      SavedFitsUnlessOverflows(bad, kind, entries, op);
      TotalIsJoinedLength(v.entries);
      SafePut(bad, kind, doc, JoinEntries(v.entries));
      RenderedReadsBack(v.entries);
    }
  }

  // ---------------------------------------------------------------- whole runs

  function LocalRun(bad: string -> bool, kind: Kind, ops: seq<Op>): (r: (seq<Outcome>, string)) {
    if ops == [] then ([], "")
    else
      var (os, raw) := LocalRun(bad, kind, ops[..|ops| - 1]);
      var (o, raw') := LocalApply(bad, kind, raw, ops[|ops| - 1]);
      (os + [o], raw')
  }

  function CloudRun(bad: string -> bool, kind: Kind, ops: seq<Op>): (r: (seq<Outcome>, Doc)) {
    if ops == [] then ([], Doc("", 0))
    else
      var (os, doc) := CloudRun(bad, kind, ops[..|ops| - 1]);
      var (o, doc') := CloudApply(bad, kind, doc, ops[|ops| - 1]);
      (os + [o], doc')
  }

  /** The plain list of notes the two stores implement: edits on a list, each new note stripped. */
  function ListApply(bad: string -> bool, kind: Kind, entries: seq<string>, op: Op): (r: seq<string>) {
    match Decide(bad, CharLimit(kind), entries, op)
    case Save(saved) => Clean(saved)
    case _ => entries
  }

  function ListRun(bad: string -> bool, kind: Kind, ops: seq<Op>): (r: seq<string>) {
    if ops == [] then []
    else ListApply(bad, kind, ListRun(bad, kind, ops[..|ops| - 1]), ops[|ops| - 1])
  }

  predicate OpSectionFree(op: Op) {
    op.Remove? || SectionFree(op.content)
  }

  /** The shape of the entries along a section-free run. */
  ghost predicate Tidy(kind: Kind, entries: seq<string>) {
    && AllSectionFree(entries)
    && (forall e :: e in entries ==> Trimmed(e) && e != "")
    && TotalChars(entries) <= CharLimit(kind)
  }

  lemma StripKeepsSectionFree(s: string)
    requires SectionFree(s)
    ensures SectionFree(Strip(s))
  {
    var a, b := StripParts(s);
    assert forall k :: 0 <= k < |Strip(s)| ==> Strip(s)[k] == s[|a| + k];
  }

  lemma {:induction false} CleanTidy(entries: seq<string>)
    requires AllSectionFree(entries)
    ensures AllSectionFree(Clean(entries)) && forall e :: e in Clean(entries) ==> Trimmed(e) && e != ""
    ensures TotalChars(Clean(entries)) <= TotalChars(entries)
  {
    CleanShortens(entries);
    if entries != [] {
      assert SectionFree(entries[0]);
      StripKeepsSectionFree(entries[0]);
      var a, b := StripParts(entries[0]);
      assert AllSectionFree(entries[1..]) by { assert forall e :: e in entries[1..] ==> e in entries; }
      CleanTidy(entries[1..]);
    }
  }

  lemma SavedIsTidy(bad: string -> bool, kind: Kind, entries: seq<string>, op: Op)
    requires Tidy(kind, entries) && OpSectionFree(op)
    requires Decide(bad, CharLimit(kind), entries, op).Save?
    ensures var saved := Decide(bad, CharLimit(kind), entries, op).entries;
            && TotalChars(saved) <= CharLimit(kind) && Tidy(kind, Clean(saved))
            && CloudEntries(JoinEntries(saved)) == Clean(saved)
  {
    var saved := Decide(bad, CharLimit(kind), entries, op).entries;
    if op.Remove? {
      var m := Matches(entries, op.sub);
      TotalWithoutOne(entries, m[0]);
    }
    assert AllSectionFree(saved);
    CleanTidy(saved);
    ParseJoined(saved);
    assert CloudEntries("") == [] == Clean(Split("", SECTION)) by { StripOf("", "", ""); }
  }

  /** What the two stores and the plain list agree on along a section-free run. */
  ghost predicate Agreed(bad: string -> bool, kind: Kind, raw: string, doc: Doc, entries: seq<string>) {
    && LocalEntries(raw) == CloudEntries(doc.body) == entries
    && raw == (if doc.body == "" then "" else doc.body + "\n")
    && |doc.body| <= CharLimit(kind)
    && Tidy(kind, entries) && InStep(bad, raw, doc)
  }

  lemma RepoAccepts(bad: string -> bool, kind: Kind, doc: Doc, saved: seq<string>)
    requires !Unsafe(bad, JoinEntries(saved)) && TotalChars(saved) <= CharLimit(kind)
    ensures RepoPut(bad, kind, doc, JoinEntries(saved)) == (Done, Doc(JoinEntries(saved), doc.version + 1))
  {
    TotalIsJoinedLength(saved);
  }

  lemma SavedAgrees(bad: string -> bool, kind: Kind, doc: Doc, saved: seq<string>)
    requires !Unsafe(bad, JoinEntries(saved)) && TotalChars(saved) <= CharLimit(kind)
    requires Tidy(kind, Clean(saved)) && CloudEntries(JoinEntries(saved)) == Clean(saved)
    ensures var doc' := Doc(JoinEntries(saved), doc.version + 1);
            && RepoPut(bad, kind, doc, JoinEntries(saved)) == (Done, doc')
            && Agreed(bad, kind, Rendered(saved), doc', Clean(saved))
  {
    RepoAccepts(bad, kind, doc, saved);
    TotalIsJoinedLength(saved);
    RenderedReadsBack(saved);
  }

  /** A section-free operation keeps the agreement, and the repository's own checks never fire. */
  lemma {:induction false} AgreedStep(bad: string -> bool, kind: Kind, raw: string, doc: Doc, entries: seq<string>,
                                      op: Op)
    requires WellBehaved(bad) && OpSectionFree(op) && Agreed(bad, kind, raw, doc, entries)
    ensures LocalApply(bad, kind, raw, op).0 == CloudApply(bad, kind, doc, op).0
    ensures Agreed(bad, kind, LocalApply(bad, kind, raw, op).1, CloudApply(bad, kind, doc, op).1,
                   ListApply(bad, kind, entries, op))
    ensures var v := Decide(bad, CharLimit(kind), entries, op);
            v.Save? ==> RepoPut(bad, kind, doc, JoinEntries(v.entries)) ==
                        (Done, Doc(JoinEntries(v.entries), doc.version + 1))
  {
    var v := Decide(bad, CharLimit(kind), entries, op);
    if v.Save? {
      SavedIsSafe(bad, CharLimit(kind), doc.body, op);
      SavedIsTidy(bad, kind, entries, op);
      SavedAgrees(bad, kind, doc, v.entries);
    }
  }

  lemma AgreedStart(bad: string -> bool, kind: Kind)
    requires WellBehaved(bad)
    ensures Agreed(bad, kind, "", Doc("", 0), [])
  {
    ParsersAgree("");
    assert forall i, j :: 0 <= i <= j <= 0 ==> ""[i..j] == "";
  }

  /**
   * Starting from nothing, after any operations whose contents carry no section sign, both stores have
   * given the same outcomes, hold exactly the entries of the plain list, and keep within the limit.
   */
  lemma {:induction false} RunsAgree(bad: string -> bool, kind: Kind, ops: seq<Op>)
    requires WellBehaved(bad) && forall k :: 0 <= k < |ops| ==> OpSectionFree(ops[k])
    ensures LocalRun(bad, kind, ops).0 == CloudRun(bad, kind, ops).0
    ensures Agreed(bad, kind, LocalRun(bad, kind, ops).1, CloudRun(bad, kind, ops).1, ListRun(bad, kind, ops))
  {
    if ops == [] {
      AgreedStart(bad, kind);
    } else {
      var before, op := ops[..|ops| - 1], ops[|ops| - 1];
      RunsAgree(bad, kind, before);
      AgreedStep(bad, kind, LocalRun(bad, kind, before).1, CloudRun(bad, kind, before).1,
                 ListRun(bad, kind, before), op);
    }
  }
}
