/** The bounded memory: the file store, the cloud backend over the document repository, and their agreement. */
module Memory {
  import opened Text
  import opened MemoryText

  datatype Kind = Notes | Profile

  /** MEMORY_CHAR_LIMIT and USER_PROFILE_CHAR_LIMIT: what both stores enforce. */
  function CharLimit(kind: Kind): (r: nat) {
    if kind.Notes? then 2200 else 1375
  }

  /** MEMORY_MD_CHAR_LIMIT and USER_MD_CHAR_LIMIT: what the repository enforces. */
  function RepoLimit(kind: Kind): (r: nat) {
    if kind.Notes? then 2400 else 1500
  }

  datatype Op = Add(content: string) | Replace(sub: string, content: string) | Remove(sub: string)

  datatype Outcome = Done | EmptyEntry | UnsafeEntry | Full | NoMatch | Ambiguous

  // ---------------------------------------------------------------- the reference semantics

  /** What an operation does to a list of entries, before anything is stored. */
  datatype Verdict = Refuse(why: Outcome) | Keep | Save(entries: seq<string>)

  /** The positions of the entries that contain `sub`. */
  function Matches(entries: seq<string>, sub: string): (r: seq<nat>)
    ensures forall k :: k in r <==> 0 <= k < |entries| && Contains(entries[k], sub)
    ensures forall i :: 0 <= i < |r| ==> r[i] < |entries|
  {
    if entries == [] then []
    else
      var n := |entries| - 1;
      Matches(entries[..n], sub) + (if Contains(entries[n], sub) then [n] else [])
  }

  function Validate(bad: string -> bool, content: string): (r: Outcome) {
    if Strip(content) == "" then EmptyEntry else if Unsafe(bad, content) then UnsafeEntry else Done
  }

  function Decide(bad: string -> bool, limit: nat, entries: seq<string>, op: Op): (r: Verdict) {
    if !op.Remove? && Validate(bad, op.content) != Done then Refuse(Validate(bad, op.content))
    else if op.Add? then
      if op.content in entries then Keep
      else if TotalChars(entries + [op.content]) > limit then Refuse(Full)
      else Save(entries + [op.content])
    else
      var m := Matches(entries, op.sub);
      if m == [] then Refuse(NoMatch)
      else if |m| > 1 then Refuse(Ambiguous)
      else if op.Remove? then Save(entries[..m[0]] + entries[m[0] + 1..])
      else if TotalChars(entries[m[0] := op.content]) > limit then Refuse(Full)
      else Save(entries[m[0] := op.content])
  }

  /** `MemoryStore._save`: a trailing newline unless the text is empty. */
  function Rendered(entries: seq<string>): (r: string) {
    var text := JoinEntries(entries);
    if text == "" then "" else text + "\n"
  }

  function LocalApply(bad: string -> bool, kind: Kind, raw: string, op: Op): (r: (Outcome, string)) {
    match Decide(bad, CharLimit(kind), LocalEntries(raw), op)
    case Refuse(why) => (why, raw)
    case Keep => (Done, raw)
    case Save(entries) => (Done, Rendered(entries))
  }

  /** One `user_documents` row; version 0 stands for "no row yet". */
  datatype Doc = Doc(body: string, version: nat)

  function RepoPut(bad: string -> bool, kind: Kind, doc: Doc, content: string): (r: (Outcome, Doc)) {
    if |content| > RepoLimit(kind) then (Full, doc)
    else if content != "" && Unsafe(bad, content) then (UnsafeEntry, doc)
    else (Done, Doc(content, doc.version + 1))
  }

  function CloudApply(bad: string -> bool, kind: Kind, doc: Doc, op: Op): (r: (Outcome, Doc)) {
    match Decide(bad, CharLimit(kind), CloudEntries(doc.body), op)
    case Refuse(why) => (why, doc)
    case Keep => (Done, doc)
    case Save(entries) => RepoPut(bad, kind, doc, JoinEntries(entries))
  }

  // ---------------------------------------------------------------- the stores

  method FindMatches(entries: seq<string>, sub: string) returns (m: seq<nat>)
    ensures m == Matches(entries, sub)
  {
    m := [];
    for i := 0 to |entries|
      invariant m == Matches(entries[..i], sub)
    {
      assert entries[..i + 1][..i] == entries[..i];
      if Contains(entries[i], sub) { m := m + [i]; }
    }
    assert entries[..|entries|] == entries;
  }

  lemma TotalWithOneMore(entries: seq<string>, content: string)
    ensures TotalChars(entries + [content])
         == TotalChars(entries) + |content| + (if entries == [] then 0 else |DELIMITER|)
  {
    SumLengthsAppend(entries, [content]);
  }

  /** One memory file. */
  class MemoryStore {
    const bad: string -> bool
    const kind: Kind
    var text: string

    constructor (bad: string -> bool, kind: Kind)
      ensures this.bad == bad && this.kind == kind && text == ""
    {
      this.bad, this.kind, text := bad, kind, "";
    }

    method Save(entries: seq<string>)
      modifies this
      ensures text == Rendered(entries)
    {
      text := JoinEntries(entries);
      if text != "" { text := text + "\n"; }
    }

    method Add(content: string) returns (o: Outcome)
      modifies this
      ensures (o, text) == LocalApply(bad, kind, old(text), Op.Add(content))
    {
      o := Validate(bad, content);
      if o != Done { return; }
      var existing := LocalEntries(text);
      if content in existing { return; }
      TotalWithOneMore(existing, content);
      var newTotal := TotalChars(existing) + |content| + (if existing != [] then |DELIMITER| else 0);
      if newTotal > CharLimit(kind) { return Full; }
      Save(existing + [content]);
    }

    method Replace(sub: string, content: string) returns (o: Outcome)
      modifies this
      ensures (o, text) == LocalApply(bad, kind, old(text), Op.Replace(sub, content))
    {
      o := Validate(bad, content);
      if o != Done { return; }
      var entries := LocalEntries(text);
      var m := FindMatches(entries, sub);
      if m == [] { return NoMatch; }
      if |m| > 1 { return Ambiguous; }
      entries := entries[m[0] := content];
      if TotalChars(entries) > CharLimit(kind) { return Full; }
      Save(entries);
    }

    method Remove(sub: string) returns (o: Outcome)
      modifies this
      ensures (o, text) == LocalApply(bad, kind, old(text), Op.Remove(sub))
    {
      var entries := LocalEntries(text);
      var m := FindMatches(entries, sub);
      if m == [] { return NoMatch; }
      if |m| > 1 { return Ambiguous; }
      Save(entries[..m[0]] + entries[m[0] + 1..]);
      o := Done;
    }
  }

  /** The stored document of one user and kind. */
  class MemoryRepo {
    const bad: string -> bool
    const kind: Kind
    var doc: Doc

    constructor (bad: string -> bool, kind: Kind)
      ensures this.bad == bad && this.kind == kind && doc == Doc("", 0)
    {
      this.bad, this.kind, doc := bad, kind, Doc("", 0);
    }

    /** Upsert: a first write makes version 1, every later one adds 1. */
    method Put(content: string) returns (o: Outcome)
      modifies this
      ensures (o, doc) == RepoPut(bad, kind, old(doc), content)
    {
      if |content| > RepoLimit(kind) { return Full; }
      if content != "" && Unsafe(bad, content) { return UnsafeEntry; }
      doc := Doc(content, doc.version + 1);
      o := Done;
    }
  }

  /** Entry-level edits over a repository document. */
  class MemoryCloudBackend {
    const repo: MemoryRepo

    constructor (repo: MemoryRepo)
      ensures this.repo == repo
    {
      this.repo := repo;
    }

    method Add(content: string) returns (o: Outcome)
      modifies repo
      ensures (o, repo.doc) == CloudApply(repo.bad, repo.kind, old(repo.doc), Op.Add(content))
    {
      if Strip(content) == "" { return EmptyEntry; }
      if Unsafe(repo.bad, content) { return UnsafeEntry; }
      var entries := CloudEntries(repo.doc.body);
      if content in entries { return Done; }
      TotalWithOneMore(entries, content);
      var newTotal := TotalChars(entries) + |content| + (if entries != [] then |DELIMITER| else 0);
      if newTotal > CharLimit(repo.kind) { return Full; }
      o := repo.Put(JoinEntries(entries + [content]));
    }

    method Replace(sub: string, content: string) returns (o: Outcome)
      modifies repo
      ensures (o, repo.doc) == CloudApply(repo.bad, repo.kind, old(repo.doc), Op.Replace(sub, content))
    {
      if Strip(content) == "" { return EmptyEntry; }
      if Unsafe(repo.bad, content) { return UnsafeEntry; }
      var entries := CloudEntries(repo.doc.body);
      var m := FindMatches(entries, sub);
      if m == [] { return NoMatch; }
      if |m| > 1 { return Ambiguous; }
      entries := entries[m[0] := content];
      if TotalChars(entries) > CharLimit(repo.kind) { return Full; }
      o := repo.Put(JoinEntries(entries));
    }

    method Remove(sub: string) returns (o: Outcome)
      modifies repo
      ensures (o, repo.doc) == CloudApply(repo.bad, repo.kind, old(repo.doc), Op.Remove(sub))
    {
      var entries := CloudEntries(repo.doc.body);
      var m := FindMatches(entries, sub);
      if m == [] { return NoMatch; }
      if |m| > 1 { return Ambiguous; }
      o := repo.Put(JoinEntries(entries[..m[0]] + entries[m[0] + 1..]));
    }
  }
}
