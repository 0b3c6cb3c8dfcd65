/** The local session store: messages ordered by time and id, and the counter kept beside them. */
module Sessions {
  import opened Options
  import opened Sequences
  import opened Sorting

  /** A row of `messages`; ids are drawn in ascending order and never reused. */
  datatype Message = Message(id: nat, session: string, ts: int, body: string)

  /** `counts` is `message_count` of the session rows; messages of a session without a row are allowed. */
  datatype Db = Db(rows: seq<Message>, nextId: nat, counts: map<string, int>)

  ghost predicate Ascending(rows: seq<Message>) {
    forall i, j :: 0 <= i < j < |rows| ==> rows[i].id < rows[j].id
  }

  ghost predicate Valid(db: Db) {
    Ascending(db.rows) && forall m :: m in db.rows ==> m.id < db.nextId
  }

  /** ORDER BY timestamp, id. */
  predicate Before(a: Message, b: Message) {
    a.ts < b.ts || (a.ts == b.ts && a.id <= b.id)
  }

  /** ORDER BY timestamp DESC, id DESC. */
  predicate After(a: Message, b: Message) {
    Before(b, a)
  }

  function Filter(rows: seq<Message>, keep: Message -> bool): (r: seq<Message>) {
    if rows == [] then []
    else
      var n := |rows| - 1;
      Filter(rows[..n], keep) + if keep(rows[n]) then [rows[n]] else []
  }

  function In(session: string): (r: Message -> bool) {
    (m: Message) => m.session == session
  }

  function NotIn(session: string): (r: Message -> bool) {
    (m: Message) => m.session != session
  }

  function NotId(id: nat): (r: Message -> bool) {
    (m: Message) => m.id != id
  }

  /** WHERE session_id = session. */
  function Of(rows: seq<Message>, session: string): (r: seq<Message>) {
    Filter(rows, In(session))
  }

  function View(db: Db, session: string): (r: seq<Message>) {
    Sort(Of(db.rows, session), Before)
  }

  /** LIMIT n: a negative limit is none. */
  function Limit(rows: seq<Message>, limit: int): (r: seq<Message>) {
    if 0 <= limit < |rows| then rows[..limit] else rows
  }

  /** `get_messages`: the inner query takes the latest rows, the outer one puts them in order. */
  function GetMessages(db: Db, session: string, limit: Option<int>): (r: seq<Message>) {
    if limit == None then View(db, session)
    else Sort(Limit(Sort(Of(db.rows, session), After), limit.value), Before)
  }

  // ---------------------------------------------------------------- the operations

  function Count(db: Db, session: string, count: int): (r: map<string, int>) {
    if session in db.counts then db.counts[session := count] else db.counts
  }

  function Create(db: Db, session: string): (r: Db) {
    if session in db.counts then db else db.(counts := db.counts[session := 0])
  }

  function Insert(db: Db, session: string, ts: int, body: string): (r: Db) {
    db.(rows := db.rows + [Message(db.nextId, session, ts, body)], nextId := db.nextId + 1)
  }

  function Append(db: Db, session: string, ts: int, body: string): (r: Db) {
    var counts := if session in db.counts then db.counts[session := db.counts[session] + 1] else db.counts;
    Insert(db, session, ts, body).(counts := counts)
  }

  function Pop(db: Db, session: string): (r: (Option<Message>, Db)) {
    var latest := Sort(Of(db.rows, session), After);
    if latest == [] then (None, db)
    else
      var counts := if session !in db.counts then db.counts
                    else db.counts[session := if db.counts[session] >= 1 then db.counts[session] - 1 else 0];
      (Some(latest[0]), Db(Filter(db.rows, NotId(latest[0].id)), db.nextId, counts))
  }

  function Clear(db: Db, session: string): (r: Db) {
    db.(rows := Filter(db.rows, NotIn(session)), counts := Count(db, session, 0))
  }

  function InsertAll(db: Db, dst: string, messages: seq<Message>): (r: Db) {
    if messages == [] then db
    else
      var n := |messages| - 1;
      Insert(InsertAll(db, dst, messages[..n]), dst, messages[n].ts, messages[n].body)
  }

  function Copy(db: Db, src: string, dst: string): (r: Db) {
    var messages := View(db, src);
    if messages == [] then db
    else InsertAll(db, dst, messages).(counts := Count(db, dst, |messages|))
  }

  class LocalSessionRepo {
    var db: Db

    constructor ()
      ensures db == Db([], 0, map[])
    {
      db := Db([], 0, map[]);
    }

    method CreateSession(session: string)
      modifies this
      ensures db == Create(old(db), session)
    {
      if session !in db.counts { db := db.(counts := db.counts[session := 0]); }
    }

    method AppendMessage(session: string, ts: int, body: string) returns (id: nat)
      modifies this
      ensures db == Append(old(db), session, ts, body) && id == old(db.nextId)
    {
      id := db.nextId;
      db := db.(rows := db.rows + [Message(id, session, ts, body)], nextId := id + 1);
      if session in db.counts { db := db.(counts := db.counts[session := db.counts[session] + 1]); }
    }

    method PopLastMessage(session: string) returns (m: Option<Message>)
      modifies this
      ensures (m, db) == Pop(old(db), session)
    {
      var latest := Sort(Of(db.rows, session), After);
      if latest == [] { return None; }
      m := Some(latest[0]);
      db := db.(rows := Filter(db.rows, NotId(latest[0].id)));
      if session in db.counts {
        var less := db.counts[session] - 1;
        db := db.(counts := db.counts[session := if less >= 0 then less else 0]);
      }
    }

    method ClearSession(session: string)
      modifies this
      ensures db == Clear(old(db), session)
    {
      db := db.(rows := Filter(db.rows, NotIn(session)));
      if session in db.counts { db := db.(counts := db.counts[session := 0]); }
    }

    method CopyMessages(src: string, dst: string) returns (n: nat)
      modifies this
      ensures db == Copy(old(db), src, dst) && n == |View(old(db), src)|
    {
      var messages := View(db, src);
      for i := 0 to |messages|
        invariant db == InsertAll(old(db), dst, messages[..i])
      {
        assert messages[..i + 1][..i] == messages[..i];
        db := db.(rows := db.rows + [Message(db.nextId, dst, messages[i].ts, messages[i].body)],
                  nextId := db.nextId + 1);
      }
      assert messages[..|messages|] == messages;
      InsertAllKeepsCounts(old(db), dst, messages);
      if messages != [] && dst in db.counts { db := db.(counts := db.counts[dst := |messages|]); }
      n := |messages|;
    }
  }

  lemma {:induction false} InsertAllKeepsCounts(db: Db, dst: string, messages: seq<Message>)
    ensures InsertAll(db, dst, messages).counts == db.counts
  {
    if messages != [] { InsertAllKeepsCounts(db, dst, messages[..|messages| - 1]); }
  }

  // ---------------------------------------------------------------- the order

  /** What sorting by time does, either way round. */
  lemma InOrder(ms: seq<Message>)
    ensures Sorted(Sort(ms, Before), Before) && multiset(Sort(ms, Before)) == multiset(ms)
    ensures |Sort(ms, Before)| == |ms|
  {
    assert TotalPreorder(Before);
    SortSpec(ms, Before);
  }

  lemma {:induction false} Backwards(ms: seq<Message>)
    ensures Sorted(Sort(ms, After), After) && multiset(Sort(ms, After)) == multiset(ms)
    ensures |Sort(ms, After)| == |ms| && forall m :: m in Sort(ms, After) <==> m in ms
    ensures ms != [] ==> forall m :: m in ms ==> After(Sort(ms, After)[0], m)
  {
    assert TotalPreorder(After);
    SortSpec(ms, After);
    forall m ensures m in Sort(ms, After) <==> m in ms { SortMembers(ms, After, m); }
    SortedFirst(Sort(ms, After), After);
  }

  lemma FilterMore(rows: seq<Message>, m: Message, keep: Message -> bool)
    ensures Filter(rows + [m], keep) == Filter(rows, keep) + if keep(m) then [m] else []
  {
    assert (rows + [m])[..|rows|] == rows;
  }

  lemma {:induction false} FilterMembers(rows: seq<Message>, keep: Message -> bool)
    ensures forall m :: m in Filter(rows, keep) <==> m in rows && keep(m)
  {
    if rows != [] {
      var n := |rows| - 1;
      FilterMembers(rows[..n], keep);
      assert rows == rows[..n] + [rows[n]];
    }
  }

  lemma {:induction false} FilterAscends(rows: seq<Message>, keep: Message -> bool)
    requires Ascending(rows)
    ensures Ascending(Filter(rows, keep))
  {
    if rows != [] {
      var n := |rows| - 1;
      FilterAscends(rows[..n], keep);
      FilterMembers(rows[..n], keep);
      var kept := Filter(rows[..n], keep);
      forall i | 0 <= i < |kept| ensures kept[i].id < rows[n].id {
        assert kept[i] in kept;
        var j :| 0 <= j < n && rows[..n][j] == kept[i];
      }
    }
  }

  lemma {:induction false} FilterCommutes(rows: seq<Message>, p: Message -> bool, q: Message -> bool)
    ensures Filter(Filter(rows, p), q) == Filter(Filter(rows, q), p)
  {
    if rows != [] {
      var n := |rows| - 1;
      FilterCommutes(rows[..n], p, q);
      FilterMore(Filter(rows[..n], p), rows[n], q);
      FilterMore(Filter(rows[..n], q), rows[n], p);
      assert Filter(rows[..n], p) + [] == Filter(rows[..n], p);
      assert Filter(rows[..n], q) + [] == Filter(rows[..n], q);
    }
  }

  lemma {:induction false} FilterAll(rows: seq<Message>, keep: Message -> bool)
    requires forall m :: m in rows ==> keep(m)
    ensures Filter(rows, keep) == rows
  {
    if rows != [] {
      var n := |rows| - 1;
      assert rows == rows[..n] + [rows[n]];
      FilterAll(rows[..n], keep);
    }
  }

  lemma {:induction false} FilterNone(rows: seq<Message>, keep: Message -> bool)
    requires forall m :: m in rows ==> !keep(m)
    ensures Filter(rows, keep) == []
  {
    if rows != [] {
      var n := |rows| - 1;
      assert rows == rows[..n] + [rows[n]];
      FilterNone(rows[..n], keep);
    }
  }

  lemma {:induction false} FilterCount(rows: seq<Message>, id: nat, x: Message)
    ensures multiset(Filter(rows, NotId(id)))[x] == if x.id == id then 0 else multiset(rows)[x]
  {
    if rows != [] {
      var n := |rows| - 1;
      FilterCount(rows[..n], id, x);
      AppendLast(rows);
      CountAppend(rows[..n], rows[n], x);
      if rows[n].id != id { CountAppend(Filter(rows[..n], NotId(id)), rows[n], x); }
    }
  }

  lemma NotBefore(rows: seq<Message>, x: Message)
    requires rows != [] && Ascending(rows) && x.id == rows[|rows| - 1].id
    ensures multiset(rows[..|rows| - 1])[x] == 0
  {
    var n := |rows| - 1;
    forall i | 0 <= i < n ensures rows[..n][i] != x { assert rows[i].id < rows[n].id; }
    assert x !in rows[..n];
  }

  /** Among ascending rows only `m` itself has its id. */
  lemma {:induction false} CountOfId(rows: seq<Message>, m: Message, x: Message)
    requires m in rows && Ascending(rows) && x.id == m.id
    ensures multiset(rows)[x] == if x == m then 1 else 0
  {
    var n := |rows| - 1;
    AppendLast(rows);
    CountAppend(rows[..n], rows[n], x);
    if rows[n] == m {
      NotBefore(rows, x);
    } else {
      var i :| 0 <= i < n && rows[i] == m;
      assert rows[..n][i] == m && rows[i].id < rows[n].id;
      CountOfId(rows[..n], m, x);
    }
  }

  /** Removing the one row with this id. */
  lemma WithoutBag(rows: seq<Message>, m: Message)
    requires m in rows && Ascending(rows)
    ensures multiset(Filter(rows, NotId(m.id))) == multiset(rows) - multiset{m}
  {
    forall x: Message ensures multiset(Filter(rows, NotId(m.id)))[x] == (multiset(rows) - multiset{m})[x] {
      FilterCount(rows, m.id, x);
      if x.id == m.id { CountOfId(rows, m, x); }
    }
  }

  lemma WithoutSize(rows: seq<Message>, m: Message)
    requires m in rows && Ascending(rows)
    ensures |Filter(rows, NotId(m.id))| == |rows| - 1
  {
    WithoutBag(rows, m);
    assert |multiset(Filter(rows, NotId(m.id)))| == |multiset(rows)| - 1;
  }

  lemma NoTwoTie(db: Db, session: string)
    requires Valid(db)
    ensures NoTies(Of(db.rows, session), Before)
  {
    var ms := Of(db.rows, session);
    FilterAscends(db.rows, In(session));
    forall x, y | x in ms && y in ms && Before(x, y) && Before(y, x) ensures x == y {
      var i :| 0 <= i < |ms| && ms[i] == x;
      var j :| 0 <= j < |ms| && ms[j] == y;
    }
  }

  function Reverse(s: seq<Message>): (r: seq<Message>) {
    if s == [] then [] else Reverse(s[1..]) + [s[0]]
  }

  lemma {:induction false} ReverseBag(s: seq<Message>)
    ensures multiset(Reverse(s)) == multiset(s)
  {
    if s != [] {
      ReverseBag(s[1..]);
      assert s == [s[0]] + s[1..];
    }
  }

  lemma {:induction false} ReverseAt(s: seq<Message>)
    ensures |Reverse(s)| == |s| && forall i :: 0 <= i < |s| ==> Reverse(s)[i] == s[|s| - 1 - i]
  {
    if s != [] { ReverseAt(s[1..]); }
  }

  lemma ReverseFacts(s: seq<Message>)
    ensures |Reverse(s)| == |s| && multiset(Reverse(s)) == multiset(s)
    ensures forall i :: 0 <= i < |s| ==> Reverse(s)[i] == s[|s| - 1 - i]
  {
    ReverseBag(s);
    ReverseAt(s);
  }

  lemma ViewHasNoTies(db: Db, session: string)
    requires Valid(db)
    ensures NoTies(View(db, session), Before)
  {
    NoTwoTie(db, session);
    InOrder(Of(db.rows, session));
    SameBagNoTies(Of(db.rows, session), View(db, session), Before);
  }

  /** The descending query is the view read backwards. */
  lemma LatestIsBackwards(db: Db, session: string)
    requires Valid(db)
    ensures Reverse(Sort(Of(db.rows, session), After)) == View(db, session)
  {
    var latest := Sort(Of(db.rows, session), After);
    Backwards(Of(db.rows, session));
    InOrder(Of(db.rows, session));
    ReverseFacts(latest);
    ViewHasNoTies(db, session);
    SortedUnique(View(db, session), Reverse(latest), Before);
  }

  lemma {:induction false} ReversePrefix(s: seq<Message>, k: nat)
    requires k <= |s|
    ensures |Reverse(s)| == |s| && Reverse(s[..k]) == Reverse(s)[|s| - k..]
  {
    ReverseFacts(s);
    ReverseFacts(s[..k]);
  }

  lemma {:induction false} PrefixBackwards(latest: seq<Message>, view: seq<Message>, k: nat)
    requires k <= |latest| && view == Reverse(latest)
    ensures |view| == |latest| && multiset(view[|view| - k..]) == multiset(latest[..k])
  {
    ReversePrefix(latest, k);
    ReverseBag(latest[..k]);
  }

  lemma LatestPart(db: Db, session: string, k: nat)
    requires Valid(db) && k <= |Sort(Of(db.rows, session), After)|
    ensures var (view, latest) := (View(db, session), Sort(Of(db.rows, session), After));
            |view| == |latest| && multiset(view[|view| - k..]) == multiset(latest[..k])
  {
    LatestIsBackwards(db, session);
    PrefixBackwards(Sort(Of(db.rows, session), After), View(db, session), k);
  }

  lemma PartInOrder(view: seq<Message>, n: nat, m: nat)
    requires n <= m <= |view| && Sorted(view, Before) && NoTies(view, Before)
    ensures Sorted(view[n..m], Before) && NoTies(view[n..m], Before)
  {
    assert forall x :: x in view[n..m] ==> x in view;
  }

  /** Rows that make up a part of an arrangement without ties are sorted into that part. */
  lemma {:induction false} ArrangedPart(view: seq<Message>, n: nat, m: nat, rows: seq<Message>)
    requires n <= m <= |view| && Sorted(view, Before) && NoTies(view, Before)
    requires multiset(rows) == multiset(view[n..m])
    ensures Sort(rows, Before) == view[n..m]
  {
    InOrder(rows);
    PartInOrder(view, n, m);
    SortedUnique(view[n..m], Sort(rows, Before), Before);
  }

  lemma ArrangedEnd(view: seq<Message>, k: nat, rows: seq<Message>)
    requires k <= |view| && Sorted(view, Before) && NoTies(view, Before)
    requires multiset(rows) == multiset(view[|view| - k..])
    ensures Sort(rows, Before) == view[|view| - k..]
  {
    assert view[|view| - k..|view|] == view[|view| - k..];
    ArrangedPart(view, |view| - k, |view|, rows);
  }

  /** Putting the latest `k` rows in order gives the end of the view. */
  lemma LatestInOrder(db: Db, session: string, k: nat)
    requires Valid(db) && k <= |Sort(Of(db.rows, session), After)|
    ensures |View(db, session)| == |Sort(Of(db.rows, session), After)|
    ensures Sort(Sort(Of(db.rows, session), After)[..k], Before) == View(db, session)[|View(db, session)| - k..]
  {
    InOrder(Of(db.rows, session));
    ViewHasNoTies(db, session);
    LatestPart(db, session, k);
    ArrangedEnd(View(db, session), k, Sort(Of(db.rows, session), After)[..k]);
  }

  /** A limit keeps the end of the view, in order; a negative one, or one too large, keeps it all. */
  lemma LimitKeepsTheEnd(db: Db, session: string, limit: int)
    requires Valid(db)
    ensures var view := View(db, session);
            GetMessages(db, session, Some(limit)) ==
            if 0 <= limit < |view| then view[|view| - limit..] else view
  {
    var latest := Sort(Of(db.rows, session), After);
    var k := if 0 <= limit < |latest| then limit else |latest|;
    assert Limit(latest, limit) == latest[..k];
    LatestInOrder(db, session, k);
  }

  // ---------------------------------------------------------------- pop undoes append

  lemma BagWithoutLast(rows: seq<Message>)
    requires rows != []
    ensures multiset(rows[..|rows| - 1]) == multiset(rows) - multiset{rows[|rows| - 1]}
    ensures multiset(rows[..|rows| - 1]) <= multiset(rows)
  {
    AppendLast(rows);
  }

  /** Without its last message the view is the arrangement of the other messages. */
  lemma SortWithoutLast(db: Db, session: string, m: Message)
    requires Valid(db) && View(db, session) != [] && m == View(db, session)[|View(db, session)| - 1]
    ensures Sort(Filter(Of(db.rows, session), NotId(m.id)), Before) == View(db, session)[..|View(db, session)| - 1]
  {
    var (ms, view) := (Of(db.rows, session), View(db, session));
    InOrder(ms);
    assert m in multiset(view) && m in ms;
    FilterAscends(db.rows, In(session));
    WithoutBag(ms, m);
    BagWithoutLast(view);
    ViewHasNoTies(db, session);
    assert view[0..|view| - 1] == view[..|view| - 1];
    ArrangedPart(view, 0, |view| - 1, Filter(ms, NotId(m.id)));
  }

  lemma ViewWithoutLast(db: Db, session: string)
    requires Valid(db) && View(db, session) != []
    ensures var view := View(db, session);
            Sort(Of(Filter(db.rows, NotId(view[|view| - 1].id)), session), Before) == view[..|view| - 1]
  {
    var view := View(db, session);
    SortWithoutLast(db, session, view[|view| - 1]);
    FilterCommutes(db.rows, NotId(view[|view| - 1].id), In(session));
  }

  /** Popping returns the last message of the view and leaves the others. */
  lemma PopTakesTheLast(db: Db, session: string)
    requires Valid(db)
    ensures var (view, (m, db')) := (View(db, session), Pop(db, session));
            && (m == None <==> view == []) && (view == [] ==> db' == db)
            && (view != [] ==> m == Some(view[|view| - 1]) && View(db', session) == view[..|view| - 1])
  {
    var latest := Sort(Of(db.rows, session), After);
    LatestIsBackwards(db, session);
    ReverseFacts(latest);
    if latest != [] { ViewWithoutLast(db, session); }
  }

  /** No message of the session is dated after `ts`. */
  ghost predicate Latest(db: Db, session: string, ts: int) {
    forall m :: m in db.rows && m.session == session ==> m.ts <= ts
  }

  /** The newest row comes first in descending order exactly when no other row is dated after it. */
  lemma FirstIff(latest: seq<Message>, mine: seq<Message>, m: Message)
    requires latest != [] && latest[0] in latest && forall x :: x in latest <==> x == m || x in mine
    requires forall x :: x in latest ==> After(latest[0], x)
    requires forall x :: x in mine ==> x.id < m.id
    ensures latest[0] == m <==> forall x :: x in mine ==> x.ts <= m.ts
  {
    if latest[0] == m {
      forall x | x in mine ensures x.ts <= m.ts { assert x in latest; }
    } else {
      assert m in latest && latest[0] in mine;
    }
  }

  /** Popping takes back the message just appended exactly when the clock has not gone backwards. */
  lemma PopUndoesAppendIff(db: Db, session: string, ts: int, body: string)
    requires Valid(db)
    ensures var m := Message(db.nextId, session, ts, body);
            Pop(Append(db, session, ts, body), session).0 == Some(m) <==> Latest(db, session, ts)
  {
    var (m, mine) := (Message(db.nextId, session, ts, body), Of(db.rows, session));
    var latest := Sort(mine + [m], After);
    FilterMore(db.rows, m, In(session));
    FilterMembers(db.rows, In(session));
    Backwards(mine + [m]);
    FirstIff(latest, mine, m);
  }

  // ---------------------------------------------------------------- the counter

  /** The counter of the session is the number of its messages. */
  predicate Exact(db: Db, session: string) {
    session in db.counts ==> db.counts[session] == |Of(db.rows, session)|
  }

  lemma {:induction false} InsertAllOf(db: Db, dst: string, messages: seq<Message>, session: string)
    ensures |Of(InsertAll(db, dst, messages).rows, session)| ==
            |Of(db.rows, session)| + if session == dst then |messages| else 0
  {
    if messages != [] {
      var n := |messages| - 1;
      InsertAllOf(db, dst, messages[..n], session);
      var before := InsertAll(db, dst, messages[..n]);
      FilterMore(before.rows, Message(before.nextId, dst, messages[n].ts, messages[n].body), In(session));
    }
  }

  lemma ViewSize(db: Db, session: string)
    ensures |View(db, session)| == |Of(db.rows, session)|
  {
    InOrder(Of(db.rows, session));
  }

  /** Copying keeps the counter exact exactly when nothing is copied or the target was empty. */
  lemma CopyIsExactIff(db: Db, src: string, dst: string)
    requires dst in db.counts && Exact(db, dst)
    ensures Exact(Copy(db, src, dst), dst) <==> Of(db.rows, src) == [] || Of(db.rows, dst) == []
  {
    ViewSize(db, src);
    InsertAllOf(db, dst, View(db, src), dst);
    InsertAllKeepsCounts(db, dst, View(db, src));
  }

  datatype Step =
    | CreateStep(session: string)
    | AppendStep(session: string, ts: int, body: string)
    | PopStep(session: string)
    | ClearStep(session: string)
    | CopyStep(src: string, dst: string)

  function Apply(db: Db, step: Step): (r: Db) {
    match step
    case CreateStep(session) => Create(db, session)
    case AppendStep(session, ts, body) => Append(db, session, ts, body)
    case PopStep(session) => Pop(db, session).1
    case ClearStep(session) => Clear(db, session)
    case CopyStep(src, dst) => Copy(db, src, dst)
  }

  function Run(steps: seq<Step>): (r: Db) {
    if steps == [] then Db([], 0, map[]) else Apply(Run(steps[..|steps| - 1]), steps[|steps| - 1])
  }

  /** Sessions are created before they have messages, and copied into only while they have none. */
  predicate Orderly(db: Db, step: Step) {
    && (step.CreateStep? ==> step.session in db.counts || Of(db.rows, step.session) == [])
    && (step.CopyStep? ==> Of(db.rows, step.src) == [] || Of(db.rows, step.dst) == [])
  }

  ghost predicate OrderlyRun(steps: seq<Step>) {
    forall i :: 0 <= i < |steps| ==> Orderly(Run(steps[..i]), steps[i])
  }

  lemma PopOf(db: Db, session: string, other: string)
    requires Valid(db)
    ensures var (m, db') := Pop(db, session);
            |Of(db'.rows, other)| == |Of(db.rows, other)| - if m.Some? && session == other then 1 else 0
  {
    var latest := Sort(Of(db.rows, session), After);
    if latest != [] {
      var m := latest[0];
      Backwards(Of(db.rows, session));
      assert m in latest;
      FilterMembers(db.rows, In(session));
      FilterCommutes(db.rows, NotId(m.id), In(other));
      OtherOf(db, m, other);
    }
  }

  lemma OtherOf(db: Db, m: Message, other: string)
    requires Valid(db) && m in db.rows
    ensures |Filter(Of(db.rows, other), NotId(m.id))| == |Of(db.rows, other)| - if m.session == other then 1 else 0
  {
    var ms := Of(db.rows, other);
    FilterAscends(db.rows, In(other));
    FilterMembers(db.rows, In(other));
    if m.session == other {
      WithoutSize(ms, m);
    } else {
      forall x | x in ms ensures x.id != m.id {
        var i :| 0 <= i < |db.rows| && db.rows[i] == x;
        var j :| 0 <= j < |db.rows| && db.rows[j] == m;
      }
      FilterAll(ms, NotId(m.id));
    }
  }

  lemma ClearOf(db: Db, session: string, other: string)
    ensures Of(Clear(db, session).rows, other) == if other == session then [] else Of(db.rows, other)
  {
    FilterMembers(db.rows, In(other));
    FilterCommutes(db.rows, NotIn(session), In(other));
    if other == session {
      FilterNone(Of(db.rows, other), NotIn(session));
    } else {
      FilterAll(Of(db.rows, other), NotIn(session));
    }
  }

  lemma FilterIsValid(db: Db, keep: Message -> bool)
    requires Valid(db)
    ensures Valid(db.(rows := Filter(db.rows, keep)))
  {
    FilterAscends(db.rows, keep);
    FilterMembers(db.rows, keep);
  }

  lemma {:induction false} InsertAllIsValid(db: Db, dst: string, messages: seq<Message>)
    requires Valid(db)
    ensures Valid(InsertAll(db, dst, messages))
  {
    if messages != [] { InsertAllIsValid(db, dst, messages[..|messages| - 1]); }
  }

  lemma ApplyIsValid(db: Db, step: Step)
    requires Valid(db)
    ensures Valid(Apply(db, step))
  {
    match step
    case CreateStep(_) =>
    case AppendStep(session, ts, body) =>
    case PopStep(session) =>
      if Pop(db, session).0.Some? { FilterIsValid(db, NotId(Pop(db, session).0.value.id)); }
    case ClearStep(session) => FilterIsValid(db, NotIn(session));
    case CopyStep(src, dst) => InsertAllIsValid(db, dst, View(db, src));
  }

  lemma AppendKeepsExact(db: Db, s: string, ts: int, body: string, session: string)
    requires Exact(db, session)
    ensures Exact(Append(db, s, ts, body), session)
  {
    FilterMore(db.rows, Message(db.nextId, s, ts, body), In(session));
  }

  lemma PopKeepsExact(db: Db, s: string, session: string)
    requires Valid(db) && Exact(db, session)
    ensures Exact(Pop(db, s).1, session)
  {
    PopOf(db, s, session);
  }

  lemma ClearKeepsExact(db: Db, s: string, session: string)
    requires Exact(db, session)
    ensures Exact(Clear(db, s), session)
  {
    ClearOf(db, s, session);
  }

  lemma CopyKeepsExact(db: Db, src: string, dst: string, session: string)
    requires Exact(db, session) && (Of(db.rows, src) == [] || Of(db.rows, dst) == [])
    ensures Exact(Copy(db, src, dst), session)
  {
    ViewSize(db, src);
    InsertAllOf(db, dst, View(db, src), session);
    InsertAllKeepsCounts(db, dst, View(db, src));
  }

  lemma ApplyKeepsExact(db: Db, step: Step, session: string)
    requires Valid(db) && Exact(db, session) && Orderly(db, step)
    ensures Exact(Apply(db, step), session)
  {
    match step
    case CreateStep(_) =>
    case AppendStep(s, ts, body) => AppendKeepsExact(db, s, ts, body, session);
    case PopStep(s) => PopKeepsExact(db, s, session);
    case ClearStep(s) => ClearKeepsExact(db, s, session);
    case CopyStep(src, dst) => CopyKeepsExact(db, src, dst, session);
  }

  /** Over any orderly run every session's counter is the number of its messages. */
  lemma {:induction false} CounterIsExact(steps: seq<Step>, session: string)
    requires OrderlyRun(steps)
    ensures Valid(Run(steps)) && Exact(Run(steps), session)
  {
    if steps != [] {
      var n := |steps| - 1;
      forall i | 0 <= i < n ensures Orderly(Run(steps[..n][..i]), steps[..n][i]) {
        assert steps[..n][..i] == steps[..i];
      }
      CounterIsExact(steps[..n], session);
      ApplyIsValid(Run(steps[..n]), steps[n]);
      ApplyKeepsExact(Run(steps[..n]), steps[n], session);
    }
  }
}
