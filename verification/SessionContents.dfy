/** What each operation does to the messages. */
module SessionContents {
  import opened Options
  import opened Sequences
  import opened Sessions
  import opened Sorting

  /** The same rows, in the same order, but for those of `session`. */
  ghost predicate OthersStay(before: seq<Message>, after: seq<Message>, session: string) {
    forall other :: other != session ==> Of(after, other) == Of(before, other)
  }

  lemma {:induction false} OfIs(rows: seq<Message>, session: string, m: Message)
    ensures m in Of(rows, session) <==> m in rows && m.session == session
  {
    FilterMembers(rows, In(session));
  }

  /** A session is read by time and, where that ties, in the order of insertion: its messages and no others. */
  lemma {:induction false} ReadInOrder(db: Db, session: string)
    requires Valid(db)
    ensures var view := View(db, session);
            && GetMessages(db, session, None) == view
            && (forall m :: m in view <==> m in db.rows && m.session == session)
            && forall i, j :: 0 <= i < j < |view| ==>
                 view[i].ts < view[j].ts || (view[i].ts == view[j].ts && view[i].id < view[j].id)
  {
    var view := View(db, session);
    InOrder(Of(db.rows, session));
    forall m ensures m in view <==> m in db.rows && m.session == session {
      OfIs(db.rows, session, m);
      assert m in multiset(view) <==> m in multiset(Of(db.rows, session));
    }
    forall i, j | 0 <= i < j < |view|
      ensures view[i].ts < view[j].ts || (view[i].ts == view[j].ts && view[i].id < view[j].id)
    {
      if view[i].id == view[j].id {
        SameId(db, view[i], view[j]);
        TwiceInView(db, session, i, j);
      }
    }
  }

  lemma {:induction false} SameId(db: Db, a: Message, b: Message)
    requires Valid(db) && a in db.rows && b in db.rows && a.id == b.id
    ensures a == b
  {
    var i :| 0 <= i < |db.rows| && db.rows[i] == a;
    var j :| 0 <= j < |db.rows| && db.rows[j] == b;
  }

  lemma {:induction false} TwiceInView(db: Db, session: string, i: nat, j: nat)
    requires Valid(db) && i < j < |View(db, session)|
    ensures View(db, session)[i] != View(db, session)[j]
  {
    var (view, ms) := (View(db, session), Of(db.rows, session));
    var x := view[i];
    InOrder(ms);
    FilterAscends(db.rows, In(session));
    assert view == view[..j] + view[j..];
    if x == view[j] {
      assert x in view[..j] by { assert view[..j][i] == x; }
      assert x in view[j..] by { assert view[j..][0] == x; }
      assert multiset(view)[x] >= 2;
      assert x in multiset(ms);
      CountOfId(ms, x, x);
      assert false;
    }
  }

  /** An append adds one message, the newest by number; only an existing counter goes up. */
  lemma {:induction false} AppendAdds(db: Db, session: string, ts: int, body: string)
    ensures var db' := Append(db, session, ts, body);
            && db'.rows == db.rows + [Message(db.nextId, session, ts, body)] && db'.nextId == db.nextId + 1
            && OthersStay(db.rows, db'.rows, session) && db'.counts.Keys == db.counts.Keys
            && forall s :: s in db.counts ==> db'.counts[s] == db.counts[s] + if s == session then 1 else 0
  {
    forall other | other != session ensures Of(Append(db, session, ts, body).rows, other) == Of(db.rows, other) {
      FilterMore(db.rows, Message(db.nextId, session, ts, body), In(other));
      AppendNil(Of(db.rows, other));
    }
  }

  lemma {:induction false} SameNumber(rows: seq<Message>)
    ensures |Sort(rows, After)| == |Sort(rows, Before)| == |rows|
  {
    assert TotalPreorder(Before);
    assert TotalPreorder(After);
    SortSpec(rows, After);
    SortSpec(rows, Before);
  }

  /** Popping takes a message of this session only, and one off its counter. */
  lemma {:induction false} PopLeavesOthers(db: Db, session: string)
    requires Valid(db)
    ensures var db' := Pop(db, session).1;
            && OthersStay(db.rows, db'.rows, session) && db'.nextId == db.nextId && db'.counts.Keys == db.counts.Keys
            && (forall s :: s in db.counts && s != session ==> db'.counts[s] == db.counts[s])
            && (session in db.counts && db.counts[session] > 0 ==>
                  db'.counts[session] == db.counts[session] - if View(db, session) == [] then 0 else 1)
            && (session in db.counts && db.counts[session] == 0 ==> db'.counts[session] == 0)
  {
    var latest := Sort(Of(db.rows, session), After);
    SameNumber(Of(db.rows, session));
    if latest != [] {
      Backwards(Of(db.rows, session));
      OfIs(db.rows, session, latest[0]);
      forall other | other != session ensures Of(Pop(db, session).1.rows, other) == Of(db.rows, other) {
        FilterCommutes(db.rows, NotId(latest[0].id), In(other));
        OthersKeepTheirs(db, latest[0], other);
      }
    }
  }

  lemma {:induction false} OthersKeepTheirs(db: Db, m: Message, other: string)
    requires Valid(db) && m in db.rows && m.session != other
    ensures Filter(Of(db.rows, other), NotId(m.id)) == Of(db.rows, other)
  {
    forall x | x in Of(db.rows, other) ensures NotId(m.id)(x) {
      OfIs(db.rows, other, x);
      if x.id == m.id { SameId(db, x, m); }
    }
    FilterAll(Of(db.rows, other), NotId(m.id));
  }

  /** Clearing takes all of this session's messages and sets its counter to zero. */
  lemma {:induction false} ClearEmpties(db: Db, session: string)
    ensures var db' := Clear(db, session);
            && Of(db'.rows, session) == [] && OthersStay(db.rows, db'.rows, session) && db'.nextId == db.nextId
            && db'.counts.Keys == db.counts.Keys
            && forall s :: s in db.counts ==> db'.counts[s] == if s == session then 0 else db.counts[s]
  {
    forall other ensures Of(Clear(db, session).rows, other) == if other == session then [] else Of(db.rows, other) {
      ClearOf(db, session, other);
    }
  }

  /** Creating a session writes no message and leaves an existing counter alone. */
  lemma {:induction false} CreateWritesNothing(db: Db, session: string)
    ensures var db' := Create(db, session);
            && db'.rows == db.rows && db'.nextId == db.nextId && session in db'.counts
            && (forall s :: s in db.counts ==> s in db'.counts && db'.counts[s] == db.counts[s])
            && (session !in db.counts ==> db'.counts == db.counts[session := 0])
  {
  }

  /** `copies` repeat these messages in their order, for another session and under new numbers. */
  ghost predicate Repeats(copies: seq<Message>, messages: seq<Message>, session: string, from: nat) {
    && |copies| == |messages|
    && forall i :: 0 <= i < |copies| ==>
         copies[i] == Message(from + i, session, messages[i].ts, messages[i].body)
  }

  lemma {:induction false} InsertAllAppends(db: Db, dst: string, messages: seq<Message>) returns (copies: seq<Message>)
    ensures InsertAll(db, dst, messages).rows == db.rows + copies && Repeats(copies, messages, dst, db.nextId)
    ensures InsertAll(db, dst, messages).nextId == db.nextId + |messages|
  {
    if messages == [] {
      copies := [];
      AppendNil(db.rows);
    } else {
      var init, last := messages[..|messages| - 1], messages[|messages| - 1];
      copies := InsertAllAppends(db, dst, init);
      var copy := Message(db.nextId + |init|, dst, last.ts, last.body);
      Assoc(db.rows, copies, [copy]);
      copies := copies + [copy];
    }
  }

  /** A copy appends the source's messages to the target, as they are read, with their times and bodies. */
  lemma {:induction false} CopyRepeats(db: Db, src: string, dst: string) returns (copies: seq<Message>)
    ensures var db' := Copy(db, src, dst);
            && db'.rows == db.rows + copies && Repeats(copies, View(db, src), dst, db.nextId)
            && db'.counts.Keys == db.counts.Keys
            && forall s :: s in db.counts ==>
                 db'.counts[s] == if s == dst && copies != [] then |copies| else db.counts[s]
  {
    copies := InsertAllAppends(db, dst, View(db, src));
    InsertAllKeepsCounts(db, dst, View(db, src));
    if View(db, src) == [] { AppendNil(db.rows); }
  }
}
