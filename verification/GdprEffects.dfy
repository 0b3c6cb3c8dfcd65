/** What a GDPR delivery archives and deletes. */
module GdprEffects {
  import opened Gdpr

  /** The tables whose rows are archived. */
  predicate InArchive(table: Table) {
    table in {MemoryChunks, TurnOutcomes, SessionSummaries, Messages, Sessions, UserDocuments, SkillProposals, Agents,
              UsageEvents}
  }

  /** The archive holds the user's rows of those tables, as they are, and no others. */
  ghost predicate ArchiveOf(rows: map<nat, Row>, user: string, dump: map<nat, Row>) {
    && (forall id :: id in dump <==> id in rows && rows[id].user == user && InArchive(rows[id].table))
    && forall id :: id in dump ==> dump[id] == rows[id]
  }

  /** The user is gone with all the rows of every table; every other user and row is still there. */
  ghost predicate Gone(s: State, s': State, user: string) {
    && (forall u :: u in s'.users <==> u in s.users && u != user)
    && (forall id :: id in s'.rows <==> id in s.rows && s.rows[id].user != user)
    && (forall id :: id in s'.rows ==> s'.rows[id] == s.rows[id])
    && s'.requests.Keys == s.requests.Keys
    && forall r :: r in s.requests ==>
         s'.requests[r] == s.requests[r].(linked := s.requests[r].linked && s.requests[r].user != user,
                                          completed := s'.requests[r].completed)
  }

  /** From `s` to `s'` the request's user was archived under its key, deleted, and this request alone completed. */
  ghost predicate ArchivesAndDeletes(s: State, s': State, rid: nat)
    requires rid in s.requests
  {
    var (user, key) := (s.requests[rid].user, ObjectKey(s.requests[rid].user, rid));
    && Gone(s, s', user) && key in s'.objects && ArchiveOf(s.rows, user, s'.objects[key])
    && (forall k :: k != key ==>
          (k in s'.objects <==> k in s.objects) && (k in s.objects ==> s'.objects[k] == s.objects[k]))
    && forall r :: r in s.requests ==> s'.requests[r].completed == (r == rid || s.requests[r].completed)
  }

  lemma {:induction false} DeliveredIsThat(s: State, s': State, rid: nat)
    requires rid in s.requests && Delivered(s, s', rid)
    ensures ArchivesAndDeletes(s, s', rid)
  {
  }

  /** A delivery of an open request that runs undisturbed does exactly that. */
  lemma {:induction false} DeliveryArchivesAndDeletes(s: State, wid: nat, rid: nat)
    requires wid !in s.workers && rid in s.requests
    requires s.requests[rid].linked && !s.requests[rid].cancelled && !s.requests[rid].completed
    ensures var s1 := Apply(Apply(Apply(s, Deliver(wid, rid)), CollectExport(wid)), PutOk(wid));
            ArchivesAndDeletes(s, Apply(Apply(s1, Purge(wid)), Complete(wid)), rid)
  {
    UndisturbedDelivery(s, wid, rid);
    var s1 := Apply(Apply(Apply(s, Deliver(wid, rid)), CollectExport(wid)), PutOk(wid));
    DeliveredIsThat(s, Apply(Apply(s1, Purge(wid)), Complete(wid)), rid);
  }

  /** A request that is unknown, closed or cut off from its user starts nothing. */
  lemma {:induction false} ClosedStartsNothing(s: State, wid: nat, rid: nat)
    requires rid in s.requests ==>
               !s.requests[rid].linked || s.requests[rid].cancelled || s.requests[rid].completed
    ensures Apply(s, Deliver(wid, rid)) == s
  {
  }

  /** An upload that fails ends the worker with nothing deleted. */
  lemma {:induction false} FailedUploadDeletesNothing(s: State, wid: nat, stored: bool)
    requires wid in s.workers && s.workers[wid].phase.Uploading?
    ensures var (w, s') := (s.workers[wid], Apply(s, PutFails(wid, stored)));
            && s'.users == s.users && s'.rows == s.rows && s'.requests == s.requests && !Active(s', wid)
            && s'.objects == (if stored then s.objects[ObjectKey(w.user, w.request) := w.phase.dump] else s.objects)
            && Apply(s', Purge(wid)) == s' && Apply(s', Complete(wid)) == s'
  {
  }

  /** Before any of it users come, write and erase rows, and ask to be forgotten, once at a time. */
  lemma {:induction false} UsersActFreely(s: State, user: string, id: nat, row: Row, rid: nat)
    ensures var (added, written, erased) := (Apply(s, AddUser(user)), Apply(s, Write(id, row)), Apply(s, Erase(id)));
            && (user !in s.known ==> added == s.(users := s.users + {user}, known := s.known + {user}))
            && (row.user in s.users && id !in s.rows && id !in s.purged ==> written == s.(rows := s.rows[id := row]))
            && erased == s.(rows := s.rows - {id})
    ensures var open := Apply(s, OpenRequest(rid, user));
            var idle := forall r :: r in s.requests && s.requests[r].user == user ==>
                          s.requests[r].cancelled || s.requests[r].completed;
            rid !in s.requests && user in s.users ==>
              open == if idle then s.(requests := s.requests[rid := Request(user, true, false, false)]) else s
    ensures rid in s.requests && s.requests[rid].linked && !s.requests[rid].completed ==>
              Apply(s, Cancel(rid)).requests[rid] == s.requests[rid].(cancelled := true)
  {
  }
}
