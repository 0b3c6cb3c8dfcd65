/** When the rows the GDPR delete worker deletes are in its archive. */
module GdprArchive {
  import opened Gdpr

  /** The deleted row is in the archive of the worker that deleted it. */
  predicate Archived(s: State, id: nat) {
    id in s.purged && s.purged[id].key in s.objects &&
    id in s.objects[s.purged[id].key] && s.objects[s.purged[id].key][id] == s.purged[id].row
  }

  /**
   * No delivery of a request starts while another is at work on it, and nothing is written for a user between a
   * worker's export and its purge.
   */
  ghost predicate Quiet(s: State, step: Step) {
    && (step.Deliver? ==> forall wid :: Active(s, wid) ==> s.workers[wid].request != step.rid)
    && (step.Write? ==> forall wid :: wid in s.workers && s.workers[wid].user == step.row.user ==>
          !s.workers[wid].phase.Uploading? && s.workers[wid].phase != Purging)
  }

  ghost predicate QuietRun(steps: seq<Step>) {
    forall i :: 0 <= i < |steps| ==> Quiet(Run(steps[..i]), steps[i])
  }

  /** `archive` holds every exported row of the user as it is now. */
  ghost predicate Covers(archive: map<nat, Row>, rows: map<nat, Row>, user: string) {
    forall id :: id in rows && rows[id].user == user && Exported(rows[id].table) ==>
      id in archive && archive[id] == rows[id]
  }

  ghost predicate PhaseFits(s: State, wid: nat)
    requires wid in s.workers
  {
    var w := s.workers[wid];
    && (w.phase.Uploading? ==> Covers(w.phase.dump, s.rows, w.user))
    && (w.phase == Purging ==> KeyOf(w) in s.objects && Covers(s.objects[KeyOf(w)], s.rows, w.user))
  }

  /** A deleted row's archive is complete and nobody writes it any more. */
  ghost predicate PurgedFits(s: State, id: nat)
    requires id in s.purged
  {
    var key := s.purged[id].key;
    && (Exported(s.purged[id].row.table) ==> Archived(s, id))
    && key.request in s.requests && !s.requests[key.request].linked
    && (forall wid :: Active(s, wid) && s.workers[wid].request == key.request ==> s.workers[wid].phase == Completing)
  }

  ghost predicate QuietInv(s: State) {
    && Inv(s)
    && (forall id :: id in s.rows ==> id !in s.purged)
    && (forall v, w :: Active(s, v) && Active(s, w) && v != w ==> s.workers[v].request != s.workers[w].request)
    && (forall wid :: wid in s.workers ==> PhaseFits(s, wid))
    && (forall id :: id in s.purged ==> PurgedFits(s, id))
  }

  /** After its purge a worker's deletions are archived, and nobody else is on its request. */
  lemma PurgeFits(s: State, wid: nat, id: nat)
    requires QuietInv(s) && wid in s.workers && s.workers[wid].phase == Purging
    requires id in s.rows && s.rows[id].user == s.workers[wid].user
    ensures PurgedFits(Move(PurgeUser(s, wid), wid, Completing), id)
  {
    var (s', w) := (Move(PurgeUser(s, wid), wid, Completing), s.workers[wid]);
    assert Active(s, wid) && PhaseFits(s, wid) && WorkerFits(s, wid);
    assert s'.purged[id] == Purged(s.rows[id], KeyOf(w));
    forall v | Active(s', v) ensures Active(s, v) {}
  }

  lemma PurgeKeepsOlder(s: State, wid: nat, id: nat)
    requires QuietInv(s) && wid in s.workers && s.workers[wid].phase == Purging && id in s.purged
    ensures PurgedFits(Move(PurgeUser(s, wid), wid, Completing), id)
  {
    var s' := Move(PurgeUser(s, wid), wid, Completing);
    assert PurgedFits(s, id) && id !in s.rows;
    assert s'.purged[id] == s.purged[id];
    forall v | Active(s', v) ensures Active(s, v) {}
  }

  lemma PurgeKeepsQuietInv(s: State, wid: nat)
    requires QuietInv(s) && wid in s.workers && s.workers[wid].phase == Purging
    ensures QuietInv(Apply(s, Purge(wid)))
  {
    var s' := Move(PurgeUser(s, wid), wid, Completing);
    PurgeKeepsInv(s, wid);
    assert s' == Apply(s, Purge(wid));
    forall k | k in s'.workers ensures PhaseFits(s', k) { assert PhaseFits(s, k); }
    forall v | Active(s', v) ensures Active(s, v) {}
    forall id | id in s'.purged ensures PurgedFits(s', id) {
      if id in s.purged { PurgeKeepsOlder(s, wid, id); } else { PurgeFits(s, wid, id); }
    }
  }

  lemma PutKeepsPurged(s: State, wid: nat, phase: Phase, id: nat)
    requires QuietInv(s) && wid in s.workers && s.workers[wid].phase.Uploading? && phase in {Purging, Stopped}
    requires id in s.purged
    ensures PurgedFits(Move(Upload(s, wid), wid, phase), id)
  {
    assert Active(s, wid) && PhaseFits(s, wid) && PurgedFits(s, id);
    assert s.purged[id].key != KeyOf(s.workers[wid]);
  }

  lemma PutKeepsPhases(s: State, wid: nat, phase: Phase, k: nat)
    requires QuietInv(s) && wid in s.workers && s.workers[wid].phase.Uploading? && phase in {Purging, Stopped}
    requires k in s.workers
    ensures PhaseFits(Move(Upload(s, wid), wid, phase), k)
  {
    assert Active(s, wid) && PhaseFits(s, k) && WorkerFits(s, k);
    if k != wid && s.workers[k].phase == Purging {
      assert Active(s, k) && KeyOf(s.workers[k]) != KeyOf(s.workers[wid]);
    }
  }

  lemma PutKeepsQuietInv(s: State, wid: nat, phase: Phase)
    requires QuietInv(s) && wid in s.workers && s.workers[wid].phase.Uploading? && phase in {Purging, Stopped}
    ensures QuietInv(Move(Upload(s, wid), wid, phase))
  {
    var s' := Move(Upload(s, wid), wid, phase);
    forall k | k in s'.workers ensures WorkerFits(s', k) { assert WorkerFits(s, k); }
    forall rid | rid in s'.requests ensures RequestFits(s', rid) { assert RequestFits(s, rid); }
    forall v | Active(s', v) ensures Active(s, v) {}
    assert Active(s, wid);
    forall k | k in s'.workers ensures PhaseFits(s', k) { PutKeepsPhases(s, wid, phase, k); }
    forall id | id in s'.purged ensures PurgedFits(s', id) { PutKeepsPurged(s, wid, phase, id); }
  }

  /** A worker moves on, and nothing else changes. */
  lemma MoveKeepsQuietInv(s: State, wid: nat, phase: Phase)
    requires QuietInv(s) && Active(s, wid) && (phase == Stopped || s.workers[wid].phase == Exporting)
    requires phase == Stopped || (phase.Uploading? && phase.dump == Export(s.rows, s.workers[wid].user))
    ensures QuietInv(Move(s, wid, phase))
  {
    var s' := Move(s, wid, phase);
    MoveKeepsInv(s, wid, phase);
    forall v | Active(s', v) ensures Active(s, v) {}
    forall k | k in s'.workers ensures PhaseFits(s', k) { assert PhaseFits(s, k); }
    forall id | id in s'.purged ensures PurgedFits(s', id) { assert PurgedFits(s, id); }
  }

  /** Archives and deletions stay; rows and workers only go; an unlinked request stays unlinked. */
  ghost predicate Quieter(s: State, s': State) {
    && s'.objects == s.objects && s'.purged == s.purged
    && (forall id :: id in s'.rows ==> id in s.rows && s'.rows[id] == s.rows[id])
    && (forall v :: Active(s', v) ==> Active(s, v) && s'.workers[v] == s.workers[v])
    && (forall r :: r in s.requests && !s.requests[r].linked ==> r in s'.requests && !s'.requests[r].linked)
  }

  lemma QuieterKeepsQuietInv(s: State, s': State)
    requires QuietInv(s) && Inv(s') && Quieter(s, s')
    ensures QuietInv(s')
  {
    forall k | k in s'.workers ensures PhaseFits(s', k) {
      if Active(s', k) { assert PhaseFits(s, k); }
    }
    forall id | id in s'.purged ensures PurgedFits(s', id) { assert PurgedFits(s, id); }
  }

  lemma DeliverKeepsQuietInv(s: State, wid: nat, rid: nat)
    requires QuietInv(s) && Quiet(s, Deliver(wid, rid)) && wid !in s.workers && !Settled(s.requests, rid)
    ensures QuietInv(Apply(s, Deliver(wid, rid)))
  {
    var w := Worker(s.requests[rid].user, rid, Exporting);
    var s' := s.(workers := s.workers[wid := w]);
    assert s' == Apply(s, Deliver(wid, rid));
    DeliverKeepsInv(s, wid, rid);
    forall v | Active(s', v) && v != wid ensures Active(s, v) && s.workers[v].request != rid {}
    forall k | k in s'.workers ensures PhaseFits(s', k) { assert k != wid ==> PhaseFits(s, k); }
    forall id | id in s'.purged ensures PurgedFits(s', id) { assert PurgedFits(s, id); }
  }

  lemma QuieterMove(s: State, wid: nat)
    requires wid in s.workers
    ensures Quieter(s, Move(s, wid, Stopped))
  {
    forall v | Active(Move(s, wid, Stopped), v) ensures Active(s, v) && v != wid {}
  }

  /** Completion changes one request and stops the worker. */
  lemma QuieterCompletion(s: State, wid: nat)
    ensures Quieter(s, Apply(s, Complete(wid)))
  {
    var s' := Apply(s, Complete(wid));
    if s' != s {
      forall v | Active(s', v) ensures Active(s, v) && v != wid {}
    } else {
      forall v | Active(s', v) ensures Active(s, v) {}
    }
  }

  /** Users, rows and requests change; the workers do not. */
  lemma QuieterData(s: State, step: Step)
    requires step.AddUser? || step.Erase? || step.OpenRequest? || step.Cancel?
    ensures Quieter(s, Apply(s, step))
  {
    var s' := Apply(s, step);
    assert s'.workers == s.workers && s'.objects == s.objects && s'.purged == s.purged;
    forall v | Active(s', v) ensures Active(s, v) {}
  }

  lemma QuieterStep(s: State, step: Step)
    requires step.AddUser? || step.Erase? || step.OpenRequest? || step.Cancel? || step.Complete? || step.Stop?
    ensures Quieter(s, Apply(s, step))
  {
    match step
    case Complete(wid) => QuieterCompletion(s, wid);
    case Stop(wid) => if wid in s.workers { QuieterMove(s, wid); }
    case _ => QuieterData(s, step);
  }

  lemma CoversOtherUser(archive: map<nat, Row>, rows: map<nat, Row>, user: string, id: nat, row: Row)
    requires Covers(archive, rows, user) && row.user != user
    ensures Covers(archive, rows[id := row], user)
  {
  }

  lemma WriteKeepsPhase(s: State, id: nat, row: Row, k: nat)
    requires k in s.workers && PhaseFits(s, k) && Quiet(s, Write(id, row))
    ensures PhaseFits(s.(rows := s.rows[id := row]), k)
  {
    var w := s.workers[k];
    if w.phase.Uploading? { CoversOtherUser(w.phase.dump, s.rows, w.user, id, row); }
    if w.phase == Purging { CoversOtherUser(s.objects[KeyOf(w)], s.rows, w.user, id, row); }
  }

  lemma WriteKeepsQuietInv(s: State, id: nat, row: Row)
    requires QuietInv(s) && Quiet(s, Write(id, row)) && Apply(s, Write(id, row)) != s
    ensures QuietInv(Apply(s, Write(id, row)))
  {
    var s' := s.(rows := s.rows[id := row]);
    assert s' == Apply(s, Write(id, row));
    RowsKeepInv(s, Write(id, row));
    forall k | k in s'.workers ensures PhaseFits(s', k) { WriteKeepsPhase(s, id, row, k); }
    forall v | Active(s', v) ensures Active(s, v) {}
    forall i | i in s'.purged ensures PurgedFits(s', i) { assert PurgedFits(s, i); }
  }

  lemma ApplyKeepsQuietInv(s: State, step: Step)
    requires QuietInv(s) && Quiet(s, step)
    ensures QuietInv(Apply(s, step))
  {
    match step
    case Purge(wid) => if Apply(s, step) != s { PurgeKeepsQuietInv(s, wid); }
    case PutOk(wid) =>
      if wid in s.workers && s.workers[wid].phase.Uploading? { PutKeepsQuietInv(s, wid, Purging); }
    case PutFails(wid, stored) =>
      if wid in s.workers && s.workers[wid].phase.Uploading? {
        if stored { PutKeepsQuietInv(s, wid, Stopped); } else { MoveKeepsQuietInv(s, wid, Stopped); }
      }
    case CollectExport(wid) =>
      if wid in s.workers && s.workers[wid].phase == Exporting {
        MoveKeepsQuietInv(s, wid, Uploading(Export(s.rows, s.workers[wid].user)));
      }
    case Deliver(wid, rid) =>
      if wid !in s.workers && !Settled(s.requests, rid) { DeliverKeepsQuietInv(s, wid, rid); }
    case Write(id, row) => if Apply(s, step) != s { WriteKeepsQuietInv(s, id, row); }
    case _ =>
      ApplyKeepsInv(s, step);
      QuieterStep(s, step);
      QuieterKeepsQuietInv(s, Apply(s, step));
  }

  lemma {:induction false} QuietRunInv(steps: seq<Step>)
    requires QuietRun(steps)
    ensures QuietInv(Run(steps))
  {
    if steps != [] {
      var n := |steps| - 1;
      forall i | 0 <= i < n ensures Quiet(Run(steps[..n][..i]), steps[..n][i]) { assert steps[..n][..i] == steps[..i]; }
      QuietRunInv(steps[..n]);
      ApplyKeepsQuietInv(Run(steps[..n]), steps[n]);
    }
  }

  /**
   * Over any quiet run, with crashes, redeliveries, failed uploads and cancellations anywhere, a deleted row is in
   * the archive of the worker that deleted it exactly when its table is one the export reads.
   */
  lemma {:induction false} PurgedIsArchivedIff(steps: seq<Step>, id: nat)
    requires QuietRun(steps)
    ensures var s := Run(steps);
            id in s.purged ==> (Archived(s, id) <==> Exported(s.purged[id].row.table))
  {
    QuietRunInv(steps);
    if id in Run(steps).purged { assert PurgedFits(Run(steps), id); }
  }

  // ---------------------------------------------------------------- runs that are not quiet

  lemma LateWriteUnarchived(s: State, wid: nat, id: nat, row: Row)
    requires wid in s.workers && s.workers[wid].phase == Purging && s.workers[wid].user == row.user
    requires row.user in s.users && id !in s.purged && id !in s.rows
    requires KeyOf(s.workers[wid]) in s.objects ==> id !in s.objects[KeyOf(s.workers[wid])]
    ensures var s' := Apply(Apply(s, Write(id, row)), Purge(wid));
            id in s'.purged && s'.purged[id].row == row && !Archived(s', id)
  {
  }

  lemma OverlapUnarchives(s: State, v: nat, w: nat, id: nat)
    requires v in s.workers && w in s.workers && v != w && KeyOf(s.workers[v]) == KeyOf(s.workers[w])
    requires s.workers[v].phase == Purging && s.workers[w].phase == Exporting
    requires id in s.rows && s.rows[id].user == s.workers[v].user
    ensures var s' := Apply(Apply(Apply(s, Purge(v)), CollectExport(w)), PutOk(w));
            && id in s'.purged && s'.purged[id].row == s.rows[id] && !Archived(s', id)
            && s'.objects[KeyOf(s.workers[v])] == map[]
  {
    var s1 := Apply(s, Purge(v));
    assert s1 == Move(PurgeUser(s, v), v, Completing) && id in s1.purged;
    assert Export(s1.rows, s.workers[w].user) == map[];
    var s2 := Apply(s1, CollectExport(w));
    assert s2 == Move(s1, w, Uploading(map[]));
    assert Apply(s2, PutOk(w)) == Move(Upload(s2, w), w, Purging);
  }

  lemma RunMore2(steps: seq<Step>, a: Step, b: Step)
    ensures Run(steps + [a] + [b]) == Apply(Apply(Run(steps), a), b)
  {
    RunMore(steps, a);
    RunMore(steps + [a], b);
  }

  /** A worker archives its user, and only then is a row written. */
  function LateRun(wid: nat, rid: nat, id: nat, row: Row): (steps: seq<Step>) {
    UploadedRun(row.user, rid, wid) + [Write(id, row)] + [Purge(wid)]
  }

  /** In that run the row is deleted and in no archive of the worker that deletes it. */
  lemma LateWriteIsLost(wid: nat, rid: nat, id: nat, row: Row)
    ensures var s := Run(LateRun(wid, rid, id, row));
            id in s.purged && s.purged[id].row == row && !Archived(s, id)
  {
    UploadedState(row.user, rid, wid);
    RunMore2(UploadedRun(row.user, rid, wid), Write(id, row), Purge(wid));
    LateWriteUnarchived(Run(UploadedRun(row.user, rid, wid)), wid, id, row);
  }

  /** Two deliveries of one request, with the first worker about to purge. */
  function SharedRun(v: nat, w: nat, rid: nat, id: nat, row: Row): (steps: seq<Step>) {
    [AddUser(row.user)] + [Write(id, row)] + [OpenRequest(rid, row.user)] + [Deliver(v, rid)] + [Deliver(w, rid)]
    + [CollectExport(v)] + [PutOk(v)]
  }

  /** The first worker archives and purges before the second exports. */
  function OverlappingRun(v: nat, w: nat, rid: nat, id: nat, row: Row): (steps: seq<Step>) {
    SharedRun(v, w, rid, id, row) + [Purge(v)] + [CollectExport(w)] + [PutOk(w)]
  }

  lemma SharedStart(rid: nat, id: nat, row: Row)
    ensures Run([AddUser(row.user)] + [Write(id, row)] + [OpenRequest(rid, row.user)]) ==
            State({row.user}, {row.user}, map[id := row], map[rid := Request(row.user, true, false, false)],
                  map[], map[], map[])
  {
    RunOne(AddUser(row.user));
    assert Run([AddUser(row.user)]) == State({row.user}, {row.user}, map[], map[], map[], map[], map[]);
    RunMore2([AddUser(row.user)], Write(id, row), OpenRequest(rid, row.user));
  }

  lemma SharedState(v: nat, w: nat, rid: nat, id: nat, row: Row)
    requires v != w
    ensures var s := Run(SharedRun(v, w, rid, id, row));
            && s.rows == map[id := row] && v in s.workers && w in s.workers
            && s.workers[v] == Worker(row.user, rid, Purging) && s.workers[w] == Worker(row.user, rid, Exporting)
  {
    var start := [AddUser(row.user)] + [Write(id, row)] + [OpenRequest(rid, row.user)];
    SharedStart(rid, id, row);
    RunMore2(start, Deliver(v, rid), Deliver(w, rid));
    RunMore2(start + [Deliver(v, rid)] + [Deliver(w, rid)], CollectExport(v), PutOk(v));
  }

  /** In that run the second worker empties the archive, and the user's row is in none. */
  lemma OverlapEmptiesTheArchive(v: nat, w: nat, rid: nat, id: nat, row: Row)
    requires v != w
    ensures var s := Run(OverlappingRun(v, w, rid, id, row));
            && id in s.purged && s.purged[id].row == row && !Archived(s, id)
            && ObjectKey(row.user, rid) in s.objects && s.objects[ObjectKey(row.user, rid)] == map[]
  {
    var shared := SharedRun(v, w, rid, id, row);
    SharedState(v, w, rid, id, row);
    RunMore2(shared, Purge(v), CollectExport(w));
    RunMore(shared + [Purge(v)] + [CollectExport(w)], PutOk(w));
    OverlapUnarchives(Run(shared), v, w, id);
  }
}
