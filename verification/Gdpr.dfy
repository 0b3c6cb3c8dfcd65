/**
 * The GDPR delete worker: export, upload, purge, complete, with redelivery and crashes at any point. Any number of
 * workers may run, on the same request or on different ones, and users go on writing while their data is exported.
 */
module Gdpr {

  /** The tables with rows of one user: those the export reads, and those only the purge empties. */
  datatype Table =
    | MemoryChunks | TurnOutcomes | SessionSummaries | Messages | Sessions | UserDocuments | SkillProposals | Agents
    | UsageEvents | CronJobs | McpServers | Other(name: string)

  datatype Row = Row(user: string, table: Table, body: string)

  /** `linked` until the purge of the user sets the foreign key to NULL. */
  datatype Request = Request(user: string, linked: bool, cancelled: bool, completed: bool)

  /** gdpr/<user>/<request>.json */
  datatype ObjectKey = ObjectKey(user: string, request: nat)

  datatype Phase = Exporting | Uploading(dump: map<nat, Row>) | Purging | Completing | Stopped

  datatype Worker = Worker(user: string, request: nat, phase: Phase)

  /** A deleted row, and the archive of the worker that deleted it. */
  datatype Purged = Purged(row: Row, key: ObjectKey)

  datatype State = State(
    users: set<string>, known: set<string>, rows: map<nat, Row>, requests: map<nat, Request>,
    objects: map<ObjectKey, map<nat, Row>>, workers: map<nat, Worker>, purged: map<nat, Purged>)

  datatype Step =
    | AddUser(user: string)
    | Write(id: nat, row: Row)
    | Erase(id: nat)
    | OpenRequest(rid: nat, user: string)
    | Cancel(rid: nat)
    | Deliver(wid: nat, rid: nat)
    | CollectExport(wid: nat)
    | PutOk(wid: nat)
    | PutFails(wid: nat, stored: bool)
    | Purge(wid: nat)
    | Complete(wid: nat)
    | Stop(wid: nat)

  /** GDPR_TENANT_TABLES. */
  predicate Exported(table: Table) {
    !table.CronJobs? && !table.McpServers? && !table.Other?
  }

  // ---------------------------------------------------------------- the pieces

  function Export(rows: map<nat, Row>, user: string): (r: map<nat, Row>) {
    map id | id in rows && rows[id].user == user && Exported(rows[id].table) :: rows[id]
  }

  function RowsOf(rows: map<nat, Row>, user: string): (r: set<nat>) {
    set id | id in rows && rows[id].user == user
  }

  function Unlink(requests: map<nat, Request>, user: string): (r: map<nat, Request>) {
    map rid | rid in requests ::
      if requests[rid].user == user then requests[rid].(linked := false) else requests[rid]
  }

  /** The worker's first read: nothing is left to do for this request. */
  predicate Settled(requests: map<nat, Request>, rid: nat) {
    rid !in requests || requests[rid].completed || requests[rid].cancelled || !requests[rid].linked
  }

  /** The unique index on open requests. */
  predicate HasOpenRequest(requests: map<nat, Request>, user: string) {
    exists r :: r in requests && requests[r].user == user && !requests[r].cancelled && !requests[r].completed
  }

  function KeyOf(w: Worker): (r: ObjectKey) {
    ObjectKey(w.user, w.request)
  }

  // ---------------------------------------------------------------- the steps

  function Start(): (r: State) {
    State({}, {}, map[], map[], map[], map[], map[])
  }

  predicate Active(s: State, wid: nat) {
    wid in s.workers && s.workers[wid].phase != Stopped
  }

  function Move(s: State, wid: nat, phase: Phase): (r: State)
    requires wid in s.workers
  {
    s.(workers := s.workers[wid := s.workers[wid].(phase := phase)])
  }

  function Upload(s: State, wid: nat): (r: State)
    requires wid in s.workers && s.workers[wid].phase.Uploading?
  {
    s.(objects := s.objects[KeyOf(s.workers[wid]) := s.workers[wid].phase.dump])
  }

  function PurgeUser(s: State, wid: nat): (r: State)
    requires wid in s.workers
  {
    var w := s.workers[wid];
    var gone := RowsOf(s.rows, w.user);
    s.(users := s.users - {w.user}, rows := s.rows - gone, requests := Unlink(s.requests, w.user),
       purged := s.purged + map id | id in gone :: Purged(s.rows[id], KeyOf(w)))
  }

  function Apply(s: State, step: Step): (r: State) {
    match step
    case AddUser(user) =>
      if user in s.known then s else s.(users := s.users + {user}, known := s.known + {user})
    case Write(id, row) =>
      if row.user in s.users && id !in s.purged && (id in s.rows ==> s.rows[id].user == row.user)
      then s.(rows := s.rows[id := row]) else s
    case Erase(id) => s.(rows := s.rows - {id})
    case OpenRequest(rid, user) =>
      if rid in s.requests || user !in s.users || HasOpenRequest(s.requests, user) then s
      else s.(requests := s.requests[rid := Request(user, true, false, false)])
    case Cancel(rid) =>
      if Settled(s.requests, rid) then s else s.(requests := s.requests[rid := s.requests[rid].(cancelled := true)])
    case Deliver(wid, rid) =>
      if wid in s.workers || Settled(s.requests, rid) then s
      else s.(workers := s.workers[wid := Worker(s.requests[rid].user, rid, Exporting)])
    case CollectExport(wid) =>
      if wid in s.workers && s.workers[wid].phase == Exporting
      then Move(s, wid, Uploading(Export(s.rows, s.workers[wid].user))) else s
    case PutOk(wid) =>
      if wid in s.workers && s.workers[wid].phase.Uploading? then Move(Upload(s, wid), wid, Purging) else s
    case PutFails(wid, stored) =>
      if wid in s.workers && s.workers[wid].phase.Uploading?
      then Move(if stored then Upload(s, wid) else s, wid, Stopped) else s
    case Purge(wid) =>
      if wid in s.workers && s.workers[wid].phase == Purging then Move(PurgeUser(s, wid), wid, Completing) else s
    case Complete(wid) =>
      if wid in s.workers && s.workers[wid].phase == Completing && s.workers[wid].request in s.requests then
        var rid := s.workers[wid].request;
        Move(s.(requests := s.requests[rid := s.requests[rid].(completed := true)]), wid, Stopped)
      else s
    case Stop(wid) => if wid in s.workers then Move(s, wid, Stopped) else s
  }

  function Run(steps: seq<Step>): (r: State) {
    if steps == [] then Start() else Apply(Run(steps[..|steps| - 1]), steps[|steps| - 1])
  }

  lemma RunMore(steps: seq<Step>, step: Step)
    ensures Run(steps + [step]) == Apply(Run(steps), step)
  {
    assert (steps + [step])[..|steps|] == steps;
  }

  // ---------------------------------------------------------------- what holds in every run

  ghost predicate WorkerFits(s: State, wid: nat)
    requires wid in s.workers
  {
    var w := s.workers[wid];
    && w.request in s.requests && s.requests[w.request].user == w.user
    && (w.phase == Completing ==> w.user !in s.users)
  }

  ghost predicate RequestFits(s: State, rid: nat)
    requires rid in s.requests
  {
    var r := s.requests[rid];
    r.user in s.known && (r.linked <==> r.user in s.users) && (r.completed ==> !r.linked)
  }

  ghost predicate Inv(s: State) {
    && s.users <= s.known
    && (forall id :: id in s.rows ==> s.rows[id].user in s.users)
    && (forall rid :: rid in s.requests ==> RequestFits(s, rid))
    && (forall wid :: wid in s.workers ==> WorkerFits(s, wid))
    && (forall key, id :: key in s.objects && id in s.objects[key] ==> Exported(s.objects[key][id].table))
    && (forall wid :: wid in s.workers && s.workers[wid].phase.Uploading? ==>
          OnlyTenantTables(s.workers[wid].phase.dump))
  }

  predicate OnlyTenantTables(rows: map<nat, Row>) {
    forall id :: id in rows ==> Exported(rows[id].table)
  }

  lemma PurgeKeepsInv(s: State, wid: nat)
    requires Inv(s) && wid in s.workers && s.workers[wid].phase == Purging
    ensures Inv(Apply(s, Purge(wid)))
  {
    var s' := Apply(s, Purge(wid));
    forall rid | rid in s'.requests ensures RequestFits(s', rid) { assert RequestFits(s, rid); }
    forall k | k in s'.workers ensures WorkerFits(s', k) { assert WorkerFits(s, k); }
  }

  /** A worker moves on, and nothing else changes. */
  lemma MoveKeepsInv(s: State, wid: nat, phase: Phase)
    requires Inv(s) && wid in s.workers && phase != Completing
    requires phase.Uploading? ==> OnlyTenantTables(phase.dump)
    ensures Inv(Move(s, wid, phase))
  {
    var s' := Move(s, wid, phase);
    forall k | k in s'.workers ensures WorkerFits(s', k) { assert WorkerFits(s, k); }
    forall rid | rid in s'.requests ensures RequestFits(s', rid) { assert RequestFits(s, rid); }
  }

  lemma UploadKeepsInv(s: State, wid: nat)
    requires Inv(s) && wid in s.workers && s.workers[wid].phase.Uploading?
    ensures Inv(Upload(s, wid))
  {
    var s' := Upload(s, wid);
    forall k | k in s'.workers ensures WorkerFits(s', k) { assert WorkerFits(s, k); }
    forall rid | rid in s'.requests ensures RequestFits(s', rid) { assert RequestFits(s, rid); }
  }

  lemma CompleteKeepsInv(s: State, wid: nat)
    requires Inv(s)
    ensures Inv(Apply(s, Complete(wid)))
  {
    var s' := Apply(s, Complete(wid));
    if s' != s {
      assert WorkerFits(s, wid);
      forall k | k in s'.workers ensures WorkerFits(s', k) { assert WorkerFits(s, k); }
      forall rid | rid in s'.requests ensures RequestFits(s', rid) { assert RequestFits(s, rid); }
    }
  }

  /** Requests are opened or cancelled, none is completed or unlinked. */
  lemma RequestsKeepInv(s: State, rid: nat, r: Request)
    requires Inv(s) && r.user in s.users && r.linked && !r.completed
    requires rid in s.requests ==> s.requests[rid].user == r.user
    ensures Inv(s.(requests := s.requests[rid := r]))
  {
    var s' := s.(requests := s.requests[rid := r]);
    forall k | k in s'.workers ensures WorkerFits(s', k) { assert WorkerFits(s, k); }
    forall k | k in s'.requests ensures RequestFits(s', k) { assert k != rid ==> RequestFits(s, k); }
  }

  lemma OpenOrCancelKeepsInv(s: State, step: Step)
    requires Inv(s) && (step.OpenRequest? || step.Cancel?)
    ensures Inv(Apply(s, step))
  {
    match step
    case OpenRequest(rid, user) =>
      if rid !in s.requests && user in s.users && !HasOpenRequest(s.requests, user) {
        RequestsKeepInv(s, rid, Request(user, true, false, false));
      }
    case Cancel(rid) =>
      if !Settled(s.requests, rid) {
        assert RequestFits(s, rid);
        RequestsKeepInv(s, rid, s.requests[rid].(cancelled := true));
      }
  }

  lemma AddUserKeepsInv(s: State, user: string)
    requires Inv(s)
    ensures Inv(Apply(s, AddUser(user)))
  {
    var s' := Apply(s, AddUser(user));
    forall rid | rid in s'.requests ensures RequestFits(s', rid) { assert RequestFits(s, rid); }
    forall k | k in s'.workers ensures WorkerFits(s', k) {
      assert WorkerFits(s, k) && RequestFits(s, s.workers[k].request);
    }
  }

  lemma DeliverKeepsInv(s: State, wid: nat, rid: nat)
    requires Inv(s)
    ensures Inv(Apply(s, Deliver(wid, rid)))
  {
    var s' := Apply(s, Deliver(wid, rid));
    forall r | r in s'.requests ensures RequestFits(s', r) { assert RequestFits(s, r); }
    forall k | k in s'.workers ensures WorkerFits(s', k) { assert k in s.workers ==> WorkerFits(s, k); }
  }

  lemma RowsKeepInv(s: State, step: Step)
    requires Inv(s) && (step.Write? || step.Erase?)
    ensures Inv(Apply(s, step))
  {
    var s' := Apply(s, step);
    forall rid | rid in s'.requests ensures RequestFits(s', rid) { assert RequestFits(s, rid); }
    forall k | k in s'.workers ensures WorkerFits(s', k) { assert WorkerFits(s, k); }
  }

  lemma ApplyKeepsInv(s: State, step: Step)
    requires Inv(s)
    ensures Inv(Apply(s, step))
  {
    match step
    case Purge(wid) => if Apply(s, step) != s { PurgeKeepsInv(s, wid); }
    case Complete(wid) => CompleteKeepsInv(s, wid);
    case OpenRequest(_, _) => OpenOrCancelKeepsInv(s, step);
    case Cancel(_) => OpenOrCancelKeepsInv(s, step);
    case CollectExport(wid) =>
      if wid in s.workers && s.workers[wid].phase == Exporting {
        MoveKeepsInv(s, wid, Uploading(Export(s.rows, s.workers[wid].user)));
      }
    case PutOk(wid) =>
      if wid in s.workers && s.workers[wid].phase.Uploading? {
        UploadKeepsInv(s, wid);
        MoveKeepsInv(Upload(s, wid), wid, Purging);
      }
    case PutFails(wid, stored) =>
      if wid in s.workers && s.workers[wid].phase.Uploading? {
        if stored { UploadKeepsInv(s, wid); }
        MoveKeepsInv(if stored then Upload(s, wid) else s, wid, Stopped);
      }
    case Stop(wid) => if wid in s.workers { MoveKeepsInv(s, wid, Stopped); }
    case AddUser(user) => AddUserKeepsInv(s, user);
    case Deliver(wid, rid) => DeliverKeepsInv(s, wid, rid);
    case _ => RowsKeepInv(s, step);
  }

  lemma {:induction false} RunInv(steps: seq<Step>)
    ensures Inv(Run(steps))
  {
    if steps != [] {
      RunInv(steps[..|steps| - 1]);
      ApplyKeepsInv(Run(steps[..|steps| - 1]), steps[|steps| - 1]);
    }
  }

  /** A completed request means that its user and all the user's rows are gone, in any run. */
  lemma {:induction false} CompletedMeansPurged(steps: seq<Step>, rid: nat)
    ensures var s := Run(steps);
            rid in s.requests && s.requests[rid].completed ==>
              s.requests[rid].user !in s.users && RowsOf(s.rows, s.requests[rid].user) == {}
  {
    RunInv(steps);
    var s := Run(steps);
    if rid in s.requests && s.requests[rid].completed { assert RequestFits(s, rid); }
  }

  // ---------------------------------------------------------------- one undisturbed run

  class Database {
    var users: set<string>
    var rows: map<nat, Row>
    var requests: map<nat, Request>

    constructor ()
      ensures users == {} && rows == map[] && requests == map[]
    {
      users, rows, requests := {}, map[], map[];
    }
  }

  class ArchiveStore {
    var objects: map<ObjectKey, map<nat, Row>>

    constructor ()
      ensures objects == map[]
    {
      objects := map[];
    }
  }

  /** The user of the request is archived under its key, deleted, and the request completed. */
  ghost predicate Delivered(s: State, s': State, rid: nat)
    requires rid in s.requests
  {
    var (user, unlinked) := (s.requests[rid].user, Unlink(s.requests, s.requests[rid].user));
    && s'.objects == s.objects[ObjectKey(user, rid) := Export(s.rows, user)]
    && s'.users == s.users - {user} && s'.rows == s.rows - RowsOf(s.rows, user)
    && s'.requests == unlinked[rid := unlinked[rid].(completed := true)]
  }

  /**
   * `run_gdpr_delete` with nothing in between; the flags say which of its three guarded calls succeed, and the
   * result is what the queue is told.
   */
  method RunGdprDelete(db: Database, store: ArchiveStore, rid: nat, exports: bool, uploads: bool, purges: bool)
    returns (ok: bool)
    modifies db, store
    ensures ok <==> Settled(old(db.requests), rid) || (exports && uploads && purges)
    ensures Settled(old(db.requests), rid) || !exports || !uploads ==> store.objects == old(store.objects)
    ensures Settled(old(db.requests), rid) || !exports || !uploads || !purges ==>
              db.users == old(db.users) && db.rows == old(db.rows) && db.requests == old(db.requests)
    ensures !Settled(old(db.requests), rid) && exports && uploads ==>
              var user := old(db.requests)[rid].user;
              && store.objects == old(store.objects)[ObjectKey(user, rid) := Export(old(db.rows), user)]
              && (purges ==>
                    && db.users == old(db.users) - {user} && db.rows == old(db.rows) - RowsOf(old(db.rows), user)
                    && var unlinked := Unlink(old(db.requests), user);
                       db.requests == unlinked[rid := unlinked[rid].(completed := true)])
  {
    if rid !in db.requests { return true; }
    var request := db.requests[rid];
    if request.completed || request.cancelled { return true; }
    if !request.linked { return true; }
    if !exports { return false; }
    var dump := Export(db.rows, request.user);
    if !uploads { return false; }
    store.objects := store.objects[ObjectKey(request.user, rid) := dump];
    if !purges { return false; }
    db.rows := db.rows - RowsOf(db.rows, request.user);
    db.users := db.users - {request.user};
    db.requests := Unlink(db.requests, request.user);
    db.requests := db.requests[rid := db.requests[rid].(completed := true)];
    ok := true;
  }

  lemma UndisturbedUpload(s: State, wid: nat, rid: nat)
    requires wid !in s.workers && !Settled(s.requests, rid)
    ensures var user := s.requests[rid].user;
            Apply(Apply(Apply(s, Deliver(wid, rid)), CollectExport(wid)), PutOk(wid)) ==
            s.(workers := s.workers[wid := Worker(user, rid, Purging)],
               objects := s.objects[ObjectKey(user, rid) := Export(s.rows, user)])
  {
    var (user, ws) := (s.requests[rid].user, s.workers);
    var (w0, w1, w2) := (Worker(user, rid, Exporting), Worker(user, rid, Uploading(Export(s.rows, user))),
                         Worker(user, rid, Purging));
    var s0 := Apply(s, Deliver(wid, rid));
    assert s0 == s.(workers := ws[wid := w0]);
    var s1 := Apply(s0, CollectExport(wid));
    assert ws[wid := w0][wid := w1] == ws[wid := w1];
    assert s1 == s.(workers := ws[wid := w1]);
    assert ws[wid := w1][wid := w2] == ws[wid := w2];
  }

  lemma PurgeAndComplete(s: State, s1: State, wid: nat, rid: nat)
    requires rid in s.requests && wid in s1.workers && s1.workers[wid] == Worker(s.requests[rid].user, rid, Purging)
    requires s1.users == s.users && s1.rows == s.rows && s1.requests == s.requests
    requires var user := s.requests[rid].user; s1.objects == s.objects[ObjectKey(user, rid) := Export(s.rows, user)]
    ensures Delivered(s, Apply(Apply(s1, Purge(wid)), Complete(wid)), rid)
  {
    var s2 := Apply(s1, Purge(wid));
    assert s2 == Move(PurgeUser(s1, wid), wid, Completing);
    assert s2.workers[wid].phase == Completing && s2.requests == Unlink(s.requests, s.requests[rid].user);
  }

  /** The five steps of a worker with nothing in between have exactly that effect. */
  lemma UndisturbedDelivery(s: State, wid: nat, rid: nat)
    requires wid !in s.workers && !Settled(s.requests, rid)
    ensures var s1 := Apply(Apply(Apply(s, Deliver(wid, rid)), CollectExport(wid)), PutOk(wid));
            Delivered(s, Apply(Apply(s1, Purge(wid)), Complete(wid)), rid)
  {
    var user := s.requests[rid].user;
    UndisturbedUpload(s, wid, rid);
    var s1 := Apply(Apply(Apply(s, Deliver(wid, rid)), CollectExport(wid)), PutOk(wid));
    PurgeAndComplete(s, s1, wid, rid);
  }

  // ---------------------------------------------------------------- a first run

  lemma {:induction false} RunOne(step: Step)
    ensures Run([step]) == Apply(Start(), step)
  {
    assert [step] == [] + [step];
    RunMore([], step);
  }

  /** The state with one user and one open request. */
  lemma {:induction false} OpenedRun(user: string, rid: nat)
    ensures Run([AddUser(user)] + [OpenRequest(rid, user)]) ==
            State({user}, {user}, map[], map[rid := Request(user, true, false, false)], map[], map[], map[])
  {
    RunOne(AddUser(user));
    assert Run([AddUser(user)]) == State({user}, {user}, map[], map[], map[], map[], map[]);
    RunMore([AddUser(user)], OpenRequest(rid, user));
  }

  /** The run up to the upload. */
  function UploadedRun(user: string, rid: nat, wid: nat): (steps: seq<Step>) {
    [AddUser(user)] + [OpenRequest(rid, user)] + [Deliver(wid, rid)] + [CollectExport(wid)] + [PutOk(wid)]
  }

  lemma {:induction false} UploadedState(user: string, rid: nat, wid: nat)
    ensures Run(UploadedRun(user, rid, wid)) ==
            State({user}, {user}, map[], map[rid := Request(user, true, false, false)],
                  map[ObjectKey(user, rid) := map[]], map[wid := Worker(user, rid, Purging)], map[])
  {
    var start := [AddUser(user)] + [OpenRequest(rid, user)];
    OpenedRun(user, rid);
    RunMore(start, Deliver(wid, rid));
    RunMore(start + [Deliver(wid, rid)], CollectExport(wid));
    RunMore(start + [Deliver(wid, rid)] + [CollectExport(wid)], PutOk(wid));
    UndisturbedUpload(Run(start), wid, rid);
    assert Export(map[], user) == map[];
  }
}
