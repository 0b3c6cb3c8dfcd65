/** The audit shipper: select, upload, delete, with overlapping shippers and crashes at any point. */
module AuditShip {
  const DAY_MS: int := 86_400_000

  /** One audit row; the GDPR worker may anonymise `actor`, nothing changes the rest. */
  datatype Row = Row(ts: int, actor: string, facts: string)

  /** One line of an uploaded object. */
  datatype Line = Line(id: nat, row: Row)

  /** audit/<cutoff>/<uuid>-<first>-<last>.jsonl */
  datatype ObjectKey = ObjectKey(cutoff: int, uuid: nat, first: nat, last: nat)

  datatype Phase = Selected | Uploaded(key: ObjectKey) | Stopped

  datatype Shipper = Shipper(phase: Phase, cutoff: int, lines: seq<Line>)

  /** `inserted` remembers every row as first written; every id is below `bound`. */
  datatype State = State(
    now: int, table: map<nat, Row>, bound: nat, objects: map<ObjectKey, seq<Line>>, uuids: set<nat>,
    shippers: map<nat, Shipper>, inserted: map<nat, Row>)

  datatype Step =
    | Pass(ms: nat)
    | Insert(id: nat, row: Row)
    | Anonymise(id: nat, actor: string)
    | Begin(sid: nat, retentionDays: int, limit: nat)
    | PutOk(sid: nat, uuid: nat)
    | PutFails(sid: nat, uuid: nat, stored: bool)
    | Delete(sid: nat)
    | Crash(sid: nat)

  // ---------------------------------------------------------------- the pieces of one ship

  predicate Expired(table: map<nat, Row>, cutoff: int, id: nat) {
    id in table && table[id].ts < cutoff
  }

  /** SELECT ... WHERE ts < cutoff ORDER BY id LIMIT limit, over the ids in [from, bound). */
  function Select(table: map<nat, Row>, cutoff: int, limit: nat, from: nat, bound: nat): (r: seq<Line>)
    decreases bound - from
  {
    if limit == 0 || from >= bound then []
    else if Expired(table, cutoff, from) then
      [Line(from, table[from])] + Select(table, cutoff, limit - 1, from + 1, bound)
    else Select(table, cutoff, limit, from + 1, bound)
  }

  function KeyOf(cutoff: int, uuid: nat, lines: seq<Line>): (r: ObjectKey)
    requires lines != []
  {
    ObjectKey(cutoff, uuid, lines[0].id, lines[|lines| - 1].id)
  }

  function Ids(lines: seq<Line>): (r: set<nat>) {
    set i | 0 <= i < |lines| :: lines[i].id
  }

  // ---------------------------------------------------------------- the steps

  function Start(now: int): (r: State) {
    State(now, map[], 0, map[], {}, map[], map[])
  }

  predicate At(s: State, sid: nat, phase: Phase) {
    sid in s.shippers && s.shippers[sid].phase == phase
  }

  function Stop(s: State, sid: nat): (r: State)
    requires sid in s.shippers
  {
    s.(shippers := s.shippers[sid := s.shippers[sid].(phase := Stopped)])
  }

  /** The object reaches the bucket, under a key no other upload drew. */
  function Upload(s: State, sid: nat, uuid: nat): (r: State)
    requires sid in s.shippers && s.shippers[sid].lines != []
  {
    var sh := s.shippers[sid];
    s.(objects := s.objects[KeyOf(sh.cutoff, uuid, sh.lines) := sh.lines], uuids := s.uuids + {uuid})
  }

  function Apply(s: State, step: Step): (r: State) {
    match step
    case Pass(ms) => s.(now := s.now + ms)
    case Insert(id, row) =>
      if id in s.inserted then s
      else s.(table := s.table[id := row], inserted := s.inserted[id := row],
              bound := if id < s.bound then s.bound else id + 1)
    case Anonymise(id, actor) =>
      if id in s.table then s.(table := s.table[id := s.table[id].(actor := actor)]) else s
    case Begin(sid, days, limit) =>
      if sid in s.shippers then s
      else
        var cutoff := s.now - days * DAY_MS;
        var lines := Select(s.table, cutoff, limit, 0, s.bound);
        s.(shippers := s.shippers[sid := Shipper(if lines == [] then Stopped else Selected, cutoff, lines)])
    case PutOk(sid, uuid) =>
      if !At(s, sid, Selected) || s.shippers[sid].lines == [] || uuid in s.uuids then s
      else
        var sh := s.shippers[sid];
        var s' := Upload(s, sid, uuid);
        s'.(shippers := s.shippers[sid := sh.(phase := Uploaded(KeyOf(sh.cutoff, uuid, sh.lines)))])
    case PutFails(sid, uuid, stored) =>
      if !At(s, sid, Selected) || s.shippers[sid].lines == [] || uuid in s.uuids then s
      else Stop(if stored then Upload(s, sid, uuid) else s, sid)
    case Delete(sid) =>
      if sid in s.shippers && s.shippers[sid].phase.Uploaded?
      then Stop(s.(table := s.table - Ids(s.shippers[sid].lines)), sid) else s
    case Crash(sid) => if sid in s.shippers then Stop(s, sid) else s
  }

  function Run(now: int, steps: seq<Step>): (r: State) {
    if steps == [] then Start(now) else Apply(Run(now, steps[..|steps| - 1]), steps[|steps| - 1])
  }

  // ---------------------------------------------------------------- the invariant

  /** `row` is row `id` as inserted, but for its actor. */
  predicate Faithful(s: State, id: nat, row: Row) {
    id in s.inserted && row.ts == s.inserted[id].ts && row.facts == s.inserted[id].facts
  }

  predicate Holds(s: State, key: ObjectKey, id: nat) {
    key in s.objects && exists i :: 0 <= i < |s.objects[key]| && s.objects[key][i].id == id
                                    && Faithful(s, id, s.objects[key][i].row)
  }

  ghost predicate Archived(s: State, id: nat) {
    exists key :: Holds(s, key, id)
  }

  predicate ShipperFits(s: State, sid: nat)
    requires sid in s.shippers
  {
    var sh := s.shippers[sid];
    && (forall i :: 0 <= i < |sh.lines| ==>
          Faithful(s, sh.lines[i].id, sh.lines[i].row) && sh.lines[i].row.ts < sh.cutoff)
    && (sh.phase.Uploaded? ==> sh.phase.key in s.objects && s.objects[sh.phase.key] == sh.lines)
  }

  ghost predicate Inv(s: State) {
    && (forall id :: id in s.table ==> Faithful(s, id, s.table[id]) && id < s.bound)
    && (forall key :: key in s.objects ==> key.uuid in s.uuids)
    && (forall sid :: sid in s.shippers ==> ShipperFits(s, sid))
    && (forall id :: id in s.inserted ==> id in s.table || Archived(s, id))
  }

  lemma {:induction false} SelectFits(table: map<nat, Row>, cutoff: int, limit: nat, from: nat, bound: nat)
    ensures var r := Select(table, cutoff, limit, from, bound);
            && |r| <= limit
            && (forall i :: 0 <= i < |r| ==>
                  from <= r[i].id < bound && Expired(table, cutoff, r[i].id) && r[i].row == table[r[i].id])
            && (forall i, j :: 0 <= i < j < |r| ==> r[i].id < r[j].id)
    decreases bound - from
  {
    if limit != 0 && from < bound {
      SelectFits(table, cutoff, if Expired(table, cutoff, from) then limit - 1 else limit, from + 1, bound);
    }
  }

  /** The batch is the expired rows with the smallest ids: all of them, or `limit` of them. */
  lemma {:induction false} SelectIsOldestBatch(table: map<nat, Row>, cutoff: int, limit: nat, from: nat, bound: nat,
                                                      id: nat)
    requires from <= id < bound && Expired(table, cutoff, id)
    ensures var r := Select(table, cutoff, limit, from, bound);
            id in Ids(r) || (|r| == limit && forall i :: 0 <= i < |r| ==> r[i].id < id)
    decreases bound - from
  {
    var r := Select(table, cutoff, limit, from, bound);
    if limit != 0 {
      if from == id {
        assert r[0].id == id;
      } else {
        var l := if Expired(table, cutoff, from) then limit - 1 else limit;
        SelectIsOldestBatch(table, cutoff, l, from + 1, bound, id);
        var rest := Select(table, cutoff, l, from + 1, bound);
        if id in Ids(rest) {
          var i :| 0 <= i < |rest| && rest[i].id == id;
          assert r[if Expired(table, cutoff, from) then i + 1 else i].id == id;
        }
      }
    }
  }

  /** Nothing but the table and its history changes in a way that matters to what is archived. */
  lemma ArchivedKept(s: State, s': State, id: nat)
    requires Archived(s, id)
    requires forall key :: key in s.objects ==> key in s'.objects && s'.objects[key] == s.objects[key]
    requires forall i :: i in s.inserted ==> i in s'.inserted && s'.inserted[i] == s.inserted[i]
    ensures Archived(s', id)
  {
    var key :| Holds(s, key, id);
    assert Holds(s', key, id);
  }

  lemma InsertKeepsInv(s: State, id: nat, row: Row)
    requires Inv(s) && id !in s.inserted
    ensures Inv(Apply(s, Insert(id, row)))
  {
    var s' := Apply(s, Insert(id, row));
    forall k | k in s'.table ensures Faithful(s', k, s'.table[k]) && k < s'.bound {
      assert k != id ==> Faithful(s, k, s.table[k]);
    }
    forall sid | sid in s'.shippers ensures ShipperFits(s', sid) { assert ShipperFits(s, sid); }
    forall k | k in s'.inserted ensures k in s'.table || Archived(s', k) {
      if k != id && k !in s.table { ArchivedKept(s, s', k); }
    }
  }

  lemma AnonymiseKeepsInv(s: State, id: nat, actor: string)
    requires Inv(s)
    ensures Inv(Apply(s, Anonymise(id, actor)))
  {
    var s' := Apply(s, Anonymise(id, actor));
    forall k | k in s'.table ensures Faithful(s', k, s'.table[k]) && k < s'.bound { assert Faithful(s, k, s.table[k]); }
    forall sid | sid in s'.shippers ensures ShipperFits(s', sid) { assert ShipperFits(s, sid); }
    forall k | k in s'.inserted ensures k in s'.table || Archived(s', k) {
      if k !in s.table { ArchivedKept(s, s', k); }
    }
  }

  lemma BeginKeepsInv(s: State, sid: nat, days: int, limit: nat)
    requires Inv(s) && sid !in s.shippers
    ensures Inv(Apply(s, Begin(sid, days, limit)))
  {
    var s' := Apply(s, Begin(sid, days, limit));
    SelectFits(s.table, s.now - days * DAY_MS, limit, 0, s.bound);
    forall k | k in s'.shippers ensures ShipperFits(s', k) { assert k != sid ==> ShipperFits(s, k); }
    forall k | k in s'.inserted ensures k in s'.table || Archived(s', k) {
      if k !in s.table { ArchivedKept(s, s', k); }
    }
  }

  lemma PassKeepsInv(s: State, ms: nat)
    requires Inv(s)
    ensures Inv(Apply(s, Pass(ms)))
  {
    var s' := Apply(s, Pass(ms));
    forall k | k in s'.shippers ensures ShipperFits(s', k) { assert ShipperFits(s, k); }
    forall k | k in s'.inserted ensures k in s'.table || Archived(s', k) {
      if k !in s.table { ArchivedKept(s, s', k); }
    }
  }

  lemma UploadKeepsInv(s: State, sid: nat, uuid: nat)
    requires Inv(s) && At(s, sid, Selected) && s.shippers[sid].lines != [] && uuid !in s.uuids
    ensures Inv(Upload(s, sid, uuid)) && Inv(Apply(s, PutOk(sid, uuid)))
  {
    var u, s' := Upload(s, sid, uuid), Apply(s, PutOk(sid, uuid));
    assert ShipperFits(s, sid);
    forall k | k in s.shippers ensures ShipperFits(u, k) && ShipperFits(s', k) { assert ShipperFits(s, k); }
    forall id | id in s.inserted ensures id in s.table || (Archived(u, id) && Archived(s', id)) {
      if id !in s.table {
        ArchivedKept(s, u, id);
        ArchivedKept(s, s', id);
      }
    }
  }

  lemma StopKeepsInv(s: State, sid: nat)
    requires Inv(s) && sid in s.shippers
    ensures Inv(Stop(s, sid))
  {
    var s' := Stop(s, sid);
    forall k | k in s'.shippers ensures ShipperFits(s', k) { assert ShipperFits(s, k); }
    forall id | id in s'.inserted ensures id in s'.table || Archived(s', id) {
      if id !in s.table { ArchivedKept(s, s', id); }
    }
  }

  lemma DeleteKeepsInv(s: State, sid: nat)
    requires Inv(s) && sid in s.shippers && s.shippers[sid].phase.Uploaded?
    ensures Inv(Apply(s, Delete(sid)))
  {
    var sh := s.shippers[sid];
    var d := s.(table := s.table - Ids(sh.lines));
    assert ShipperFits(s, sid);
    forall k | k in d.shippers ensures ShipperFits(d, k) { assert ShipperFits(s, k); }
    forall id | id in d.inserted ensures id in d.table || Archived(d, id) {
      if id !in s.table {
        ArchivedKept(s, d, id);
      } else if id in Ids(sh.lines) {
        var i :| 0 <= i < |sh.lines| && sh.lines[i].id == id;
        assert Holds(d, sh.phase.key, id);
      }
    }
    StopKeepsInv(d, sid);
  }

  lemma ApplyKeepsInv(s: State, step: Step)
    requires Inv(s)
    ensures Inv(Apply(s, step))
  {
    match step
    case PutOk(sid, uuid) => if Apply(s, step) != s { UploadKeepsInv(s, sid, uuid); }
    case PutFails(sid, uuid, stored) =>
      if At(s, sid, Selected) && s.shippers[sid].lines != [] && uuid !in s.uuids {
        if stored { UploadKeepsInv(s, sid, uuid); }
        StopKeepsInv(if stored then Upload(s, sid, uuid) else s, sid);
      }
    case Delete(sid) => if sid in s.shippers && s.shippers[sid].phase.Uploaded? { DeleteKeepsInv(s, sid); }
    case Crash(sid) => if sid in s.shippers { StopKeepsInv(s, sid); }
    case Pass(ms) => PassKeepsInv(s, ms);
    case Insert(id, row) => if id !in s.inserted { InsertKeepsInv(s, id, row); }
    case Anonymise(id, actor) => AnonymiseKeepsInv(s, id, actor);
    case Begin(sid, days, limit) => if sid !in s.shippers { BeginKeepsInv(s, sid, days, limit); }
  }

  lemma {:induction false} RunInv(now: int, steps: seq<Step>)
    ensures Inv(Run(now, steps))
  {
    if steps != [] {
      RunInv(now, steps[..|steps| - 1]);
      ApplyKeepsInv(Run(now, steps[..|steps| - 1]), steps[|steps| - 1]);
    }
  }

  // ---------------------------------------------------------------- the promises

  /** Whatever crashed, repeated or overlapped, every row ever inserted is in the table or in an object. */
  lemma NoRowIsLost(now: int, steps: seq<Step>, id: nat)
    ensures var s := Run(now, steps); id in s.inserted ==> id in s.table || Archived(s, id)
  {
    RunInv(now, steps);
  }

  lemma StepKeepsObjects(s: State, step: Step, key: ObjectKey)
    requires Inv(s) && key in s.objects
    ensures var s' := Apply(s, step); key in s'.objects && s'.objects[key] == s.objects[key]
  {
    assert key.uuid in s.uuids;
  }

  /** An uploaded object is never changed or removed. */
  lemma {:induction false} ObjectsAreKept(now: int, steps: seq<Step>, later: seq<Step>, key: ObjectKey)
    ensures var (s, s') := (Run(now, steps), Run(now, steps + later));
            key in s.objects ==> key in s'.objects && s'.objects[key] == s.objects[key]
  {
    if later == [] {
      assert steps + later == steps;
    } else {
      var n := |later| - 1;
      ObjectsAreKept(now, steps, later[..n], key);
      assert (steps + later)[..|steps + later| - 1] == steps + later[..n];
      RunInv(now, steps + later[..n]);
      if key in Run(now, steps).objects { StepKeepsObjects(Run(now, steps + later[..n]), later[n], key); }
    }
  }

  /**
   * A row leaves the table only by the delete of a shipper that selected it as older than its own cutoff and
   * whose object, already uploaded, holds it.
   */
  lemma {:induction false} OnlyArchivedExpiredRowsLeave(now: int, steps: seq<Step>, step: Step, id: nat)
    ensures var s := Run(now, steps);
            id in s.table && id !in Apply(s, step).table ==>
              && step.Delete? && step.sid in s.shippers && s.shippers[step.sid].phase.Uploaded?
              && s.table[id].ts < s.shippers[step.sid].cutoff
              && Holds(s, s.shippers[step.sid].phase.key, id)
  {
    RunInv(now, steps);
    var s := Run(now, steps);
    if id in s.table && id !in Apply(s, step).table {
      assert ShipperFits(s, step.sid);
      var lines := s.shippers[step.sid].lines;
      var i :| 0 <= i < |lines| && lines[i].id == id;
    }
  }

  predicate RetainsAtLeast(steps: seq<Step>, days: int) {
    forall i :: 0 <= i < |steps| ==> steps[i].Begin? ==> steps[i].retentionDays >= days
  }

  ghost predicate CutoffsLag(s: State, days: int) {
    forall sid :: sid in s.shippers ==> s.shippers[sid].cutoff <= s.now - days * DAY_MS
  }

  lemma CutoffStep(s: State, step: Step, days: int)
    requires CutoffsLag(s, days) && (step.Begin? ==> step.retentionDays >= days)
    ensures CutoffsLag(Apply(s, step), days)
  {
  }

  lemma {:induction false} CutoffsLagTheClock(now: int, steps: seq<Step>, days: int)
    requires RetainsAtLeast(steps, days)
    ensures CutoffsLag(Run(now, steps), days)
  {
    if steps != [] {
      CutoffsLagTheClock(now, steps[..|steps| - 1], days);
      CutoffStep(Run(now, steps[..|steps| - 1]), steps[|steps| - 1], days);
    }
  }

  /** With a retention of at least `days` in every message, a row younger than that is never deleted. */
  lemma {:induction false} YoungRowsStay(now: int, steps: seq<Step>, step: Step, days: int, id: nat)
    requires RetainsAtLeast(steps, days)
    ensures var s := Run(now, steps);
            id in s.table && s.table[id].ts >= s.now - days * DAY_MS ==> id in Apply(s, step).table
  {
    OnlyArchivedExpiredRowsLeave(now, steps, step, id);
    CutoffsLagTheClock(now, steps, days);
  }

  // ---------------------------------------------------------------- one undisturbed run

  class AuditTable {
    var rows: map<nat, Row>
    var bound: nat

    constructor ()
      ensures rows == map[] && bound == 0
    {
      rows, bound := map[], 0;
    }
  }

  class BlobStore {
    var objects: map<ObjectKey, seq<Line>>

    constructor ()
      ensures objects == map[]
    {
      objects := map[];
    }
  }

  /**
   * `run_audit_ship` with nothing in between: the expired rows with the smallest ids move, as one new object,
   * from the table to the store; a failed upload leaves the table alone and reports it.
   */
  method RunAuditShip(db: AuditTable, store: BlobStore, now: int, retentionDays: int, limit: nat, uuid: nat,
                      uploads: bool) returns (ok: bool)
    modifies db`rows, store
    ensures var (cutoff, before) := (now - retentionDays * DAY_MS, old(db.rows));
            var batch := Select(before, cutoff, limit, 0, db.bound);
            && (ok <==> batch == [] || uploads)
            && store.objects == (if batch != [] && uploads then old(store.objects)[KeyOf(cutoff, uuid, batch) := batch]
                                 else old(store.objects))
            && db.rows == (if uploads then before - Ids(batch) else before)
  {
    var cutoff := now - retentionDays * DAY_MS;
    var lines := Select(db.rows, cutoff, limit, 0, db.bound);
    if lines == [] {
      assert db.rows - Ids(lines) == db.rows;
      return true;
    }
    if !uploads { return false; }
    store.objects := store.objects[KeyOf(cutoff, uuid, lines) := lines];
    var ids := Ids(lines);
    db.rows := db.rows - ids;
    ok := true;
  }

  /** The four steps of a shipper with nothing in between have exactly that effect. */
  lemma UndisturbedRun(s: State, sid: nat, uuid: nat, days: int, limit: nat)
    requires sid !in s.shippers && uuid !in s.uuids
    ensures var cutoff := s.now - days * DAY_MS;
            var batch := Select(s.table, cutoff, limit, 0, s.bound);
            var s' := Apply(Apply(Apply(s, Begin(sid, days, limit)), PutOk(sid, uuid)), Delete(sid));
            && s'.table == s.table - Ids(batch)
            && s'.objects == if batch == [] then s.objects else s.objects[KeyOf(cutoff, uuid, batch) := batch]
  {
    var batch := Select(s.table, s.now - days * DAY_MS, limit, 0, s.bound);
    if batch == [] { assert s.table - Ids(batch) == s.table; }
  }
}
