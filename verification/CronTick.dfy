/** One scheduler pass: scan, due check, fan-out, stamp; and what holds over runs of passes. */
module CronTick {
  import opened Options
  import opened Sequences
  import opened Sorting
  import opened Text

  datatype Scope = Official | User

  datatype Job = Job(
    id: nat, scope: Scope, slug: string, userId: Option<string>, expr: string, prompt: string,
    webhook: Option<string>, enabled: bool, lastFired: Option<int>, strikes: nat)

  datatype Message = Message(
    jobId: nat, scope: Scope, slug: string, userId: string, prompt: string, webhook: Option<string>, scheduledFor: int)

  /** The trigger's answer: an invalid expression, no further fire, or the next fire time. */
  datatype Next = Invalid | Never | At(time: int)

  /** Cron expressions, abstractly: their boundaries, and the trigger that finds the next one. */
  datatype Calendar = Calendar(boundary: (string, int) -> bool, next: (string, Option<int>, int) -> Next)

  /** For a job that fired at `last`, the trigger finds the least boundary strictly after it. */
  ghost predicate Honest(c: Calendar) {
    forall expr: string, last: int, now: int :: last <= now && c.next(expr, Some(last), now) != Invalid ==>
      match c.next(expr, Some(last), now)
      case At(t) => IsNext(c, expr, last, t)
      case _ => NoneAfter(c, expr, last)
  }

  ghost predicate IsNext(c: Calendar, expr: string, last: int, t: int) {
    last < t && c.boundary(expr, t) && forall u: int :: last < u < t ==> !c.boundary(expr, u)
  }

  ghost predicate NoneAfter(c: Calendar, expr: string, last: int) {
    forall u: int :: last < u ==> !c.boundary(expr, u)
  }

  // ---------------------------------------------------------------- the decisions

  /** `is_due`; both an invalid expression and a missing next fire raise, and the tick skips the row. */
  predicate Due(c: Calendar, job: Job, now: int) {
    var n := c.next(job.expr, job.lastFired, now);
    n.At? && n.time <= now
  }

  predicate Fires(c: Calendar, job: Job, now: int) {
    job.enabled && Due(c, job, now) && (job.scope == User ==> job.userId.Some?)
  }

  /** `expand_official_to_user_messages`. */
  function Expand(job: Job, users: seq<string>, now: int): (r: seq<Message>) {
    if users == [] then []
    else [Message(job.id, Official, job.slug, users[0], job.prompt, job.webhook, now)] + Expand(job, users[1..], now)
  }

  function Messages(job: Job, users: seq<string>, now: int): (r: seq<Message>)
    requires job.scope == User ==> job.userId.Some?
  {
    if job.scope == User then [Message(job.id, User, job.slug, job.userId.value, job.prompt, job.webhook, now)]
    else Expand(job, users, now)
  }

  predicate ScopeSlugLeq(a: Job, b: Job) {
    if a.scope != b.scope then a.scope == Official else StrLeq(a.slug, b.slug)
  }

  function Enabled(jobs: seq<Job>): (r: seq<Job>) {
    if jobs == [] then [] else (if jobs[0].enabled then [jobs[0]] else []) + Enabled(jobs[1..])
  }

  /** `list_enabled_admin`. */
  function ListEnabled(jobs: seq<Job>): (r: seq<Job>) {
    Sort(Enabled(jobs), ScopeSlugLeq)
  }

  /** All messages of a pass over `rows`. */
  function Batch(c: Calendar, rows: seq<Job>, users: seq<string>, now: int): (r: seq<Message>) {
    if rows == [] then []
    else
      var n := |rows| - 1;
      Batch(c, rows[..n], users, now) + (if Fires(c, rows[n], now) then Messages(rows[n], users, now) else [])
  }

  /** The ids a pass over `rows` stamps. */
  function Fired(c: Calendar, rows: seq<Job>, now: int): (r: set<nat>) {
    set i | 0 <= i < |rows| && Fires(c, rows[i], now) :: rows[i].id
  }

  /** `mark_fired_admin` for each of `ids`. */
  function Stamp(jobs: seq<Job>, ids: set<nat>, now: int): (r: seq<Job>)
    ensures |r| == |jobs|
    ensures forall i :: 0 <= i < |r| ==>
              r[i] == if jobs[i].id in ids then jobs[i].(lastFired := Some(now), strikes := 0) else jobs[i]
  {
    seq(|jobs|, i requires 0 <= i < |jobs| =>
      if jobs[i].id in ids then jobs[i].(lastFired := Some(now), strikes := 0) else jobs[i])
  }

  // ---------------------------------------------------------------- the pass

  class CronTable {
    var jobs: seq<Job>

    constructor (jobs: seq<Job>)
      ensures this.jobs == jobs
    {
      this.jobs := jobs;
    }

    method MarkFired(id: nat, when: int)
      modifies this
      ensures jobs == Stamp(old(jobs), {id}, when)
    {
      for i := 0 to |jobs|
        invariant |jobs| == |old(jobs)|
        invariant forall k :: 0 <= k < |jobs| ==>
                    jobs[k] == if k < i then Stamp(old(jobs), {id}, when)[k] else old(jobs)[k]
      {
        if jobs[i].id == id { jobs := jobs[i := jobs[i].(lastFired := Some(when), strikes := 0)]; }
      }
    }
  }

  class MessageQueue {
    var messages: seq<Message>

    constructor ()
      ensures messages == []
    {
      messages := [];
    }

    method Send(m: Message)
      modifies this
      ensures messages == old(messages) + [m]
    {
      messages := messages + [m];
    }
  }

  lemma StampMore(jobs: seq<Job>, ids: set<nat>, id: nat, now: int)
    ensures Stamp(Stamp(jobs, ids, now), {id}, now) == Stamp(jobs, ids + {id}, now)
  {
  }

  method SendAll(queue: MessageQueue, messages: seq<Message>) returns (sent: nat)
    modifies queue
    ensures queue.messages == old(queue.messages) + messages && sent == |messages|
  {
    sent := 0;
    assert old(queue.messages) + messages[..0] == old(queue.messages);
    for j := 0 to |messages|
      invariant queue.messages == old(queue.messages) + messages[..j] && sent == j
    {
      queue.Send(messages[j]);
      sent := sent + 1;
      assert messages[..j + 1] == messages[..j] + [messages[j]];
    }
    assert messages[..|messages|] == messages;
  }

  /** `tick`, committed. */
  method Tick(c: Calendar, db: CronTable, queue: MessageQueue, users: seq<string>, now: int) returns (enqueued: nat)
    modifies db, queue
    ensures var rows := ListEnabled(old(db.jobs));
            && queue.messages == old(queue.messages) + Batch(c, rows, users, now)
            && enqueued == |Batch(c, rows, users, now)|
            && db.jobs == Stamp(old(db.jobs), Fired(c, rows, now), now)
  {
    enqueued := 0;
    var rows := ListEnabled(db.jobs);
    assert Stamp(db.jobs, {}, now) == db.jobs;
    AppendNil(queue.messages);
    for i := 0 to |rows|
      invariant queue.messages == old(queue.messages) + Batch(c, rows[..i], users, now)
      invariant enqueued == |Batch(c, rows[..i], users, now)|
      invariant db.jobs == Stamp(old(db.jobs), Fired(c, rows[..i], now), now)
    {
      var row := rows[i];
      assert rows[..i + 1][..i] == rows[..i];
      ListedIsEnabled(old(db.jobs), row);
      FiredMore(c, rows, i, now);
      var next := c.next(row.expr, row.lastFired, now);
      if !next.At? || next.time > now { continue; }
      if row.scope == User && row.userId == None { continue; }
      var messages := Messages(row, users, now);
      var sent := SendAll(queue, messages);
      enqueued := enqueued + sent;
      Assoc(old(queue.messages), Batch(c, rows[..i], users, now), messages);
      db.MarkFired(row.id, now);
      StampMore(old(db.jobs), Fired(c, rows[..i], now), row.id, now);
    }
    assert rows[..|rows|] == rows;
  }

  lemma FiredMore(c: Calendar, rows: seq<Job>, i: nat, now: int)
    requires i < |rows|
    ensures Fired(c, rows[..i + 1], now) ==
            Fired(c, rows[..i], now) + (if Fires(c, rows[i], now) then {rows[i].id} else {})
  {
    var a, b := rows[..i + 1], rows[..i];
    assert forall k :: 0 <= k < i ==> a[k] == b[k];
    assert a[i] == rows[i];
  }

  // ---------------------------------------------------------------- the listing

  lemma ScopeSlugPreorder()
    ensures TotalPreorder(ScopeSlugLeq)
  {
    forall a: Job, b: Job ensures ScopeSlugLeq(a, b) || ScopeSlugLeq(b, a) { StrLeqTotal(a.slug, b.slug); }
    forall a: Job, b: Job, d: Job | ScopeSlugLeq(a, b) && ScopeSlugLeq(b, d) ensures ScopeSlugLeq(a, d) {
      if a.scope == b.scope == d.scope { StrLeqTransitive(a.slug, b.slug, d.slug); }
    }
  }

  lemma {:induction false} EnabledMembers(jobs: seq<Job>, job: Job)
    ensures job in Enabled(jobs) <==> job in jobs && job.enabled
  {
    if jobs != [] {
      EnabledMembers(jobs[1..], job);
      assert jobs == [jobs[0]] + jobs[1..];
    }
  }

  lemma ListedIsEnabled(jobs: seq<Job>, job: Job)
    ensures job in ListEnabled(jobs) <==> job in jobs && job.enabled
  {
    ScopeSlugPreorder();
    SortMembers(Enabled(jobs), ScopeSlugLeq, job);
    EnabledMembers(jobs, job);
  }

  ghost predicate DistinctIds(jobs: seq<Job>) {
    forall i, j :: 0 <= i < j < |jobs| ==> jobs[i].id != jobs[j].id
  }

  /** The pass stamps exactly the jobs that fire. */
  lemma FiredIffFires(c: Calendar, jobs: seq<Job>, now: int, i: nat)
    requires DistinctIds(jobs) && i < |jobs|
    ensures jobs[i].id in Fired(c, ListEnabled(jobs), now) <==> Fires(c, jobs[i], now)
  {
    var rows := ListEnabled(jobs);
    ListedIsEnabled(jobs, jobs[i]);
    if Fires(c, jobs[i], now) {
      var k :| 0 <= k < |rows| && rows[k] == jobs[i];
      assert rows[k].id in Fired(c, rows, now);
    }
    if jobs[i].id in Fired(c, rows, now) {
      var k :| 0 <= k < |rows| && Fires(c, rows[k], now) && rows[k].id == jobs[i].id;
      ListedIsEnabled(jobs, rows[k]);
      var j :| 0 <= j < |jobs| && jobs[j] == rows[k];
      assert j == i;
    }
  }

  /** What a tick does to the table, job by job. */
  function After(c: Calendar, job: Job, now: int): (r: Job) {
    if Fires(c, job, now) then job.(lastFired := Some(now), strikes := 0) else job
  }

  function AfterAll(c: Calendar, jobs: seq<Job>, now: int): (r: seq<Job>)
    ensures |r| == |jobs| && forall i :: 0 <= i < |r| ==> r[i] == After(c, jobs[i], now)
  {
    seq(|jobs|, i requires 0 <= i < |jobs| => After(c, jobs[i], now))
  }

  lemma TickIsPerJob(c: Calendar, jobs: seq<Job>, now: int)
    requires DistinctIds(jobs)
    ensures Stamp(jobs, Fired(c, ListEnabled(jobs), now), now) == AfterAll(c, jobs, now)
  {
    forall i | 0 <= i < |jobs|
      ensures Stamp(jobs, Fired(c, ListEnabled(jobs), now), now)[i] == AfterAll(c, jobs, now)[i]
    {
      FiredIffFires(c, jobs, now, i);
    }
  }

  // ---------------------------------------------------------------- the return value

  function Weight(c: Calendar, job: Job, users: seq<string>, now: int): (r: nat) {
    if !Fires(c, job, now) then 0 else if job.scope == User then 1 else |users|
  }

  function TotalWeight(c: Calendar, jobs: seq<Job>, users: seq<string>, now: int): (r: nat) {
    if jobs == [] then 0 else Weight(c, jobs[0], users, now) + TotalWeight(c, jobs[1..], users, now)
  }

  lemma {:induction false} ExpandLength(job: Job, users: seq<string>, now: int)
    ensures |Expand(job, users, now)| == |users|
    ensures forall k :: 0 <= k < |users| ==> Expand(job, users, now)[k].userId == users[k]
  {
    if users != [] { ExpandLength(job, users[1..], now); }
  }

  lemma {:induction false} WeightAppend(c: Calendar, a: seq<Job>, b: seq<Job>, users: seq<string>, now: int)
    ensures TotalWeight(c, a + b, users, now) == TotalWeight(c, a, users, now) + TotalWeight(c, b, users, now)
  {
    if a == [] {
      assert a + b == b;
    } else {
      assert (a + b)[1..] == a[1..] + b;
      WeightAppend(c, a[1..], b, users, now);
    }
  }

  lemma {:induction false} BatchLength(c: Calendar, rows: seq<Job>, users: seq<string>, now: int)
    ensures |Batch(c, rows, users, now)| == TotalWeight(c, rows, users, now)
  {
    if rows != [] {
      var n := |rows| - 1;
      BatchLength(c, rows[..n], users, now);
      WeightAppend(c, rows[..n], [rows[n]], users, now);
      assert rows == rows[..n] + [rows[n]];
      ExpandLength(rows[n], users, now);
    }
  }

  lemma {:induction false} InsertWeight(c: Calendar, x: Job, xs: seq<Job>, users: seq<string>, now: int)
    ensures TotalWeight(c, Insert(x, xs, ScopeSlugLeq), users, now) ==
            Weight(c, x, users, now) + TotalWeight(c, xs, users, now)
  {
    if xs != [] && !ScopeSlugLeq(x, xs[0]) { InsertWeight(c, x, xs[1..], users, now); }
  }

  lemma {:induction false} SortWeight(c: Calendar, xs: seq<Job>, users: seq<string>, now: int)
    ensures TotalWeight(c, Sort(xs, ScopeSlugLeq), users, now) == TotalWeight(c, xs, users, now)
  {
    if xs != [] {
      SortWeight(c, xs[1..], users, now);
      InsertWeight(c, xs[0], Sort(xs[1..], ScopeSlugLeq), users, now);
    }
  }

  lemma {:induction false} EnabledWeight(c: Calendar, xs: seq<Job>, users: seq<string>, now: int)
    ensures TotalWeight(c, Enabled(xs), users, now) == TotalWeight(c, xs, users, now)
  {
    if xs != [] {
      EnabledWeight(c, xs[1..], users, now);
      var rest := Enabled(xs[1..]);
      if xs[0].enabled {
        assert ([xs[0]] + rest)[1..] == rest;
      } else {
        assert [] + rest == rest;
      }
    }
  }

  /** A tick enqueues one message per fired user job and one per active user for each fired official job. */
  lemma TickCount(c: Calendar, jobs: seq<Job>, users: seq<string>, now: int)
    ensures |Batch(c, ListEnabled(jobs), users, now)| == TotalWeight(c, jobs, users, now)
  {
    BatchLength(c, ListEnabled(jobs), users, now);
    SortWeight(c, Enabled(jobs), users, now);
    EnabledWeight(c, jobs, users, now);
  }

  // ---------------------------------------------------------------- one job over a run of ticks

  /**
   * What happens around one job: committed ticks, ticks that died before their commit, and edits that leave
   * its expression alone.
   */
  datatype Step =
    | Ticked(now: int)
    | Died(now: int)
    | Edited(enabled: bool, prompt: string, webhook: Option<string>, strikes: nat)

  datatype History = History(job: Job, clock: int, fires: seq<int>)

  function Apply(c: Calendar, h: History, step: Step): (r: History) {
    match step
    case Ticked(now) =>
      if now < h.clock then h
      else History(After(c, h.job, now), now, if Fires(c, h.job, now) then h.fires + [now] else h.fires)
    case Died(now) => if now < h.clock then h else h.(clock := now)
    case Edited(enabled, prompt, webhook, strikes) =>
      h.(job := h.job.(enabled := enabled, prompt := prompt, webhook := webhook, strikes := strikes))
  }

  function Run(c: Calendar, job: Job, clock: int, steps: seq<Step>): (r: History) {
    if steps == [] then History(job, clock, [])
    else Apply(c, Run(c, job, clock, steps[..|steps| - 1]), steps[|steps| - 1])
  }

  /** The number of boundaries in (lo, hi]. */
  function Boundaries(c: Calendar, expr: string, lo: int, hi: int): (r: nat)
    decreases hi - lo
  {
    if hi <= lo then 0 else Boundaries(c, expr, lo, hi - 1) + (if c.boundary(expr, hi) then 1 else 0)
  }

  lemma {:induction false} BoundariesAdd(c: Calendar, expr: string, lo: int, mid: int, hi: int)
    requires lo <= mid <= hi
    ensures Boundaries(c, expr, lo, hi) == Boundaries(c, expr, lo, mid) + Boundaries(c, expr, mid, hi)
    decreases hi - mid
  {
    if mid < hi { BoundariesAdd(c, expr, lo, mid, hi - 1); }
  }

  lemma {:induction false} OneBoundary(c: Calendar, expr: string, lo: int, t: int, hi: int)
    requires lo < t <= hi && c.boundary(expr, t)
    ensures Boundaries(c, expr, lo, hi) >= 1
    decreases hi - t
  {
    if t < hi { OneBoundary(c, expr, lo, t, hi - 1); }
  }

  /** A job that fired before fires in a tick exactly when a boundary passed since, unless it cannot fire. */
  lemma FiresIffBoundaryPassed(c: Calendar, job: Job, now: int)
    requires Honest(c) && job.lastFired.Some? && job.lastFired.value <= now
    requires c.next(job.expr, job.lastFired, now) != Invalid
    ensures Fires(c, job, now) <==>
              && job.enabled && (job.scope == User ==> job.userId.Some?)
              && exists t: int :: job.lastFired.value < t <= now && c.boundary(job.expr, t)
  {
    var last := job.lastFired.value;
    var n := c.next(job.expr, Some(last), now);
    if n.At? { assert IsNext(c, job.expr, last, n.time); } else { assert NoneAfter(c, job.expr, last); }
  }

  /** After a committed tick no boundary of a job that can fire lies between its stamp and the tick. */
  lemma NothingDueIsMissed(c: Calendar, job: Job, now: int, t: int)
    requires Honest(c) && job.lastFired.Some? && job.lastFired.value <= now
    requires c.next(job.expr, job.lastFired, now) != Invalid
    requires job.enabled && (job.scope == User ==> job.userId.Some?)
    ensures After(c, job, now).lastFired.value < t <= now ==> !c.boundary(job.expr, t)
  {
    FiresIffBoundaryPassed(c, job, now);
  }

  /** The first known fire: the stamp the job came with, or its first fire in the run. */
  function Anchor(job: Job, fires: seq<int>): (r: Option<int>) {
    if job.lastFired.Some? then job.lastFired else if fires == [] then None else Some(fires[0])
  }

  /** How many fires of the run came after the anchor. */
  function Later(job: Job, fires: seq<int>): (r: nat) {
    if job.lastFired.Some? then |fires| else if fires == [] then 0 else |fires| - 1
  }

  ghost predicate FiresFit(c: Calendar, job: Job, h: History) {
    && h.job.expr == job.expr
    && h.job.lastFired == (if h.fires == [] then job.lastFired else Some(h.fires[|h.fires| - 1]))
    && (h.job.lastFired.Some? ==> h.job.lastFired.value <= h.clock)
    && (Anchor(job, h.fires).Some? ==>
          && Anchor(job, h.fires).value <= h.job.lastFired.value
          && Later(job, h.fires) <= Boundaries(c, job.expr, Anchor(job, h.fires).value, h.job.lastFired.value))
  }

  lemma FireFits(c: Calendar, job: Job, h: History, now: int)
    requires Honest(c) && FiresFit(c, job, h) && h.clock <= now && Fires(c, h.job, now)
    ensures FiresFit(c, job, Apply(c, h, Ticked(now)))
  {
    if h.job.lastFired.Some? {
      var last, a := h.job.lastFired.value, Anchor(job, h.fires).value;
      FiresIffBoundaryPassed(c, h.job, now);
      var t :| last < t <= now && c.boundary(job.expr, t);
      OneBoundary(c, job.expr, last, t, now);
      BoundariesAdd(c, job.expr, a, last, now);
    }
  }

  /** Over any run, the fires of a job after its first known one never outnumber the boundaries elapsed. */
  lemma {:induction false} FiresNeverOutnumberBoundaries(c: Calendar, job: Job, clock: int, steps: seq<Step>)
    requires Honest(c) && (job.lastFired.Some? ==> job.lastFired.value <= clock)
    ensures FiresFit(c, job, Run(c, job, clock, steps))
  {
    if steps != [] {
      var h := Run(c, job, clock, steps[..|steps| - 1]);
      FiresNeverOutnumberBoundaries(c, job, clock, steps[..|steps| - 1]);
      var step := steps[|steps| - 1];
      if step.Ticked? && h.clock <= step.now && Fires(c, h.job, step.now) { FireFits(c, job, h, step.now); }
    }
  }

  /** Two successive fires at m and m' have a boundary in (m, m']. */
  lemma {:induction false} BoundaryBetweenFires(c: Calendar, job: Job, clock: int, steps: seq<Step>, k: nat)
    requires Honest(c) && (job.lastFired.Some? ==> job.lastFired.value <= clock)
    ensures var fires := Run(c, job, clock, steps).fires;
            k + 1 < |fires| ==> exists t: int :: fires[k] < t <= fires[k + 1] && c.boundary(job.expr, t)
  {
    if steps != [] {
      var h := Run(c, job, clock, steps[..|steps| - 1]);
      BoundaryBetweenFires(c, job, clock, steps[..|steps| - 1], k);
      FiresNeverOutnumberBoundaries(c, job, clock, steps[..|steps| - 1]);
      var step := steps[|steps| - 1];
      if step.Ticked? && h.clock <= step.now && Fires(c, h.job, step.now) && k + 1 == |h.fires| {
        FiresIffBoundaryPassed(c, h.job, step.now);
      }
    }
  }

  /** Running a tick again at the same moment fires nothing. */
  lemma SameMomentFiresOnce(c: Calendar, job: Job, now: int)
    requires Honest(c) && (job.lastFired.Some? ==> job.lastFired.value <= now)
    ensures Fires(c, job, now) ==> !Fires(c, After(c, job, now), now)
  {
    if Fires(c, job, now) && c.next(job.expr, Some(now), now) != Invalid {
      FiresIffBoundaryPassed(c, After(c, job, now), now);
    }
  }
}
