/** The daily cost budget: the check before a turn, the recording after it, and the 80% alert. */
module CostBudget {
  import opened Options
  import opened Redis
  import opened Tenants

  const DAY_MS: int := 86_400_000
  const TTL_MS: nat := 172_800_000
  const ALERT_THRESHOLD_PCT: int := 80

  /** The two Redis keys of a tenant and day. */
  datatype Key = Counter(tenant: Tenant, day: int) | Alert(tenant: Tenant, day: int)

  type Store = Db<Key, int>

  function DayOf(now: int): (r: int) {
    now / DAY_MS
  }

  // ---------------------------------------------------------------- the operations

  function Spent(db: Store, t: Tenant): (r: int) {
    var v := Get(db, Counter(t, DayOf(db.now)));
    if v.Some? then v.value else 0
  }

  /** `check_budget`: no budget, or a non-positive one, never refuses. */
  function Check(db: Store, t: Tenant, budget: Option<int>): (r: bool) {
    budget == None || budget.value <= 0 || Spent(db, t) < budget.value
  }

  function Threshold(budget: int): (r: int) {
    budget * ALERT_THRESHOLD_PCT / 100
  }

  /** The increment of `record_cost` crosses the threshold. */
  predicate Crosses(total: int, cost: int, budget: Option<int>) {
    budget.Some? && budget.value > 0 && total - cost < Threshold(budget.value) <= total
  }

  method GetSpentMicro(redis: Server?<Key, int>, t: Tenant) returns (spent: int)
    ensures spent == if redis == null then 0 else Spent(redis.db, t)
  {
    if redis == null { return 0; }
    var raw := redis.Read(Counter(t, DayOf(redis.db.now)));
    spent := if raw == None then 0 else raw.value;
  }

  method CheckBudget(redis: Server?<Key, int>, t: Tenant, budget: Option<int>) returns (ok: bool)
    ensures ok == (redis == null || Check(redis.db, t, budget))
  {
    if redis == null || budget == None || budget.value <= 0 { return true; }
    var spent := GetSpentMicro(redis, t);
    ok := spent < budget.value;
  }

  /** `record_cost` with nothing in between: the new total, and whether the alert metric was emitted. */
  method RecordCost(redis: Server?<Key, int>, t: Tenant, cost: int, budget: Option<int>)
    returns (total: int, emitted: bool)
    modifies redis
    ensures redis == null || cost <= 0 ==> total == 0 && !emitted && (redis != null ==> redis.db == old(redis.db))
    ensures redis != null && cost > 0 ==>
              var day := DayOf(old(redis.db.now));
              var (n, db1) := IncrExpire(old(redis.db), Counter(t, day), cost, TTL_MS);
              && total == n
              && (emitted, redis.db) == if Crosses(n, cost, budget) then SetNx(db1, Alert(t, day), 1, TTL_MS)
                                        else (false, db1)
  {
    emitted := false;
    if redis == null || cost <= 0 { return 0, false; }
    var day := DayOf(redis.db.now);
    total := IncrExpirePipeline(redis, Counter(t, day), cost, TTL_MS);
    if budget.Some? && budget.value > 0 {
      var threshold := budget.value * ALERT_THRESHOLD_PCT / 100;
      var previous := total - cost;
      if previous < threshold <= total {
        emitted := redis.Set(Alert(t, day), 1, TTL_MS);
      }
    }
  }

  // ---------------------------------------------------------------- many turns, interleaved

  datatype Entry = Entry(tenant: Tenant, day: int, cost: int)

  /**
   * `inflight` counts the admitted turns not yet over. Between its increment and its SET NX a recording that
   * crossed is in `pending`; `log` remembers every increment, `emitted` and `lost` what became of the alerts.
   */
  datatype State = State(
    db: Store, inflight: multiset<Tenant>, log: seq<Entry>,
    pending: multiset<(Tenant, int)>, emitted: multiset<(Tenant, int)>, lost: multiset<(Tenant, int)>)

  datatype Step =
    | Pass(ms: nat)
    | Admit(t: Tenant, budget: Option<int>)
    | Abandon(t: Tenant)                                // the turn fails: nothing is recorded
    | Record(t: Tenant, cost: int, budget: Option<int>) // the pipelined increment
    | SendAlert(t: Tenant, day: int)                    // SET NX, and the metric if it was set
    | LoseAlert(t: Tenant, day: int)                    // the process dies before it

  function Start(now: int): (r: State) {
    State(Db(map[], now), multiset{}, [], multiset{}, multiset{}, multiset{})
  }

  function Apply(s: State, step: Step): (r: State) {
    match step
    case Pass(ms) => s.(db := s.db.(now := s.db.now + ms))
    case Admit(t, budget) =>
      if Check(s.db, t, budget) then s.(inflight := s.inflight + multiset{t}) else s
    case Abandon(t) => if t in s.inflight then s.(inflight := s.inflight - multiset{t}) else s
    case Record(t, cost, budget) =>
      if t !in s.inflight then s
      else if cost <= 0 then s.(inflight := s.inflight - multiset{t})
      else
        var day := DayOf(s.db.now);
        var (total, db) := IncrExpire(s.db, Counter(t, day), cost, TTL_MS);
        s.(db := db, inflight := s.inflight - multiset{t}, log := s.log + [Entry(t, day, cost)],
           pending := if Crosses(total, cost, budget) then s.pending + multiset{(t, day)} else s.pending)
    case SendAlert(t, day) =>
      if (t, day) !in s.pending then s
      else
        var (ok, db) := SetNx(s.db, Alert(t, day), 1, TTL_MS);
        s.(db := db, pending := s.pending - multiset{(t, day)},
           emitted := if ok then s.emitted + multiset{(t, day)} else s.emitted)
    case LoseAlert(t, day) =>
      if (t, day) !in s.pending then s
      else s.(pending := s.pending - multiset{(t, day)}, lost := s.lost + multiset{(t, day)})
  }

  function Run(now: int, steps: seq<Step>): (r: State) {
    if steps == [] then Start(now) else Apply(Run(now, steps[..|steps| - 1]), steps[|steps| - 1])
  }

  /** What has been recorded for a tenant on a day. */
  function Recorded(log: seq<Entry>, t: Tenant, day: int): (r: int) {
    if log == [] then 0
    else
      var last := log[|log| - 1];
      Recorded(log[..|log| - 1], t, day) + (if last.tenant == t && last.day == day then last.cost else 0)
  }

  // ---------------------------------------------------------------- the counter is the sum

  /** The counters of today agree with the log, and nothing is recorded for days to come. */
  ghost predicate CounterFits(s: State, t: Tenant, day: int) {
    var (key, today) := (Counter(t, day), DayOf(s.db.now));
    && (day == today ==> Spent(s.db, t) == Recorded(s.log, t, day))
    && (key in s.db.cells ==> s.db.cells[key].expiresAt.Some? && s.db.cells[key].expiresAt.value >= (day + 2) * DAY_MS)
    && (day > today ==> key !in s.db.cells && Recorded(s.log, t, day) == 0)
    && Recorded(s.log, t, day) >= 0
  }

  lemma RecordedMore(log: seq<Entry>, e: Entry, t: Tenant, day: int)
    ensures Recorded(log + [e], t, day) == Recorded(log, t, day) + (if e.tenant == t && e.day == day then e.cost else 0)
  {
    assert (log + [e])[..|log|] == log;
  }

  lemma DayBounds(now: int)
    ensures DayOf(now) * DAY_MS <= now < (DayOf(now) + 1) * DAY_MS
  {
  }

  lemma DayMonotone(now: int, ms: nat)
    ensures DayOf(now) <= DayOf(now + ms)
  {
    DayBounds(now);
    DayBounds(now + ms);
  }

  /** A step that leaves this counter and the log alone. */
  lemma QuietStep(s: State, s': State, t: Tenant, day: int)
    requires CounterFits(s, t, day) && s'.log == s.log && s.db.now <= s'.db.now
    requires Counter(t, day) in s'.db.cells <==> Counter(t, day) in s.db.cells
    requires Counter(t, day) in s.db.cells ==> s'.db.cells[Counter(t, day)] == s.db.cells[Counter(t, day)]
    ensures CounterFits(s', t, day)
  {
    DayBounds(s.db.now);
    DayBounds(s'.db.now);
    DayMonotone(s.db.now, s'.db.now - s.db.now);
  }

  lemma RecordStep(s: State, u: Tenant, cost: int, t: Tenant, day: int)
    requires CounterFits(s, t, day) && cost > 0
    ensures var today := DayOf(s.db.now);
            CounterFits(s.(db := IncrExpire(s.db, Counter(u, today), cost, TTL_MS).1,
                           log := s.log + [Entry(u, today, cost)]), t, day)
  {
    DayBounds(s.db.now);
    RecordedMore(s.log, Entry(u, DayOf(s.db.now), cost), t, day);
  }

  lemma CounterStep(s: State, step: Step, t: Tenant, day: int)
    requires CounterFits(s, t, day)
    ensures CounterFits(Apply(s, step), t, day)
  {
    var s' := Apply(s, step);
    if step.Record? && s'.log != s.log {
      RecordStep(s, step.t, step.cost, t, day);
    } else {
      QuietStep(s, s', t, day);
    }
  }

  /** Over any run of any tenants the counter of today is the sum of today's positive costs; no expiry loses it. */
  lemma {:induction false} CounterIsTheSum(now: int, steps: seq<Step>, t: Tenant, day: int)
    ensures CounterFits(Run(now, steps), t, day)
  {
    if steps != [] {
      CounterIsTheSum(now, steps[..|steps| - 1], t, day);
      CounterStep(Run(now, steps[..|steps| - 1]), steps[|steps| - 1], t, day);
    }
  }

  // ---------------------------------------------------------------- bounded overspend

  /**
   * The run admits this tenant only under a budget of at most `budget`, with at most `k` turns in flight of cost
   * at most `c`.
   */
  ghost predicate Disciplined(now: int, steps: seq<Step>, t: Tenant, budget: int, k: nat, c: nat) {
    && (forall i :: 0 <= i < |steps| && steps[i].Admit? && steps[i].t == t ==>
          steps[i].budget.Some? && 0 < steps[i].budget.value <= budget)
    && (forall i :: 0 <= i < |steps| && steps[i].Record? && steps[i].t == t ==> steps[i].cost <= c)
    && (forall i :: 0 <= i <= |steps| ==> Run(now, steps[..i]).inflight[t] <= k)
  }

  /** What today or a later day can still come to. */
  ghost predicate Bounded(s: State, t: Tenant, day: int, budget: int, k: nat, c: nat) {
    Recorded(s.log, t, day) + (if day >= DayOf(s.db.now) then s.inflight[t] * c else 0) <= budget - 1 + k * c
  }

  lemma MoreInFlight(n: nat, k: nat, c: nat)
    requires n <= k
    ensures n * c <= k * c
  {
  }

  /** The arithmetic: `r` recorded, `n` turns in flight, on a day that still counts. */
  lemma OneLess(n: nat, c: nat)
    requires n > 0
    ensures (n - 1) * c == n * c - c
  {
  }

  /** An admission: the day's total was below the budget, or the day is still to come. */
  lemma AdmitStep(s: State, t: Tenant, u: Tenant, b: Option<int>, day: int, budget: int, k: nat, c: nat)
    requires Bounded(s, t, day, budget, k, c) && CounterFits(s, t, day) && budget >= 1
    requires u == t ==> b.Some? && 0 < b.value <= budget
    requires Apply(s, Admit(u, b)).inflight[t] <= k
    ensures Bounded(Apply(s, Admit(u, b)), t, day, budget, k, c)
  {
    MoreInFlight(Apply(s, Admit(u, b)).inflight[t], k, c);
  }

  lemma LeaveStep(s: State, s': State, t: Tenant, day: int, budget: int, k: nat, c: nat, cost: int)
    requires Bounded(s, t, day, budget, k, c) && s.inflight[t] > 0 && s'.inflight[t] == s.inflight[t] - 1
    requires cost <= c && s'.db.now == s.db.now
    requires Recorded(s'.log, t, day) == Recorded(s.log, t, day) + (if day == DayOf(s.db.now) then cost else 0)
    ensures Bounded(s', t, day, budget, k, c)
  {
    OneLess(s.inflight[t], c);
  }

  /** A turn leaves; what it records is at most what was set aside for it. */
  lemma EndStep(s: State, step: Step, t: Tenant, day: int, budget: int, k: nat, c: nat)
    requires Bounded(s, t, day, budget, k, c) && (step.Record? || step.Abandon?)
    requires step.Record? && step.t == t ==> step.cost <= c
    ensures Bounded(Apply(s, step), t, day, budget, k, c)
  {
    var s' := Apply(s, step);
    var recorded := s'.log != s.log;
    if recorded { RecordedMore(s.log, Entry(step.t, DayOf(s.db.now), step.cost), t, day); }
    if step.t == t && t in s.inflight {
      LeaveStep(s, s', t, day, budget, k, c, if recorded then step.cost else 0);
    }
  }

  lemma PassStep(s: State, ms: nat, t: Tenant, day: int, budget: int, k: nat, c: nat)
    requires Bounded(s, t, day, budget, k, c)
    ensures Bounded(Apply(s, Pass(ms)), t, day, budget, k, c)
  {
    DayMonotone(s.db.now, ms);
    MoreInFlight(0, s.inflight[t], c);
  }

  lemma BoundedStep(s: State, step: Step, t: Tenant, day: int, budget: int, k: nat, c: nat)
    requires Bounded(s, t, day, budget, k, c) && CounterFits(s, t, day) && budget >= 1
    requires step.Admit? && step.t == t ==> step.budget.Some? && 0 < step.budget.value <= budget
    requires step.Record? && step.t == t ==> step.cost <= c
    requires Apply(s, step).inflight[t] <= k
    ensures Bounded(Apply(s, step), t, day, budget, k, c)
  {
    match step
    case Pass(ms) => PassStep(s, ms, t, day, budget, k, c);
    case Admit(u, b) => AdmitStep(s, t, u, b, day, budget, k, c);
    case Record(_, _, _) => EndStep(s, step, t, day, budget, k, c);
    case Abandon(_) => EndStep(s, step, t, day, budget, k, c);
    case _ =>
  }

  /**
   * With at most `k` turns of a tenant in flight, each costing at most `c`, no day's recorded spend reaches
   * budget + k * c, even when turns admitted on one day are recorded on the next.
   */
  lemma {:induction false} OverspendIsBounded(now: int, steps: seq<Step>, t: Tenant, day: int, budget: int, k: nat,
                                                     c: nat)
    requires budget >= 1 && Disciplined(now, steps, t, budget, k, c)
    ensures Bounded(Run(now, steps), t, day, budget, k, c)
    ensures Recorded(Run(now, steps).log, t, day) < budget + k * c
  {
    if steps != [] {
      var before := steps[..|steps| - 1];
      forall i | 0 <= i <= |before| ensures before[..i] == steps[..i] {}
      forall i | 0 <= i <= |before| ensures Run(now, before[..i]).inflight[t] <= k { assert before[..i] == steps[..i]; }
      OverspendIsBounded(now, before, t, day, budget, k, c);
      CounterIsTheSum(now, before, t, day);
      assert steps[..|steps|] == steps;
      BoundedStep(Run(now, before), steps[|steps| - 1], t, day, budget, k, c);
    } else {
      MoreInFlight(0, k, c);
    }
    MoreInFlight(0, Run(now, steps).inflight[t], c);
  }

  // ---------------------------------------------------------------- the alert

  ghost predicate OneBudget(steps: seq<Step>, t: Tenant, budget: int) {
    forall i :: 0 <= i < |steps| && steps[i].Record? && steps[i].t == t ==> steps[i].budget == Some(budget)
  }

  /** Crossings of a tenant and day: alerts emitted, lost with their process, or still to be sent. */
  function Crossings(s: State, t: Tenant, day: int): (r: nat) {
    s.emitted[(t, day)] + s.lost[(t, day)] + s.pending[(t, day)]
  }

  ghost predicate AlertFits(s: State, t: Tenant, day: int, budget: int) {
    && Crossings(s, t, day) == (if Threshold(budget) >= 1 && Recorded(s.log, t, day) >= Threshold(budget) then 1 else 0)
    && (Alert(t, day) in s.db.cells ==> s.emitted[(t, day)] >= 1)
  }

  /** An increment of this tenant's counter: it crosses exactly when the day's total does. */
  lemma AlertRecord(s: State, u: Tenant, cost: int, b: Option<int>, t: Tenant, day: int, budget: int)
    requires budget > 0 && CounterFits(s, t, day) && AlertFits(s, t, day, budget)
    requires u in s.inflight && cost > 0 && (u == t ==> b == Some(budget))
    ensures AlertFits(Apply(s, Record(u, cost, b)), t, day, budget)
  {
    var (today, s') := (DayOf(s.db.now), Apply(s, Record(u, cost, b)));
    var total := Spent(s.db, u) + cost;
    RecordedMore(s.log, Entry(u, today, cost), t, day);
    assert s'.pending == if Crosses(total, cost, b) then s.pending + multiset{(u, today)} else s.pending;
    assert Alert(t, day) in s'.db.cells <==> Alert(t, day) in s.db.cells;
    if u == t && today == day {
      assert Recorded(s.log, t, day) == total - cost && Recorded(s'.log, t, day) == total;
    } else {
      assert s'.pending[(t, day)] == s.pending[(t, day)];
    }
  }

  lemma AlertSent(s: State, u: Tenant, d: int, t: Tenant, day: int, budget: int)
    requires AlertFits(s, t, day, budget)
    ensures AlertFits(Apply(s, SendAlert(u, d)), t, day, budget)
  {
    if (u, d) != (t, day) {
      var s' := Apply(s, SendAlert(u, d));
      assert s'.pending[(t, day)] == s.pending[(t, day)] && s'.emitted[(t, day)] == s.emitted[(t, day)];
    }
  }

  lemma AlertLost(s: State, u: Tenant, d: int, t: Tenant, day: int, budget: int)
    requires AlertFits(s, t, day, budget)
    ensures AlertFits(Apply(s, LoseAlert(u, d)), t, day, budget)
  {
    if (u, d) != (t, day) {
      var s' := Apply(s, LoseAlert(u, d));
      assert s'.pending[(t, day)] == s.pending[(t, day)] && s'.lost[(t, day)] == s.lost[(t, day)];
    }
  }

  lemma AlertStep(s: State, step: Step, t: Tenant, day: int, budget: int)
    requires budget > 0 && CounterFits(s, t, day) && AlertFits(s, t, day, budget)
    requires step.Record? && step.t == t ==> step.budget == Some(budget)
    ensures AlertFits(Apply(s, step), t, day, budget)
  {
    match step
    case Pass(_) =>
    case Admit(_, _) =>
    case Abandon(_) =>
    case Record(u, cost, b) => if u in s.inflight && cost > 0 { AlertRecord(s, u, cost, b, t, day, budget); }
    case SendAlert(u, d) => AlertSent(s, u, d, t, day, budget);
    case LoseAlert(u, d) => AlertLost(s, u, d, t, day, budget);
  }

  /**
   * Under one budget, exactly one recording of a day crosses 80% once the day's total reaches it, and none
   * before; each crossing is one alert emitted, lost or still to be sent. A budget of 1 never alerts.
   */
  lemma {:induction false} OneCrossing(now: int, steps: seq<Step>, t: Tenant, day: int, budget: int)
    requires budget > 0 && OneBudget(steps, t, budget)
    ensures AlertFits(Run(now, steps), t, day, budget)
    ensures Threshold(budget) >= 1 <==> budget >= 2
  {
    if steps != [] {
      OneCrossing(now, steps[..|steps| - 1], t, day, budget);
      CounterIsTheSum(now, steps[..|steps| - 1], t, day);
      AlertStep(Run(now, steps[..|steps| - 1]), steps[|steps| - 1], t, day, budget);
    }
  }

  /** Whatever the budgets, a day's alert is not emitted twice before the end of the following day. */
  ghost predicate OnceFits(s: State, t: Tenant, day: int) {
    && (s.pending[(t, day)] > 0 || s.emitted[(t, day)] > 0 ==> s.db.now >= day * DAY_MS)
    && (s.db.now < (day + 2) * DAY_MS ==>
          s.emitted[(t, day)] <= 1 && (s.emitted[(t, day)] == 1 ==> Live(s.db, Alert(t, day))))
    && (Alert(t, day) in s.db.cells ==>
          s.db.cells[Alert(t, day)].expiresAt.Some? && s.db.cells[Alert(t, day)].expiresAt.value >= (day + 2) * DAY_MS)
  }

  lemma OnceRecord(s: State, u: Tenant, cost: int, b: Option<int>, t: Tenant, day: int)
    requires OnceFits(s, t, day) && u in s.inflight && cost > 0
    ensures OnceFits(Apply(s, Record(u, cost, b)), t, day)
  {
    var (key, s') := (Alert(t, day), Apply(s, Record(u, cost, b)));
    DayBounds(s.db.now);
    assert key in s'.db.cells <==> key in s.db.cells;
    assert key in s.db.cells ==> s'.db.cells[key] == s.db.cells[key];
  }

  lemma OnceSent(s: State, u: Tenant, d: int, t: Tenant, day: int)
    requires OnceFits(s, t, day)
    ensures OnceFits(Apply(s, SendAlert(u, d)), t, day)
  {
    if (u, d) != (t, day) {
      var s' := Apply(s, SendAlert(u, d));
      assert s'.pending[(t, day)] == s.pending[(t, day)] && s'.emitted[(t, day)] == s.emitted[(t, day)];
    }
  }

  lemma OnceStep(s: State, step: Step, t: Tenant, day: int)
    requires OnceFits(s, t, day)
    ensures OnceFits(Apply(s, step), t, day)
  {
    match step
    case Pass(_) =>
    case Admit(_, _) =>
    case Abandon(_) =>
    case Record(u, cost, b) => if u in s.inflight && cost > 0 { OnceRecord(s, u, cost, b, t, day); }
    case SendAlert(u, d) => OnceSent(s, u, d, t, day);
    case LoseAlert(_, _) =>
  }

  lemma {:induction false} AlertAtMostOnce(now: int, steps: seq<Step>, t: Tenant, day: int)
    ensures OnceFits(Run(now, steps), t, day)
  {
    if steps != [] {
      AlertAtMostOnce(now, steps[..|steps| - 1], t, day);
      OnceStep(Run(now, steps[..|steps| - 1]), steps[|steps| - 1], t, day);
    }
  }
}
