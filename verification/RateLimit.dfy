/** The per-minute turn limit: a fixed-window counter whose expiry every call renews. */
module RateLimit {
  import opened Options
  import opened Redis
  import opened Tenants

  const WINDOW_MS: int := 60_000
  const TTL_MS: nat := 120_000
  const DEFAULT_TURN_RATE_PER_MIN: int := 60

  datatype Key = Bucket(tenant: Tenant, index: int)

  type Store = Db<Key, int>

  function BucketOf(moment: int): (r: int) {
    moment / WINDOW_MS
  }

  function Cap(limit: Option<int>): (r: int) {
    if limit == None then DEFAULT_TURN_RATE_PER_MIN else limit.value
  }

  /** `check_and_consume` with the key computed from `moment`, the clock as the caller read it. */
  function Consume(db: Store, t: Tenant, limit: Option<int>, moment: int): (r: (bool, Store)) {
    if Cap(limit) <= 0 then (true, db)
    else
      var (count, db') := IncrExpire(db, Bucket(t, BucketOf(moment)), 1, TTL_MS);
      (count <= Cap(limit), db')
  }

  method CheckAndConsume(redis: Server?<Key, int>, t: Tenant, limit: Option<int>, moment: int) returns (ok: bool)
    modifies redis
    ensures redis == null ==> ok
    ensures redis != null ==> (ok, redis.db) == Consume(old(redis.db), t, limit, moment)
  {
    if redis == null { return true; }
    var cap := if limit == None then DEFAULT_TURN_RATE_PER_MIN else limit.value;
    if cap <= 0 { return true; }
    var count := IncrExpirePipeline(redis, Bucket(t, BucketOf(moment)), 1, TTL_MS);
    ok := count <= cap;
  }

  // ---------------------------------------------------------------- many calls, interleaved

  datatype Call = Call(tenant: Tenant, moment: int, ok: bool)

  datatype State = State(db: Store, log: seq<Call>)

  /** A call reaches the server `lag` milliseconds after it read the clock. */
  datatype Step = Pass(ms: nat) | Expire(key: Key) | Attempt(t: Tenant, limit: Option<int>, lag: nat)

  function Apply(s: State, step: Step): (r: State) {
    match step
    case Pass(ms) => s.(db := s.db.(now := s.db.now + ms))
    case Expire(key) => s.(db := Purge(s.db, key))
    case Attempt(t, limit, lag) =>
      var moment := s.db.now - lag;
      var (ok, db) := Consume(s.db, t, limit, moment);
      State(db, s.log + [Call(t, moment, ok)])
  }

  function Run(now: int, steps: seq<Step>): (r: State) {
    if steps == [] then State(Db(map[], now), []) else Apply(Run(now, steps[..|steps| - 1]), steps[|steps| - 1])
  }

  /** The calls of `t` that read the clock in [lo, hi). */
  function Calls(log: seq<Call>, t: Tenant, lo: int, hi: int): (r: nat) {
    if log == [] then 0
    else
      var last := log[|log| - 1];
      Calls(log[..|log| - 1], t, lo, hi) + (if last.tenant == t && lo <= last.moment < hi then 1 else 0)
  }

  /** Those among them that were admitted. */
  function Admitted(log: seq<Call>, t: Tenant, lo: int, hi: int): (r: nat) {
    if log == [] then 0
    else
      var last := log[|log| - 1];
      Admitted(log[..|log| - 1], t, lo, hi) + (if last.tenant == t && lo <= last.moment < hi && last.ok then 1 else 0)
  }

  function Min(a: int, b: int): (r: int) {
    if a <= b then a else b
  }

  /** Every call of `t` in the run has this cap and reaches the server within `lag` of reading the clock. */
  ghost predicate Steady(steps: seq<Step>, t: Tenant, cap: int, lag: nat) {
    forall i :: 0 <= i < |steps| && steps[i].Attempt? && steps[i].t == t ==>
      Cap(steps[i].limit) == cap && steps[i].lag <= lag
  }

  // ---------------------------------------------------------------- one bucket

  ghost predicate BucketFits(s: State, t: Tenant, b: int, cap: int) {
    var (key, lo, hi) := (Bucket(t, b), b * WINDOW_MS, (b + 1) * WINDOW_MS);
    && Admitted(s.log, t, lo, hi) == Min(Calls(s.log, t, lo, hi), cap)
    && (key in s.db.cells ==>
          && s.db.cells[key].expiresAt.Some? && s.db.cells[key].expiresAt.value >= hi + WINDOW_MS
          && s.db.cells[key].value == Calls(s.log, t, lo, hi))
    && (Calls(s.log, t, lo, hi) > 0 && s.db.now < hi + WINDOW_MS ==> key in s.db.cells)
  }

  lemma LogGrows(log: seq<Call>, c: Call, t: Tenant, lo: int, hi: int)
    ensures Calls(log + [c], t, lo, hi) ==
            Calls(log, t, lo, hi) + (if c.tenant == t && lo <= c.moment < hi then 1 else 0)
    ensures Admitted(log + [c], t, lo, hi) ==
            Admitted(log, t, lo, hi) + (if c.tenant == t && lo <= c.moment < hi && c.ok then 1 else 0)
  {
    assert (log + [c])[..|log|] == log;
  }

  lemma BucketBounds(moment: int, b: int)
    ensures BucketOf(moment) == b <==> b * WINDOW_MS <= moment < (b + 1) * WINDOW_MS
  {
  }

  /** A call on another bucket. */
  lemma {:induction false} OtherCallKeepsBucket(s: State, s': State, call: Call, t: Tenant, b: int, cap: int)
    requires BucketFits(s, t, b, cap) && s'.log == s.log + [call] && s'.db.now == s.db.now
    requires call.tenant == t ==> !(b * WINDOW_MS <= call.moment < (b + 1) * WINDOW_MS)
    requires Bucket(t, b) in s'.db.cells <==> Bucket(t, b) in s.db.cells
    requires Bucket(t, b) in s.db.cells ==> s'.db.cells[Bucket(t, b)] == s.db.cells[Bucket(t, b)]
    ensures BucketFits(s', t, b, cap)
  {
    LogGrows(s.log, call, t, b * WINDOW_MS, (b + 1) * WINDOW_MS);
  }

  /** A counted call on the bucket. */
  lemma {:induction false} CallKeepsBucket(s: State, s': State, moment: int, t: Tenant, b: int, cap: int)
    requires cap >= 1 && BucketFits(s, t, b, cap) && b * WINDOW_MS <= moment < (b + 1) * WINDOW_MS
    requires moment <= s.db.now <= moment + WINDOW_MS
    requires var (n, db) := IncrExpire(s.db, Bucket(t, b), 1, TTL_MS);
             s' == State(db, s.log + [Call(t, moment, n <= cap)])
    ensures BucketFits(s', t, b, cap)
  {
    var n := IncrExpire(s.db, Bucket(t, b), 1, TTL_MS).0;
    LogGrows(s.log, Call(t, moment, n <= cap), t, b * WINDOW_MS, (b + 1) * WINDOW_MS);
    assert n == Calls(s.log, t, b * WINDOW_MS, (b + 1) * WINDOW_MS) + 1;
  }

  lemma {:induction false} AttemptKeepsBucket(s: State, u: Tenant, limit: Option<int>, lag: nat, t: Tenant, b: int,
                                              cap: int)
    requires cap >= 1 && BucketFits(s, t, b, cap) && (u == t ==> Cap(limit) == cap && lag <= WINDOW_MS)
    ensures BucketFits(Apply(s, Attempt(u, limit, lag)), t, b, cap)
  {
    var (s', moment) := (Apply(s, Attempt(u, limit, lag)), s.db.now - lag);
    BucketBounds(moment, b);
    if u == t && BucketOf(moment) == b {
      CallKeepsBucket(s, s', moment, t, b, cap);
    } else {
      OtherCallKeepsBucket(s, s', Call(u, moment, Consume(s.db, u, limit, moment).0), t, b, cap);
    }
  }

  lemma {:induction false} BucketStep(s: State, step: Step, t: Tenant, b: int, cap: int)
    requires cap >= 1 && BucketFits(s, t, b, cap)
    requires step.Attempt? && step.t == t ==> Cap(step.limit) == cap && step.lag <= WINDOW_MS
    ensures BucketFits(Apply(s, step), t, b, cap)
  {
    match step
    case Pass(_) =>
    case Expire(_) =>
    case Attempt(u, limit, lag) => AttemptKeepsBucket(s, u, limit, lag, t, b, cap);
  }

  /**
   * With one positive cap, and calls that reach the server within a window of reading the clock, each bucket
   * admits exactly min(calls, cap): the renewed expiry never drops a bucket that is still called. Other
   * tenants may do anything.
   */
  lemma {:induction false} BucketAdmitsUpToCap(now: int, steps: seq<Step>, t: Tenant, b: int, cap: int)
    requires cap >= 1 && Steady(steps, t, cap, WINDOW_MS)
    ensures BucketFits(Run(now, steps), t, b, cap)
  {
    if steps != [] {
      BucketAdmitsUpToCap(now, steps[..|steps| - 1], t, b, cap);
      BucketStep(Run(now, steps[..|steps| - 1]), steps[|steps| - 1], t, b, cap);
    }
  }

  lemma RunMore(now: int, steps: seq<Step>, step: Step)
    ensures Run(now, steps + [step]) == Apply(Run(now, steps), step)
  {
    assert (steps + [step])[..|steps|] == steps;
  }

  /** `n` calls one after the other, each `lag` milliseconds after it read the clock. */
  function Burst(t: Tenant, cap: int, lag: nat, n: nat): (steps: seq<Step>) {
    if n == 0 then [] else Burst(t, cap, lag, n - 1) + [Attempt(t, Some(cap), lag)]
  }

  /** The bucket's counter, zero when it is gone. */
  function Count(db: Store, t: Tenant, b: int): (n: int) {
    if Live(db, Bucket(t, b)) then db.cells[Bucket(t, b)].value else 0
  }

  /** From `s` to `s'` the clock stands still and `n` calls of the bucket are admitted, from a counter that is gone. */
  ghost predicate Admits(s: State, s': State, t: Tenant, b: int, n: nat) {
    var (lo, hi) := (b * WINDOW_MS, (b + 1) * WINDOW_MS);
    && s'.db.now == s.db.now && Count(s'.db, t, b) == n
    && Admitted(s'.log, t, lo, hi) == Admitted(s.log, t, lo, hi) + n
    && (n > 0 ==> Bucket(t, b) in s'.db.cells && s'.db.cells[Bucket(t, b)].expiresAt == Some(s.db.now + TTL_MS))
  }

  /** One more call below the cap. */
  lemma {:induction false} AttemptAdmits(s: State, s': State, t: Tenant, cap: int, lag: nat, b: int, n: nat)
    requires Admits(s, s', t, b, n) && n < cap && BucketOf(s.db.now - lag) == b
    ensures Admits(s, Apply(s', Attempt(t, Some(cap), lag)), t, b, n + 1)
  {
    BucketBounds(s.db.now - lag, b);
    LogGrows(s'.log, Call(t, s.db.now - lag, true), t, b * WINDOW_MS, (b + 1) * WINDOW_MS);
  }

  /** The state after a burst. */
  function BurstFrom(s: State, t: Tenant, cap: int, lag: nat, n: nat): (s': State) {
    if n == 0 then s else Apply(BurstFrom(s, t, cap, lag, n - 1), Attempt(t, Some(cap), lag))
  }

  lemma {:induction false} BurstAppends(prefix: seq<Step>, t: Tenant, cap: int, lag: nat, n: nat)
    requires n > 0
    ensures prefix + Burst(t, cap, lag, n) == (prefix + Burst(t, cap, lag, n - 1)) + [Attempt(t, Some(cap), lag)]
  {
  }

  lemma {:induction false} RunBurst(now: int, prefix: seq<Step>, t: Tenant, cap: int, lag: nat, n: nat)
    ensures Run(now, prefix + Burst(t, cap, lag, n)) == BurstFrom(Run(now, prefix), t, cap, lag, n)
  {
    if n == 0 {
      assert prefix + Burst(t, cap, lag, n) == prefix;
    } else {
      var before := prefix + Burst(t, cap, lag, n - 1);
      BurstAppends(prefix, t, cap, lag, n);
      RunMore(now, before, Attempt(t, Some(cap), lag));
      RunBurst(now, prefix, t, cap, lag, n - 1);
    }
  }

  /** On a counter that is gone a burst of up to the cap is admitted whole. */
  lemma {:induction false} FreshBurst(s: State, t: Tenant, cap: int, lag: nat, n: nat, b: int)
    requires n <= cap && BucketOf(s.db.now - lag) == b && Count(s.db, t, b) == 0
    ensures Admits(s, BurstFrom(s, t, cap, lag, n), t, b, n)
  {
    if n > 0 {
      FreshBurst(s, t, cap, lag, n - 1, b);
      AttemptAdmits(s, BurstFrom(s, t, cap, lag, n - 1), t, cap, lag, b, n - 1);
    }
  }

  lemma {:induction false} BurstIsSteady(t: Tenant, cap: int, lag: nat, n: nat)
    requires cap >= 1
    ensures Steady(Burst(t, cap, lag, n), t, cap, lag)
  {
    if n > 0 { BurstIsSteady(t, cap, lag, n - 1); }
  }

  /** A full burst, and another one after the counter has expired, a millisecond too late. */
  function LateRun(t: Tenant, cap: nat): (steps: seq<Step>) {
    Burst(t, cap, 0, cap) + [Pass(TTL_MS)] + Burst(t, cap, WINDOW_MS + 1, cap)
  }

  /** From a state without the counter, the two bursts admit twice the cap. */
  lemma {:induction false} LateBurstsAdmit(s: State, t: Tenant, b: int, cap: nat)
    requires cap >= 1 && s.db.now == b * WINDOW_MS && Count(s.db, t, b) == 0
    ensures var first := BurstFrom(s, t, cap, 0, cap);
            var last := BurstFrom(Apply(first, Pass(TTL_MS)), t, cap, WINDOW_MS + 1, cap);
            Admitted(last.log, t, b * WINDOW_MS, (b + 1) * WINDOW_MS) ==
            Admitted(s.log, t, b * WINDOW_MS, (b + 1) * WINDOW_MS) + 2 * cap
  {
    BucketBounds(s.db.now, b);
    BucketBounds(s.db.now + WINDOW_MS - 1, b);
    FreshBurst(s, t, cap, 0, cap, b);
    FreshBurst(Apply(BurstFrom(s, t, cap, 0, cap), Pass(TTL_MS)), t, cap, WINDOW_MS + 1, cap, b);
  }

  lemma {:induction false} LateRunIs(now: int, t: Tenant, cap: nat)
    ensures Run(now, LateRun(t, cap)) ==
            BurstFrom(Apply(BurstFrom(Run(now, []), t, cap, 0, cap), Pass(TTL_MS)), t, cap, WINDOW_MS + 1, cap)
  {
    var first := Burst(t, cap, 0, cap);
    assert [] + first == first;
    RunBurst(now, [], t, cap, 0, cap);
    RunMore(now, first, Pass(TTL_MS));
    RunBurst(now, first + [Pass(TTL_MS)], t, cap, WINDOW_MS + 1, cap);
  }

  /** One millisecond more of lag and a bucket admits twice its cap, whatever the cap. */
  lemma {:induction false} LateCallsRestartTheCount(t: Tenant, b: int, cap: nat)
    requires cap >= 1
    ensures Steady(LateRun(t, cap), t, cap, WINDOW_MS + 1)
    ensures Admitted(Run(b * WINDOW_MS, LateRun(t, cap)).log, t, b * WINDOW_MS, (b + 1) * WINDOW_MS) == 2 * cap
  {
    BurstIsSteady(t, cap, 0, cap);
    BurstIsSteady(t, cap, WINDOW_MS + 1, cap);
    LateRunIs(b * WINDOW_MS, t, cap);
    LateBurstsAdmit(Run(b * WINDOW_MS, []), t, b, cap);
  }

  // ---------------------------------------------------------------- any 60 seconds

  lemma {:induction false} AdmittedSplits(log: seq<Call>, t: Tenant, lo: int, mid: int, hi: int)
    requires lo <= mid <= hi
    ensures Admitted(log, t, lo, hi) == Admitted(log, t, lo, mid) + Admitted(log, t, mid, hi)
  {
    if log != [] { AdmittedSplits(log[..|log| - 1], t, lo, mid, hi); }
  }

  /** Any half-open 60-second interval admits at most twice the cap. */
  lemma AnyMinuteAdmitsTwiceTheCap(now: int, steps: seq<Step>, t: Tenant, from: int, cap: int)
    requires cap >= 1 && Steady(steps, t, cap, WINDOW_MS)
    ensures Admitted(Run(now, steps).log, t, from, from + WINDOW_MS) <= 2 * cap
  {
    var (log, b) := (Run(now, steps).log, BucketOf(from));
    BucketBounds(from, b);
    BucketAdmitsUpToCap(now, steps, t, b, cap);
    BucketAdmitsUpToCap(now, steps, t, b + 1, cap);
    var (lo, mid, hi) := (b * WINDOW_MS, (b + 1) * WINDOW_MS, (b + 1 + 1) * WINDOW_MS);
    AdmittedSplits(log, t, lo, from, hi);
    AdmittedSplits(log, t, from, from + WINDOW_MS, hi);
    AdmittedSplits(log, t, lo, mid, hi);
  }

  lemma {:induction false} AdmittedWereCalls(log: seq<Call>, t: Tenant, lo: int, hi: int)
    ensures Admitted(log, t, lo, hi) <= Calls(log, t, lo, hi)
  {
    if log != [] { AdmittedWereCalls(log[..|log| - 1], t, lo, hi); }
  }

  /** The last millisecond of one bucket and the first of the next. */
  function TwoBursts(t: Tenant, cap: nat): (r: seq<Step>) {
    [Pass(WINDOW_MS - 1)] + Burst(t, cap, 0, cap) + [Pass(1)] + Burst(t, cap, 0, cap)
  }

  lemma AttemptRuns(s: State, t: Tenant, cap: int, lo: int, hi: int)
    requires cap >= 1
    ensures Apply(s, Attempt(t, Some(cap), 0)).db.now == s.db.now
    ensures Calls(Apply(s, Attempt(t, Some(cap), 0)).log, t, lo, hi) ==
            Calls(s.log, t, lo, hi) + if lo <= s.db.now < hi then 1 else 0
  {
    LogGrows(s.log, Call(t, s.db.now, Consume(s.db, t, Some(cap), s.db.now).0), t, lo, hi);
  }

  lemma AttemptMore(now: int, steps: seq<Step>, t: Tenant, cap: int, lo: int, hi: int)
    requires cap >= 1 && Steady(steps, t, cap, 0)
    ensures var (s, s') := (Run(now, steps), Run(now, steps + [Attempt(t, Some(cap), 0)]));
            && Steady(steps + [Attempt(t, Some(cap), 0)], t, cap, 0)
            && s'.db.now == s.db.now
            && Calls(s'.log, t, lo, hi) == Calls(s.log, t, lo, hi) + if lo <= s.db.now < hi then 1 else 0
  {
    RunMore(now, steps, Attempt(t, Some(cap), 0));
    AttemptRuns(Run(now, steps), t, cap, lo, hi);
  }

  lemma {:induction false} BurstRuns(now: int, prefix: seq<Step>, t: Tenant, cap: int, n: nat, lo: int, hi: int)
    requires cap >= 1 && Steady(prefix, t, cap, 0)
    ensures var (s, s') := (Run(now, prefix), Run(now, prefix + Burst(t, cap, 0, n)));
            && Steady(prefix + Burst(t, cap, 0, n), t, cap, 0)
            && s'.db.now == s.db.now
            && Calls(s'.log, t, lo, hi) == Calls(s.log, t, lo, hi) + if lo <= s.db.now < hi then n else 0
  {
    if n == 0 {
      assert prefix + Burst(t, cap, 0, n) == prefix;
    } else {
      BurstRuns(now, prefix, t, cap, n - 1, lo, hi);
      var before := prefix + Burst(t, cap, 0, n - 1);
      assert prefix + Burst(t, cap, 0, n) == before + [Attempt(t, Some(cap), 0)];
      AttemptMore(now, before, t, cap, lo, hi);
    }
  }

  lemma PassRuns(now: int, prefix: seq<Step>, ms: nat, t: Tenant, cap: int)
    requires Steady(prefix, t, cap, 0)
    ensures Steady(prefix + [Pass(ms)], t, cap, 0)
    ensures Run(now, prefix + [Pass(ms)]).log == Run(now, prefix).log
    ensures Run(now, prefix + [Pass(ms)]).db.now == Run(now, prefix).db.now + ms
  {
    RunMore(now, prefix, Pass(ms));
  }

  /** What a pause and a burst add to the calls in one interval. */
  lemma PauseAndBurst(now: int, prefix: seq<Step>, ms: nat, t: Tenant, cap: nat, lo: int, hi: int)
    requires cap >= 1 && Steady(prefix, t, cap, 0)
    ensures var (s, s') := (Run(now, prefix), Run(now, prefix + [Pass(ms)] + Burst(t, cap, 0, cap)));
            && Steady(prefix + [Pass(ms)] + Burst(t, cap, 0, cap), t, cap, 0)
            && s'.db.now == s.db.now + ms
            && Calls(s'.log, t, lo, hi) == Calls(s.log, t, lo, hi) + if lo <= s'.db.now < hi then cap else 0
  {
    PassRuns(now, prefix, ms, t, cap);
    BurstRuns(now, prefix + [Pass(ms)], t, cap, cap, lo, hi);
  }

  /** What the two bursts call in one interval, from an empty store. */
  lemma TwoBurstsRun(now: int, t: Tenant, cap: nat, lo: int, hi: int)
    requires cap >= 1
    ensures Steady(TwoBursts(t, cap), t, cap, 0)
    ensures Calls(Run(now, TwoBursts(t, cap)).log, t, lo, hi) ==
            (if lo <= now + WINDOW_MS - 1 < hi then cap else 0) + if lo <= now + WINDOW_MS < hi then cap else 0
  {
    PauseAndBurst(now, [], WINDOW_MS - 1, t, cap, lo, hi);
    var first := [] + [Pass(WINDOW_MS - 1)] + Burst(t, cap, 0, cap);
    assert first == [Pass(WINDOW_MS - 1)] + Burst(t, cap, 0, cap);
    PauseAndBurst(now, first, 1, t, cap, lo, hi);
  }

  /** Twice the cap is reached: one burst just before a minute's end and one just after it. */
  lemma TwiceTheCapIsReached(t: Tenant, b: int, cap: int)
    requires cap >= 1
    ensures var from := (b + 1) * WINDOW_MS - 1;
            && Steady(TwoBursts(t, cap), t, cap, 0)
            && Admitted(Run(b * WINDOW_MS, TwoBursts(t, cap)).log, t, from, from + WINDOW_MS) == 2 * cap
  {
    var (lo, mid, hi) := (b * WINDOW_MS, (b + 1) * WINDOW_MS, (b + 1 + 1) * WINDOW_MS);
    var (steps, log) := (TwoBursts(t, cap), Run(lo, TwoBursts(t, cap)).log);
    TwoBurstsRun(lo, t, cap, lo, mid);
    TwoBurstsRun(lo, t, cap, mid, hi);
    TwoBurstsRun(lo, t, cap, lo, mid - 1);
    TwoBurstsRun(lo, t, cap, hi - 1, hi);
    BucketAdmitsUpToCap(lo, steps, t, b, cap);
    BucketAdmitsUpToCap(lo, steps, t, b + 1, cap);
    AdmittedWereCalls(log, t, lo, mid - 1);
    AdmittedWereCalls(log, t, hi - 1, hi);
    AdmittedSplits(log, t, lo, mid - 1, mid);
    AdmittedSplits(log, t, mid, hi - 1, hi);
    AdmittedSplits(log, t, mid - 1, mid, hi - 1);
  }
}
