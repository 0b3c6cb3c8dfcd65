/** Which turns the rate limit admits. */
module RateDecisions {
  import opened Options
  import opened RateLimit
  import opened Redis
  import opened Sequences
  import opened Tenants

  /** The clock after a run that began at `now`. */
  function Clock(now: int, steps: seq<Step>): (r: int) {
    if steps == [] then now
    else
      var last := steps[|steps| - 1];
      Clock(now, steps[..|steps| - 1]) + if last.Pass? then last.ms else 0
  }

  /** The limit in force: 60 by default, and none at all when it is not positive. */
  function Limit(limit: Option<int>): (r: Option<nat>) {
    match limit
    case None => Some(60)
    case Some(n) => if n > 0 then Some(n) else None
  }

  /** `step` is a limited call of `t`, and the clock it read shows minute `m`; the server's clock shows `clock`. */
  predicate CallsIn(step: Step, clock: int, t: Tenant, m: int) {
    && step.Attempt? && step.t == t && Limit(step.limit).Some?
    && m * 60_000 <= clock - step.lag < (m + 1) * 60_000
  }

  /** How many limited calls of `t` read minute `m`. */
  function TurnsIn(now: int, steps: seq<Step>, t: Tenant, m: int): (n: nat) {
    if steps == [] then 0
    else
      var (init, last) := (steps[..|steps| - 1], steps[|steps| - 1]);
      TurnsIn(now, init, t, m) + if CallsIn(last, Clock(now, init), t, m) then 1 else 0
  }

  /** The limited calls of `t` reach the server within a minute of reading the clock. */
  ghost predicate Prompt(steps: seq<Step>, t: Tenant) {
    forall i :: 0 <= i < |steps| && steps[i].Attempt? && steps[i].t == t && Limit(steps[i].limit).Some? ==>
      steps[i].lag <= 60_000
  }

  // ---------------------------------------------------------------- the counter of a minute

  /** The stored counter of minute `m`, which has `n` calls behind it. */
  ghost predicate CounterIs(s: State, t: Tenant, m: int, n: nat) {
    var key := Bucket(t, m);
    && (key in s.db.cells ==>
          && s.db.cells[key].value == n
          && s.db.cells[key].expiresAt.Some? && s.db.cells[key].expiresAt.value >= (m + 2) * 60_000)
    && (n > 0 && s.db.now < (m + 2) * 60_000 ==> key in s.db.cells)
  }

  lemma {:induction false} CalledCounter(s: State, t: Tenant, limit: Option<int>, lag: nat, m: int, n: nat)
    requires CounterIs(s, t, m, n) && CallsIn(Attempt(t, limit, lag), s.db.now, t, m) && lag <= 60_000
    ensures CounterIs(Apply(s, Attempt(t, limit, lag)), t, m, n + 1)
    ensures Apply(s, Attempt(t, limit, lag)).log == s.log + [Call(t, s.db.now - lag, n < Limit(limit).value)]
  {
    BucketBounds(s.db.now - lag, m);
    assert Live(s.db, Bucket(t, m)) <==> n > 0 || Bucket(t, m) in s.db.cells;
  }

  lemma {:induction false} OtherCounter(s: State, step: Step, t: Tenant, m: int, n: nat)
    requires CounterIs(s, t, m, n) && !CallsIn(step, s.db.now, t, m)
    ensures CounterIs(Apply(s, step), t, m, n)
  {
    if step.Attempt? { BucketBounds(s.db.now - step.lag, m); }
  }

  lemma {:induction false} ClockIs(now: int, steps: seq<Step>)
    ensures Run(now, steps).db.now == Clock(now, steps)
  {
    if steps != [] { ClockIs(now, steps[..|steps| - 1]); }
  }

  lemma {:induction false} CounterIsTheTurns(now: int, steps: seq<Step>, t: Tenant, m: int)
    requires Prompt(steps, t)
    ensures CounterIs(Run(now, steps), t, m, TurnsIn(now, steps, t, m))
  {
    if steps != [] {
      var (init, last) := (steps[..|steps| - 1], steps[|steps| - 1]);
      CounterIsTheTurns(now, init, t, m);
      ClockIs(now, init);
      if CallsIn(last, Clock(now, init), t, m) {
        CalledCounter(Run(now, init), t, last.limit, last.lag, m, TurnsIn(now, init, t, m));
      } else {
        OtherCounter(Run(now, init), last, t, m, TurnsIn(now, init, t, m));
      }
    }
  }

  // ---------------------------------------------------------------- one call more

  /** The answer to a call that read `moment`, and what is left in the store. */
  ghost predicate Answered(s: State, s': State, t: Tenant, moment: int, ok: bool) {
    s'.log == s.log + [Call(t, moment, ok)] && s'.db.now == s.db.now
  }

  /**
   * A call is admitted exactly when fewer limited calls of its tenant than its limit read the same minute before it,
   * under whatever limits those came; without a limit it is admitted and not counted.
   */
  lemma {:induction false} AdmittedIffFewer(now: int, steps: seq<Step>, t: Tenant, limit: Option<int>, lag: nat, m: int)
    requires Prompt(steps + [Attempt(t, limit, lag)], t)
    requires m * 60_000 <= Clock(now, steps) - lag < (m + 1) * 60_000
    ensures var (s, s') := (Run(now, steps), Run(now, steps + [Attempt(t, limit, lag)]));
            match Limit(limit)
            case Some(n) => Answered(s, s', t, Clock(now, steps) - lag, TurnsIn(now, steps, t, m) < n)
            case None => Answered(s, s', t, Clock(now, steps) - lag, true) && s'.db == s.db
  {
    var last := Attempt(t, limit, lag);
    InitLast(steps, last);
    ClockIs(now, steps);
    forall i | 0 <= i < |steps| ensures steps[i] == (steps + [last])[i] {}
    CounterIsTheTurns(now, steps, t, m);
    if Limit(limit).Some? {
      assert (steps + [last])[|steps|] == last;
      CalledCounter(Run(now, steps), t, limit, lag, m, TurnsIn(now, steps, t, m));
    }
  }

  /** A call touches the counter of its own tenant and minute, and no other. */
  lemma {:induction false} OthersAreUntouched(s: State, t: Tenant, limit: Option<int>, lag: nat, key: Key)
    requires key.tenant != t || !(key.index * 60_000 <= s.db.now - lag < (key.index + 1) * 60_000)
    ensures var s' := Apply(s, Attempt(t, limit, lag));
            && (key in s'.db.cells <==> key in s.db.cells)
            && (key in s.db.cells ==> s'.db.cells[key] == s.db.cells[key])
  {
    BucketBounds(s.db.now - lag, key.index);
  }
}
