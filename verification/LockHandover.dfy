/** What a grant and a release of the session lock do. */
module LockHandover {
  import opened Options
  import opened Redis
  import opened SessionLock

  /** From `s` to `s'` only this key's entry and this client can have changed. */
  ghost predicate OnlyTouches(s: State, s': State, i: nat, key: string) {
    && s'.db.now == s.db.now
    && (forall k :: k != key ==>
          (k in s'.db.cells <==> k in s.db.cells) && (k in s.db.cells ==> s'.db.cells[k] == s.db.cells[k]))
    && (forall j :: j != i ==>
          (j in s'.clients <==> j in s.clients) && (j in s.clients ==> s'.clients[j] == s.clients[j]))
  }

  /** The script of a holder reaches the server, whether or not its reply comes back. */
  predicate Releases(step: Step, i: nat) {
    step == EvalRelease(i) || step == ReleaseLost(i, true)
  }

  lemma LiveLeaseIsStored(now: int, steps: seq<Step>, i: nat)
    ensures var s := Run(Start(now), steps);
            Holds(s, i) ==>
              var c := s.clients[i];
              c.key in s.db.cells && s.db.cells[c.key] == Cell(c.token, c.lease)
  {
    RunInv(now, steps);
    if Holds(Run(Start(now), steps), i) { assert ClientFits(Run(Start(now), steps), i); }
  }

  /** A holder that releases holds nothing any more, its key is free, and nothing else has changed. */
  lemma {:induction false} ReleaseFreesTheKey(now: int, steps: seq<Step>, i: nat, step: Step)
    requires Releases(step, i)
    ensures var s := Run(Start(now), steps);
            var s' := Apply(s, step);
            In(s, i, Releasing) && Holds(s, i) ==>
              && In(s', i, Finished) && !Holds(s', i)
              && Get(s'.db, s.clients[i].key) == None
              && OnlyTouches(s, s', i, s.clients[i].key)
  {
    LiveLeaseIsStored(now, steps, i);
  }

  lemma {:induction false} TtlIsPositive(now: int, steps: seq<Step>, i: nat)
    ensures i in Run(Start(now), steps).clients ==> Run(Start(now), steps).clients[i].ttlMs >= 1
  {
    if steps != [] { TtlIsPositive(now, steps[..|steps| - 1], i); }
  }

  /** A client that sends its SET next enters its body, with a live lease. */
  lemma {:induction false} NextClientEnters(now: int, steps: seq<Step>, i: nat, step: Step, j: nat)
    requires Releases(step, i)
    ensures var s := Run(Start(now), steps);
            In(s, i, Releasing) && Holds(s, i) && In(s, j, Sending) && s.clients[j].key == s.clients[i].key
            ==> var s' := Apply(Apply(s, step), SetNxPx(j)); In(s', j, Body) && Holds(s', j)
  {
    ReleaseFreesTheKey(now, steps, i, step);
    TtlIsPositive(now, steps, j);
    var s := Run(Start(now), steps);
    if In(s, i, Releasing) && Holds(s, i) && In(s, j, Sending) {
      var s1 := Apply(s, step);
      assert j != i && s1.clients[j] == s.clients[j];
      assert !Live(s1.db, s.clients[i].key);
    }
  }

  /** A call that leaves its body in time and runs its script leaves the key free. */
  lemma {:induction false} LeavingFreesTheKey(now: int, steps: seq<Step>, i: nat)
    ensures var s := Run(Start(now), steps);
            In(s, i, Body) && Holds(s, i) ==>
              Get(Apply(Apply(s, LeaveBody(i)), EvalRelease(i)).db, s.clients[i].key) == None
  {
    var more := steps + [LeaveBody(i)];
    assert more[..|more| - 1] == steps;
    ReleaseFreesTheKey(now, more, i, EvalRelease(i));
  }

  /** A call that is refused tries again after 50 milliseconds, not before. */
  lemma {:induction false} RefusedPollsAgain(now: int, steps: seq<Step>, i: nat, ms: nat)
    ensures var s := Run(Start(now), steps);
            In(s, i, Sending) && (exists h :: Holds(s, h) && s.clients[h].key == s.clients[i].key) ==>
              var s' := Apply(s, SetNxPx(i));
              && s'.db == s.db && OnlyTouches(s, s', i, s.clients[i].key)
              && (In(Apply(Apply(s', Pass(ms)), Wake(i)), i, Polling) <==> ms >= 50)
  {
    RefusedIffHeld(now, steps, i);
  }

  /** A client that dies leaves the key space as it is: its lease runs out, or nobody can enter. */
  lemma {:induction false} CrashLeavesTheLease(now: int, steps: seq<Step>, i: nat)
    ensures var s := Run(Start(now), steps);
            var s' := Apply(s, Crash(i));
            && s'.db == s.db && (Holds(s, i) ==> In(s', i, Failed) && Holds(s', i))
            && (i in s.clients ==> OnlyTouches(s, s', i, s.clients[i].key))
  {
    RunInv(now, steps);
    if Holds(Run(Start(now), steps), i) { assert ClientFits(Run(Start(now), steps), i); }
  }

  /** A new call polls at once; its time to live is at least a millisecond. */
  lemma {:induction false} CallStarts(s: State, id: nat, key: string, token: string, ttl: int, wait: int)
    requires id !in s.clients && token !in s.drawn
    ensures var s' := Apply(s, Enter(id, key, token, ttl, wait));
            && In(s', id, Polling) && s'.db == s.db && OnlyTouches(s, s', id, key)
            && var c := s'.clients[id];
               && c.key == key && c.token == token && c.deadline == s.db.now + wait && c.lease == None
               && c.ttlMs >= 1 && c.ttlMs >= ttl && (c.ttlMs == 1 || c.ttlMs == ttl)
  {
  }

  /**
   * A SET on a key nobody holds stores this call's token for its whole time to live; whether or not the reply
   * arrives, nobody else can enter before that has passed.
   */
  lemma {:induction false} GrantLastsItsTime(now: int, steps: seq<Step>, i: nat, step: Step, ms: nat, j: nat)
    requires step == SetNxPx(i) || step == SetLost(i, true)
    ensures var s := Run(Start(now), steps);
            In(s, i, Sending) && !(exists h :: Holds(s, h) && s.clients[h].key == s.clients[i].key) ==>
              var (c, s') := (s.clients[i], Apply(s, step));
              && In(s', i, if step.SetNxPx? then Body else Failed) && OnlyTouches(s, s', i, c.key)
              && Holds(s', i) && s'.clients[i].lease == Some(s.db.now + c.ttlMs)
              && var later := Apply(s', Pass(ms));
                 && Get(later.db, c.key) == (if ms < c.ttlMs then Some(c.token) else None)
                 && (In(s, j, Sending) && j != i && s.clients[j].key == c.key ==>
                       (In(Apply(later, SetNxPx(j)), j, Body) <==> ms >= c.ttlMs))
  {
    var s := Run(Start(now), steps);
    RefusedIffHeld(now, steps, i);
    TtlIsPositive(now, steps, i);
    if In(s, i, Sending) && !(exists h :: Holds(s, h) && s.clients[h].key == s.clients[i].key) {
      assert In(Apply(s, SetNxPx(i)), i, Body);
      assert !Live(s.db, s.clients[i].key);
    }
  }

  /** At the loop's head the deadline decides; giving up takes nothing from anyone. */
  lemma {:induction false} DeadlineDecides(s: State, id: nat)
    requires In(s, id, Polling)
    ensures var s' := Apply(s, CheckDeadline(id));
            && In(s', id, if s.db.now < s.clients[id].deadline then Sending else TimedOut)
            && s'.db == s.db && OnlyTouches(s, s', id, s.clients[id].key)
  {
  }

  predicate LateIfTimedOut(s: State, id: nat) {
    In(s, id, TimedOut) ==> s.clients[id].deadline <= s.db.now
  }

  lemma {:induction false} StepKeepsLate(s: State, step: Step, id: nat)
    requires LateIfTimedOut(s, id)
    ensures LateIfTimedOut(Apply(s, step), id)
  {
    match step
    case Pass(_) =>
    case Expire(_) =>
    case Enter(_, _, _, _, _) =>
    case _ =>
      if step.id != id { assert In(Apply(s, step), id, TimedOut) ==> s.clients[id] == Apply(s, step).clients[id]; }
  }

  /** Whoever timed out did so at its deadline or later. */
  lemma {:induction false} TimedOutIsLate(now: int, steps: seq<Step>, id: nat)
    ensures LateIfTimedOut(Run(Start(now), steps), id)
  {
    if steps != [] {
      TimedOutIsLate(now, steps[..|steps| - 1], id);
      StepKeepsLate(Run(Start(now), steps[..|steps| - 1]), steps[|steps| - 1], id);
    }
  }

  /** The server drops what has expired, and nobody can tell. */
  lemma {:induction false} ExpiryIsUnseen(s: State, key: string, other: string)
    ensures var s' := Apply(s, Expire(key));
            && Get(s'.db, other) == Get(s.db, other) && s'.clients == s.clients && s'.db.now == s.db.now
            && (Get(s.db, key) == None ==> key !in s'.db.cells)
  {
  }

}
