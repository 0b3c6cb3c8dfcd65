/** The Redis session lock: any number of clients, keys, expiries, lost replies and crashes. */
module SessionLock {
  import opened Options
  import opened Redis

  /** Where one `_acquire` call stands. */
  datatype Phase =
    | Polling              // at the loop head
    | Sending              // passed the deadline test, SET in flight
    | Sleeping(until: int) // refused, waiting for the next poll
    | Body                 // acquired, running the caller's block
    | Releasing            // the block ended, release script in flight
    | Finished             // released, or the release was lost
    | TimedOut             // raised LockTimeoutError
    | Failed               // SET raised, or the process died

  /** `lease` is the expiry of the entry this call's SET stored, until its release deletes it. */
  datatype Client = Client(key: string, token: string, ttlMs: nat, deadline: int, phase: Phase, lease: Option<int>)

  /** `drawn` remembers which call drew each token. */
  datatype State = State(db: Db<string, string>, clients: map<nat, Client>, drawn: map<string, nat>)

  /** 0.05 s between polls. */
  const RETRY_MS: int := 50

  /** `max(1, int(ttl * 1000))`. */
  function TtlMs(requested: int): (r: nat) {
    if requested < 1 then 1 else requested
  }

  datatype Step =
    | Pass(ms: nat)
    | Expire(key: string)
    | Enter(id: nat, key: string, token: string, ttlRequested: int, waitMs: int)
    | CheckDeadline(id: nat)
    | SetNxPx(id: nat)
    | SetLost(id: nat, applied: bool)
    | Wake(id: nat)
    | LeaveBody(id: nat)
    | EvalRelease(id: nat)
    | ReleaseLost(id: nat, applied: bool)
    | Crash(id: nat)

  function Start(now: int): (r: State) {
    State(Db(map[], now), map[], map[])
  }

  predicate In(s: State, id: nat, phase: Phase) {
    id in s.clients && s.clients[id].phase == phase
  }

  function Move(s: State, id: nat, phase: Phase): (r: State)
    requires id in s.clients
  {
    s.(clients := s.clients[id := s.clients[id].(phase := phase)])
  }

  /** SET ... NX PX at the server, with the caller moving to `yes` or `no`. */
  function Grant(s: State, id: nat, yes: Phase, no: Phase): (r: State)
    requires id in s.clients
  {
    var c := s.clients[id];
    var (ok, db) := SetNx(s.db, c.key, c.token, c.ttlMs);
    if ok then s.(db := db, clients := s.clients[id := c.(phase := yes, lease := Some(s.db.now + c.ttlMs))])
    else Move(s, id, no)
  }

  /** The release script at the server. */
  function Free(s: State, id: nat): (r: State)
    requires id in s.clients
  {
    var c := s.clients[id];
    var (n, db) := CompareAndDelete(s.db, c.key, c.token);
    s.(db := db, clients := s.clients[id := c.(phase := Finished, lease := if n == 1 then None else c.lease)])
  }

  /** One step; a step that is not enabled changes nothing. */
  function Apply(s: State, step: Step): (r: State) {
    match step
    case Pass(ms) => s.(db := s.db.(now := s.db.now + ms))
    case Expire(key) => s.(db := Purge(s.db, key))
    case Enter(id, key, token, ttl, wait) =>
      // `token_hex(16)`: no two calls draw the same token
      if id in s.clients || token in s.drawn then s
      else
        var c := Client(key, token, TtlMs(ttl), s.db.now + wait, Polling, None);
        s.(clients := s.clients[id := c], drawn := s.drawn[token := id])
    case CheckDeadline(id) =>
      if !In(s, id, Polling) then s
      else Move(s, id, if s.db.now < s.clients[id].deadline then Sending else TimedOut)
    case SetNxPx(id) =>
      if !In(s, id, Sending) then s else Grant(s, id, Body, Sleeping(s.db.now + RETRY_MS))
    case SetLost(id, applied) =>
      if !In(s, id, Sending) then s else if applied then Grant(s, id, Failed, Failed) else Move(s, id, Failed)
    case Wake(id) =>
      if id in s.clients && s.clients[id].phase.Sleeping? && s.clients[id].phase.until <= s.db.now
      then Move(s, id, Polling) else s
    case LeaveBody(id) =>
      if !In(s, id, Body) then s else Move(s, id, Releasing)
    case EvalRelease(id) =>
      if !In(s, id, Releasing) then s else Free(s, id)
    case ReleaseLost(id, applied) =>
      if !In(s, id, Releasing) then s else if applied then Free(s, id) else Move(s, id, Finished)
    case Crash(id) =>
      if id in s.clients && s.clients[id].phase != TimedOut then Move(s, id, Failed) else s
  }

  function Run(s: State, steps: seq<Step>): (r: State) {
    if steps == [] then s else Apply(Run(s, steps[..|steps| - 1]), steps[|steps| - 1])
  }

  /** Client `id` holds a lease that is neither released nor expired. */
  predicate Holds(s: State, id: nat) {
    id in s.clients && s.clients[id].lease.Some? && s.db.now < s.clients[id].lease.value
  }

  // ---------------------------------------------------------------- the invariant

  /** A client's entry in the store, as its lease describes it. */
  predicate Stored(s: State, c: Client)
    requires c.lease.Some?
  {
    c.key in s.db.cells && s.db.cells[c.key] == Cell(c.token, c.lease)
  }

  predicate ClientFits(s: State, i: nat)
    requires i in s.clients
  {
    var c := s.clients[i];
    && c.token in s.drawn && s.drawn[c.token] == i
    && PhaseFits(c)
    // a live lease is the stored entry
    && (Holds(s, i) ==> Stored(s, c))
  }

  /** A stored entry is the lease of the call that drew its token. */
  predicate CellFits(s: State, k: string)
    requires k in s.db.cells
  {
    var cell := s.db.cells[k];
    cell.value in s.drawn &&
    var i := s.drawn[cell.value];
    i in s.clients && s.clients[i].key == k && s.clients[i].lease == cell.expiresAt && cell.expiresAt.Some?
  }

  ghost predicate Inv(s: State) {
    && (forall i :: i in s.clients ==> ClientFits(s, i))
    && (forall k :: k in s.db.cells ==> CellFits(s, k))
  }

  /** The body runs only after a grant; a caller that timed out was never granted. */
  predicate PhaseFits(c: Client) {
    && (c.phase.Body? || c.phase.Releasing? ==> c.lease.Some?)
    && (c.phase.Polling? || c.phase.Sending? || c.phase.Sleeping? || c.phase.TimedOut? ==> c.lease == None)
  }

  lemma GrantKeepsInv(s: State, id: nat, yes: Phase, no: Phase)
    requires Inv(s) && id in s.clients && s.clients[id].lease == None
    requires PhaseFits(s.clients[id].(phase := no)) && (yes.Body? || yes.Failed?)
    ensures Inv(Grant(s, id, yes, no))
  {
    var s' := Grant(s, id, yes, no);
    forall i | i in s'.clients ensures ClientFits(s', i) { assert ClientFits(s, i); }
    forall k | k in s'.db.cells ensures CellFits(s', k) { assert k in s.db.cells ==> CellFits(s, k); }
  }

  lemma FreeKeepsInv(s: State, id: nat)
    requires Inv(s) && In(s, id, Releasing)
    ensures Inv(Free(s, id))
  {
    var s' := Free(s, id);
    forall i | i in s'.clients ensures ClientFits(s', i) { assert ClientFits(s, i) && ClientFits(s, id); }
    forall k | k in s'.db.cells ensures CellFits(s', k) { assert CellFits(s, k); }
  }

  lemma MoveKeepsInv(s: State, id: nat, phase: Phase)
    requires Inv(s) && id in s.clients && PhaseFits(s.clients[id].(phase := phase))
    ensures Inv(Move(s, id, phase))
  {
    var s' := Move(s, id, phase);
    forall i | i in s'.clients ensures ClientFits(s', i) { assert ClientFits(s, i); }
    forall k | k in s'.db.cells ensures CellFits(s', k) { assert CellFits(s, k); }
  }

  lemma TimeAndEntryKeepInv(s: State, step: Step)
    requires Inv(s) && (step.Pass? || step.Expire? || step.Enter?)
    ensures Inv(Apply(s, step))
  {
    var s' := Apply(s, step);
    forall i | i in s'.clients ensures ClientFits(s', i) { assert i in s.clients ==> ClientFits(s, i); }
    forall k | k in s'.db.cells ensures CellFits(s', k) { assert CellFits(s, k); }
  }

  lemma ApplyKeepsInv(s: State, step: Step)
    requires Inv(s)
    ensures Inv(Apply(s, step))
  {
    match step
    case Pass(_) => TimeAndEntryKeepInv(s, step);
    case Expire(_) => TimeAndEntryKeepInv(s, step);
    case Enter(_, _, _, _, _) => TimeAndEntryKeepInv(s, step);
    case CheckDeadline(id) =>
      if In(s, id, Polling) {
        assert ClientFits(s, id);
        MoveKeepsInv(s, id, if s.db.now < s.clients[id].deadline then Sending else TimedOut);
      }
    case SetNxPx(id) =>
      if In(s, id, Sending) {
        assert ClientFits(s, id);
        GrantKeepsInv(s, id, Body, Sleeping(s.db.now + RETRY_MS));
      }
    case SetLost(id, applied) =>
      if In(s, id, Sending) {
        assert ClientFits(s, id);
        if applied { GrantKeepsInv(s, id, Failed, Failed); } else { MoveKeepsInv(s, id, Failed); }
      }
    case Wake(id) =>
      if Apply(s, step) != s {
        assert ClientFits(s, id);
        MoveKeepsInv(s, id, Polling);
      }
    case LeaveBody(id) =>
      if In(s, id, Body) {
        assert ClientFits(s, id);
        MoveKeepsInv(s, id, Releasing);
      }
    case EvalRelease(id) => if In(s, id, Releasing) { FreeKeepsInv(s, id); }
    case ReleaseLost(id, applied) =>
      if In(s, id, Releasing) {
        if applied { FreeKeepsInv(s, id); } else { MoveKeepsInv(s, id, Finished); }
      }
    case Crash(id) => if Apply(s, step) != s { MoveKeepsInv(s, id, Failed); }
  }

  lemma {:induction false} RunInv(now: int, steps: seq<Step>)
    ensures Inv(Run(Start(now), steps))
  {
    if steps != [] {
      RunInv(now, steps[..|steps| - 1]);
      ApplyKeepsInv(Run(Start(now), steps[..|steps| - 1]), steps[|steps| - 1]);
    }
  }

  // ---------------------------------------------------------------- the promises

  /** After any run, one key has at most one live lease, and that lease is the token the server stores. */
  lemma {:induction false} MutualExclusion(now: int, steps: seq<Step>, i: nat, j: nat)
    ensures var s := Run(Start(now), steps);
            Holds(s, i) && Holds(s, j) && s.clients[i].key == s.clients[j].key
            ==> i == j && Get(s.db, s.clients[i].key) == Some(s.clients[i].token)
  {
    RunInv(now, steps);
    var s := Run(Start(now), steps);
    if Holds(s, i) && Holds(s, j) { assert ClientFits(s, i) && ClientFits(s, j); }
  }

  lemma LeaseEnds(s: State, step: Step, i: nat)
    requires Holds(s, i) && ClientFits(s, i)
    ensures !Holds(Apply(s, step), i) <==>
              || (In(s, i, Releasing) && (step == EvalRelease(i) || step == ReleaseLost(i, true)))
              || (step.Pass? && s.clients[i].lease.value <= s.db.now + step.ms)
  {
  }

  /** A live lease ends with its own release and with its own expiry, and by nothing else anyone does. */
  lemma {:induction false} OnlyTheHolderReleases(now: int, steps: seq<Step>, step: Step, i: nat)
    ensures var s := Run(Start(now), steps);
            var s' := Apply(s, step);
            Holds(s, i) ==>
              (!Holds(s', i) <==>
                 || (In(s, i, Releasing) && (step == EvalRelease(i) || step == ReleaseLost(i, true)))
                 || (step.Pass? && s.clients[i].lease.value <= s.db.now + step.ms))
  {
    RunInv(now, steps);
    var s := Run(Start(now), steps);
    if Holds(s, i) {
      assert ClientFits(s, i);
      LeaseEnds(s, step, i);
    }
  }

  /** A holder whose lease has lapsed releases nothing: every stored entry survives its script. */
  lemma {:induction false} LapsedReleaseIsNoOp(now: int, steps: seq<Step>, i: nat)
    ensures var s := Run(Start(now), steps);
            i in s.clients && !Holds(s, i) ==> Apply(s, EvalRelease(i)).db == s.db
  {
    RunInv(now, steps);
    var s := Run(Start(now), steps);
    if i in s.clients && Live(s.db, s.clients[i].key) {
      assert ClientFits(s, i) && CellFits(s, s.clients[i].key);
    }
  }

  /** A SET is refused exactly while some client holds a live lease on the key. */
  lemma {:induction false} RefusedIffHeld(now: int, steps: seq<Step>, i: nat)
    ensures var s := Run(Start(now), steps);
            In(s, i, Sending) ==>
              (In(Apply(s, SetNxPx(i)), i, Body) <==> !exists j :: Holds(s, j) && s.clients[j].key == s.clients[i].key)
  {
    RunInv(now, steps);
    var s := Run(Start(now), steps);
    if In(s, i, Sending) {
      var key := s.clients[i].key;
      if Live(s.db, key) {
        assert CellFits(s, key);
        var o := s.drawn[s.db.cells[key].value];
        assert Holds(s, o) && s.clients[o].key == key;
      } else {
        forall j | Holds(s, j) ensures s.clients[j].key != key { assert ClientFits(s, j); }
      }
    }
  }

  /** A call that raised LockTimeoutError never had its token stored; one in its body did. */
  lemma {:induction false} TimedOutNeverHeld(now: int, steps: seq<Step>, i: nat)
    ensures var s := Run(Start(now), steps);
            && (In(s, i, TimedOut) ==> forall k :: k in s.db.cells ==> s.db.cells[k].value != s.clients[i].token)
            && (In(s, i, Body) ==> s.clients[i].lease.Some?)
  {
    RunInv(now, steps);
    var s := Run(Start(now), steps);
    if i in s.clients {
      assert ClientFits(s, i);
      forall k | k in s.db.cells && In(s, i, TimedOut) ensures s.db.cells[k].value != s.clients[i].token {
        assert CellFits(s, k);
      }
    }
  }

  // ---------------------------------------------------------------- the polling loop

  /** The machine, as the code of one client changes it. */
  class System {
    var s: State

    constructor (s: State)
      ensures this.s == s
    {
      this.s := s;
    }

    method Do(step: Step)
      modifies this
      ensures s == Apply(old(s), step)
    {
      s := Apply(s, step);
    }

    /** What everyone else does before this client goes on. */
    method Elapse(steps: seq<Step>)
      modifies this
      ensures s == Run(old(s), steps)
    {
      for i := 0 to |steps|
        invariant s == Run(old(s), steps[..i])
      {
        assert steps[..i + 1][..i] == steps[..i];
        s := Apply(s, steps[i]);
      }
      assert steps[..|steps|] == steps;
    }
  }

  /** A step of some other client, or of the server. */
  predicate Foreign(step: Step, id: nat) {
    match step
    case Pass(_) => true
    case Expire(_) => true
    case _ => step.id != id
  }

  ghost predicate AllForeign(steps: seq<Step>, id: nat) {
    forall i :: 0 <= i < |steps| ==> Foreign(steps[i], id)
  }

  lemma {:induction false} RunAppends(s: State, a: seq<Step>, b: seq<Step>)
    ensures Run(s, a + b) == Run(Run(s, a), b)
  {
    if b == [] {
      assert a + b == a;
    } else {
      var n := |b| - 1;
      assert (a + b)[..|a + b| - 1] == a + b[..n];
      RunAppends(s, a, b[..n]);
    }
  }

  lemma {:induction false} ForeignStepsKeepClient(s: State, steps: seq<Step>, id: nat)
    requires id in s.clients && AllForeign(steps, id)
    ensures var s' := Run(s, steps); id in s'.clients && s'.clients[id] == s.clients[id] && s'.db.now >= s.db.now
  {
    if steps != [] {
      ForeignStepsKeepClient(s, steps[..|steps| - 1], id);
      assert Foreign(steps[|steps| - 1], id);
    }
  }

  lemma DoAppends(s: State, trace: seq<Step>, step: Step)
    ensures Run(s, trace + [step]) == Apply(Run(s, trace), step)
  {
    assert (trace + [step])[..|trace|] == trace;
  }

  /** A refused client sleeps for the delay, with anything the others do in between. */
  method Sleep(sys: System, id: nat, others: seq<Step>) returns (ghost trace: seq<Step>)
    requires In(sys.s, id, Sleeping(sys.s.db.now + RETRY_MS)) && AllForeign(others, id)
    modifies sys
    ensures sys.s == Run(old(sys.s), trace) && sys.s.db.now >= old(sys.s.db.now) + RETRY_MS
    ensures id in sys.s.clients && sys.s.clients[id] == old(sys.s.clients[id]).(phase := Polling)
  {
    ghost var start := sys.s;
    ForeignStepsKeepClient(start, others, id);
    sys.Elapse(others);
    sys.Do(Pass(RETRY_MS));
    DoAppends(start, others, Pass(RETRY_MS));
    sys.Do(Wake(id));
    DoAppends(start, others + [Pass(RETRY_MS)], Wake(id));
    trace := others + [Pass(RETRY_MS)] + [Wake(id)];
  }

  /** One turn of the loop, the others stepping `before` and `after` the SET. */
  method Poll(sys: System, id: nat, before: seq<Step>, after: seq<Step>) returns (ok: bool, ghost trace: seq<Step>)
    requires In(sys.s, id, Polling) && sys.s.db.now < sys.s.clients[id].deadline
    requires AllForeign(before, id) && AllForeign(after, id)
    modifies sys
    ensures sys.s == Run(old(sys.s), trace)
    ensures id in sys.s.clients && sys.s.clients[id].key == old(sys.s.clients[id].key)
    ensures sys.s.clients[id].token == old(sys.s.clients[id].token)
    ensures ok ==> In(sys.s, id, Body)
    ensures !ok ==> sys.s.clients[id] == old(sys.s.clients[id]) && sys.s.db.now >= old(sys.s.db.now) + RETRY_MS
  {
    ghost var start := sys.s;
    sys.Do(CheckDeadline(id));
    trace := [] + [CheckDeadline(id)];
    DoAppends(start, [], CheckDeadline(id));
    ForeignStepsKeepClient(sys.s, before, id);
    sys.Elapse(before);
    RunAppends(start, trace, before);
    trace := trace + before;
    sys.Do(SetNxPx(id));
    DoAppends(start, trace, SetNxPx(id));
    trace := trace + [SetNxPx(id)];
    ok := sys.s.clients[id].phase == Body;
    if !ok {
      ghost var nap := Sleep(sys, id, after);
      RunAppends(start, trace, nap);
      trace := trace + nap;
    }
  }

  /**
   * `_acquire` up to its body, whatever the others do around each SET: its loop is a run of the machine, it ends,
   * and it leaves the call in its body exactly when it acquired and timed out otherwise.
   */
  method Acquire(sys: System, id: nat, key: string, token: string, ttl: int, wait: int,
                 others: (nat, bool) -> seq<Step>) returns (acquired: bool, ghost trace: seq<Step>)
    requires id !in sys.s.clients && token !in sys.s.drawn
    requires forall n: nat, b: bool :: AllForeign(others(n, b), id)
    modifies sys
    ensures sys.s == Run(old(sys.s), trace)
    ensures id in sys.s.clients && sys.s.clients[id].key == key && sys.s.clients[id].token == token
    ensures acquired ==> In(sys.s, id, Body)
    ensures !acquired ==> In(sys.s, id, TimedOut) && sys.s.db.now >= old(sys.s.db.now) + wait
  {
    ghost var start := sys.s;
    var deadline := sys.s.db.now + wait;
    sys.Do(Enter(id, key, token, ttl, wait));
    trace := [] + [Enter(id, key, token, ttl, wait)];
    DoAppends(start, [], Enter(id, key, token, ttl, wait));
    var n: nat := 0;
    while sys.s.db.now < deadline
      invariant sys.s == Run(start, trace)
      invariant id in sys.s.clients && sys.s.clients[id] == Client(key, token, TtlMs(ttl), deadline, Polling, None)
      decreases deadline - sys.s.db.now
    {
      ghost var more;
      acquired, more := Poll(sys, id, others(n, true), others(n, false));
      RunAppends(start, trace, more);
      trace := trace + more;
      if acquired { return; }
      n := n + 1;
    }
    sys.Do(CheckDeadline(id));
    DoAppends(start, trace, CheckDeadline(id));
    trace := trace + [CheckDeadline(id)];
    acquired := false;
  }
}
