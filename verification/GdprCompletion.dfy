/** When an open delete request can still be completed, and the runs after which it cannot. */
module GdprCompletion {
  import opened Gdpr

  /** Some worker is on the request. */
  ghost predicate Worked(s: State, rid: nat) {
    exists wid :: Active(s, wid) && s.workers[wid].request == rid
  }

  predicate Open(s: State, rid: nat) {
    rid in s.requests && !s.requests[rid].completed
  }

  predicate Completed(s: State, rid: nat) {
    rid in s.requests && s.requests[rid].completed
  }

  /** Some continuation of the run completes the request. */
  ghost predicate CanComplete(steps: seq<Step>, rid: nat) {
    exists later :: Completed(Run(steps + later), rid)
  }

  // ---------------------------------------------------------------- no worker and nothing to deliver

  /** The request is open, a delivery of it would do nothing, and no worker is on it. */
  ghost predicate Stuck(s: State, rid: nat) {
    Open(s, rid) && Settled(s.requests, rid) && !Worked(s, rid)
  }

  /** A step keeps workers, their users and requests; only a delivery adds one. */
  lemma {:induction false} StepWorkers(s: State, step: Step, wid: nat)
    requires Active(Apply(s, step), wid)
    ensures || (Active(s, wid) && Apply(s, step).workers[wid].request == s.workers[wid].request)
            || (step == Deliver(wid, Apply(s, step).workers[wid].request) && !Settled(s.requests, step.rid))
  {
    assert wid in s.workers && s.workers[wid].phase != Stopped ==> Active(s, wid);
  }

  /** Only the worker of a request completes it; a settled one stays settled. */
  lemma {:induction false} StepRequest(s: State, step: Step, rid: nat)
    requires Open(s, rid) && Settled(s.requests, rid)
    requires forall wid :: Active(s, wid) ==> s.workers[wid].request != rid
    ensures Open(Apply(s, step), rid) && Settled(Apply(s, step).requests, rid)
  {
    if step.Complete? && step.wid in s.workers && s.workers[step.wid].phase == Completing {
      assert Active(s, step.wid);
    }
  }

  lemma {:induction false} StuckStep(s: State, step: Step, rid: nat)
    requires Stuck(s, rid)
    ensures Stuck(Apply(s, step), rid)
  {
    StepRequest(s, step, rid);
    forall wid | Active(Apply(s, step), wid) ensures Apply(s, step).workers[wid].request != rid {
      StepWorkers(s, step, wid);
    }
  }

  /** A stuck request is never completed, however often it is delivered again. */
  lemma {:induction false} StuckForGood(steps: seq<Step>, later: seq<Step>, rid: nat)
    requires Stuck(Run(steps), rid)
    ensures Stuck(Run(steps + later), rid)
  {
    if later == [] {
      assert steps + later == steps;
    } else {
      var n := |later| - 1;
      StuckForGood(steps, later[..n], rid);
      assert steps + later == (steps + later[..n]) + [later[n]];
      RunMore(steps + later[..n], later[n]);
      StuckStep(Run(steps + later[..n]), later[n], rid);
    }
  }

  // ---------------------------------------------------------------- a worker can finish

  /** The step that brings a worker one phase further. */
  function Next(wid: nat, phase: Phase): (step: Step)
    requires phase != Stopped
  {
    match phase
    case Exporting => CollectExport(wid)
    case Uploading(_) => PutOk(wid)
    case Purging => Purge(wid)
    case Completing => Complete(wid)
  }

  function Remaining(phase: Phase): (n: nat) {
    match phase
    case Exporting => 4
    case Uploading(_) => 3
    case Purging => 2
    case Completing => 1
    case Stopped => 0
  }

  /** One phase further, and complete after the last one. */
  lemma {:induction false} NextAdvances(s: State, wid: nat)
    requires Inv(s) && Active(s, wid)
    ensures var (s', w) := (Apply(s, Next(wid, s.workers[wid].phase)), s.workers[wid]);
            if w.phase == Completing then Completed(s', w.request)
            else Active(s', wid) && s'.workers[wid].request == w.request
                 && Remaining(s'.workers[wid].phase) < Remaining(w.phase)
  {
    assert WorkerFits(s, wid);
  }

  /** An active worker left alone completes its request. */
  lemma {:induction false} WorkerFinishes(steps: seq<Step>, wid: nat) returns (later: seq<Step>)
    requires Active(Run(steps), wid)
    ensures Completed(Run(steps + later), Run(steps).workers[wid].request)
    decreases Remaining(Run(steps).workers[wid].phase)
  {
    var s := Run(steps);
    var step := Next(wid, s.workers[wid].phase);
    RunInv(steps);
    NextAdvances(s, wid);
    RunMore(steps, step);
    if s.workers[wid].phase == Completing {
      later := [step];
    } else {
      later := WorkerFinishes(steps + [step], wid);
      assert steps + [step] + later == steps + ([step] + later);
      later := [step] + later;
    }
  }

  /** Worker numbers never run out. */
  lemma {:induction false} FreshAbove(used: set<nat>) returns (n: nat)
    ensures forall k :: k in used ==> k < n
    decreases |used|
  {
    if used == {} {
      n := 0;
    } else {
      var k :| k in used;
      var m := FreshAbove(used - {k});
      n := if m <= k then k + 1 else m;
      assert forall j :: j in used ==> j == k || j in used - {k};
    }
  }

  lemma {:induction false} DeliveryFinishes(steps: seq<Step>, rid: nat) returns (later: seq<Step>)
    requires !Settled(Run(steps).requests, rid)
    ensures Completed(Run(steps + later), rid)
  {
    var wid := FreshAbove(Run(steps).workers.Keys);
    RunMore(steps, Deliver(wid, rid));
    later := WorkerFinishes(steps + [Deliver(wid, rid)], wid);
    assert steps + [Deliver(wid, rid)] + later == steps + ([Deliver(wid, rid)] + later);
    later := [Deliver(wid, rid)] + later;
  }

  // ---------------------------------------------------------------- exactly when

  /**
   * After any run, an open request can still be completed exactly when a worker is on it or a delivery of it would
   * start one: it is neither cancelled nor cut off from its user.
   */
  lemma {:induction false} CanCompleteIff(steps: seq<Step>, rid: nat)
    requires Open(Run(steps), rid)
    ensures CanComplete(steps, rid) <==> Worked(Run(steps), rid) || !Settled(Run(steps).requests, rid)
  {
    var s := Run(steps);
    if Worked(s, rid) {
      var wid :| Active(s, wid) && s.workers[wid].request == rid;
      var later := WorkerFinishes(steps, wid);
    } else if !Settled(s.requests, rid) {
      var later := DeliveryFinishes(steps, rid);
    } else {
      forall later ensures !Completed(Run(steps + later), rid) { StuckForGood(steps, later, rid); }
    }
  }

  // ---------------------------------------------------------------- runs that get stuck

  /** A user opens a request and a worker archives and purges, but dies before the completion. */
  function DyingRun(user: string, rid: nat, wid: nat): (steps: seq<Step>) {
    [AddUser(user), OpenRequest(rid, user), Deliver(wid, rid), CollectExport(wid), PutOk(wid), Purge(wid), Stop(wid)]
  }

  lemma {:induction false} PurgedAndStopped(s: State, wid: nat, rid: nat)
    requires s.requests.Keys == {rid} && s.workers.Keys == {wid} && s.workers[wid].phase == Purging
    requires s.requests[rid].user == s.workers[wid].user && !s.requests[rid].completed
    ensures var s' := Apply(Apply(s, Purge(wid)), Stop(wid));
            Stuck(s', rid) && s.workers[wid].user !in s'.users
  {
    var s1 := Apply(s, Purge(wid));
    assert s1 == Move(PurgeUser(s, wid), wid, Completing);
    var s' := Apply(s1, Stop(wid));
    assert s' == Move(s1, wid, Stopped);
    assert s'.workers.Keys == {wid} && forall v :: v in s'.workers ==> v in s'.workers.Keys;
  }

  /** That run leaves the user gone and the request stuck. */
  lemma {:induction false} DyingWorkerSticks(user: string, rid: nat, wid: nat)
    ensures Stuck(Run(DyingRun(user, rid, wid)), rid) && user !in Run(DyingRun(user, rid, wid)).users
  {
    var uploaded := UploadedRun(user, rid, wid);
    UploadedState(user, rid, wid);
    RunMore(uploaded, Purge(wid));
    RunMore(uploaded + [Purge(wid)], Stop(wid));
    assert DyingRun(user, rid, wid) == uploaded + [Purge(wid)] + [Stop(wid)];
    PurgedAndStopped(Run(uploaded), wid, rid);
  }
}
