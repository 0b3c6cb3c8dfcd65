/** What the permission brokers promise over whole runs. */
module PermissionRuns {
  import opened Options
  import opened PermissionInvariant
  import opened Permissions
  import opened Sequences

  /** The world after `steps`, from freshly started brokers; it is always closed, so no step is skipped. */
  function Run(redis: map<nat, bool>, steps: seq<Step>): (r: World) {
    if steps == [] then Boot(redis)
    else
      var w := Run(redis, steps[..|steps| - 1]);
      if Closed(w) then Apply(w, steps[|steps| - 1]) else w
  }

  lemma {:induction false} RunInv(redis: map<nat, bool>, steps: seq<Step>)
    ensures Inv(Run(redis, steps))
  {
    if steps == [] {
      BootInv(redis);
    } else {
      RunInv(redis, steps[..|steps| - 1]);
      ApplyKeepsInv(Run(redis, steps[..|steps| - 1]), steps[|steps| - 1]);
    }
  }

  // ---------------------------------------------------------------- the promises

  /** Every decided future holds "allow" or "deny", and some `resolve` gave it for that turn and tool call. */
  lemma {:induction false} DecisionsAreSanctioned(redis: map<nat, bool>, steps: seq<Step>, r: nat)
    ensures var w := Run(redis, steps);
            r < |w.requests| && w.requests[r].future.Decided? ==>
              var d := w.requests[r].future.decision;
              && (d == "allow" || d == "deny")
              && Message(w.requests[r].turn, w.requests[r].call, d) in w.resolved
  {
    RunInv(redis, steps);
    var w := Run(redis, steps);
    if r < |w.requests| { assert RequestFits(w, r); }
  }

  /** `w'` keeps every request of `w`, and every one that was settled is settled the same way. */
  ghost predicate Extends(w: World, w': World) {
    && |w.requests| <= |w'.requests| && |w.callers| <= |w'.callers|
    && (forall r :: 0 <= r < |w.requests| ==>
          && w'.requests[r].turn == w.requests[r].turn && w'.requests[r].call == w.requests[r].call
          && (w.requests[r].future != Pending ==> w'.requests[r].future == w.requests[r].future))
    && (forall c :: 0 <= c < |w.callers| ==>
          && w'.callers[c].req == w.callers[c].req
          && (w.callers[c].answer.Some? ==> w'.callers[c].answer == w.callers[c].answer))
  }

  lemma SettingExtends(w: World, r: nat, d: Decision)
    requires r < |w.requests| && w.requests[r].future == Pending
    ensures Extends(w, SetFuture(w, r, d))
  {
  }

  lemma RequestExtends(w: World, b: nat, turn: string, call: string)
    requires Closed(w) && b in w.brokers
    ensures Extends(w, DoRequest(w, b, turn, call))
  {
    var w' := SetDefault(w, b, turn);
    assert w'.requests == w.requests && w'.callers == w.callers;
  }

  lemma AnswerExtends(w: World, step: Step)
    requires Closed(w) && (step.Return? || step.CancelCaller?)
    ensures Extends(w, Apply(w, step))
  {
  }

  lemma TrafficExtends(w: World, step: Step)
    requires Closed(w) && !step.RequestDecision? && !step.Resolve? && !step.Return? && !step.CancelCaller?
    ensures Extends(w, Apply(w, step))
  {
  }

  lemma ResolveExtends(w: World, b: nat, turn: string, call: string, decision: string)
    requires Closed(w) && b in w.brokers
    ensures Extends(w, DoResolve(w, b, turn, call, decision).1)
  {
    var t := Target(w, b, turn, call);
    if t.Some? { SettingExtends(w, t.value, Decided(decision)); }
  }

  lemma ApplyExtends(w: World, step: Step)
    requires Closed(w)
    ensures Extends(w, Apply(w, step))
  {
    match step
    case RequestDecision(b, turn, call) => if b in w.brokers { RequestExtends(w, b, turn, call); }
    case Resolve(b, turn, call, d) => if b in w.brokers { ResolveExtends(w, b, turn, call, d); }
    case Return(_) => AnswerExtends(w, step);
    case CancelCaller(_) => AnswerExtends(w, step);
    case _ => TrafficExtends(w, step);
  }

  lemma ExtendsTransitive(u: World, v: World, w: World)
    requires Extends(u, v) && Extends(v, w)
    ensures Extends(u, w)
  {
  }

  lemma {:induction false} LastStepExtends(redis: map<nat, bool>, u: World, steps: seq<Step>, step: Step)
    requires Extends(u, Run(redis, steps))
    ensures Extends(u, Run(redis, steps + [step]))
  {
    var w := Run(redis, steps);
    InitLast(steps, step);
    RunInv(redis, steps);
    ApplyExtends(w, step);
    ExtendsTransitive(u, w, Apply(w, step));
  }

  /** Whatever happens later, a settled future and a caller's answer never change. */
  lemma {:induction false} NeverChanges(redis: map<nat, bool>, steps: seq<Step>, later: seq<Step>)
    ensures Extends(Run(redis, steps), Run(redis, steps + later))
  {
    if later == [] {
      AppendNil(steps);
    } else {
      var n := |later| - 1;
      NeverChanges(redis, steps, later[..n]);
      AppendLast(later);
      Assoc(steps, later[..n], [later[n]]);
      LastStepExtends(redis, Run(redis, steps), steps + later[..n], later[n]);
    }
  }

  /** Every caller that got an answer got its request's decision, so callers sharing a request agree. */
  lemma {:induction false} SharersAgree(redis: map<nat, bool>, steps: seq<Step>, c: nat, d: nat)
    ensures var w := Run(redis, steps);
            && Closed(w)
            && (c < |w.callers| && w.callers[c].answer.Some? && w.callers[c].answer.value.Got? ==>
                  w.requests[w.callers[c].req].future == Decided(w.callers[c].answer.value.decision))
            && (c < |w.callers| && d < |w.callers| && w.callers[c].req == w.callers[d].req
                && w.callers[c].answer.Some? && w.callers[d].answer.Some?
                && w.callers[c].answer.value.Got? && w.callers[d].answer.value.Got?
                ==> w.callers[c].answer == w.callers[d].answer)
  {
    RunInv(redis, steps);
    var w := Run(redis, steps);
    if c < |w.callers| { assert CallerFits(w, c); }
    if d < |w.callers| { assert CallerFits(w, d); }
  }

  /** Request `r` is undecided and was filed for `turn` and `call` in broker `b`. */
  predicate Awaits(w: World, r: nat, b: nat, turn: string, call: string) {
    r < |w.requests| && w.requests[r].future == Pending && w.requests[r].turn == turn
    && w.requests[r].call == call && w.requests[r].home < |w.states| && w.states[w.requests[r].home].broker == b
  }

  /** The broker's own lookup finds the undecided request for a turn and tool call, and there is only one. */
  lemma {:induction false} TargetIsThePending(w: World, b: nat, turn: string, call: string)
    requires Inv(w) && b in w.brokers
    ensures Target(w, b, turn, call).Some? ==> Awaits(w, Target(w, b, turn, call).value, b, turn, call)
    ensures forall q: nat :: Awaits(w, q, b, turn, call) ==> Target(w, b, turn, call) == Some(q)
  {
    if Target(w, b, turn, call).Some? {
      assert BrokerFits(w, b) && StateFits(w, w.brokers[b].turns[turn]);
      assert RequestFits(w, Target(w, b, turn, call).value);
    }
    forall q: nat | Awaits(w, q, b, turn, call) ensures Target(w, b, turn, call) == Some(q) {
      assert RequestFits(w, q);
    }
  }

  /**
   * `resolve` with a valid decision reports local delivery exactly when this broker holds an undecided
   * request for that turn and tool call; there is then only one, and it alone is decided.
   */
  lemma {:induction false} ResolveDeliversToThePending(redis: map<nat, bool>, steps: seq<Step>, b: nat, turn: string,
                                                       call: string, decision: string)
    requires Valid(decision) && b in Run(redis, steps).brokers
    ensures var w := Run(redis, steps);
            Closed(w) &&
            var (delivered, w') := DoResolve(w, b, turn, call, decision);
            && (delivered <==> exists q: nat :: Awaits(w, q, b, turn, call))
            && |w'.requests| == |w.requests|
            && forall r :: 0 <= r < |w.requests| ==>
                 w'.requests[r] == if Awaits(w, r, b, turn, call) then w.requests[r].(future := Decided(decision))
                                   else w.requests[r]
  {
    RunInv(redis, steps);
    TargetIsThePending(Run(redis, steps), b, turn, call);
  }

  /** `cancel_turn` leaves no caller of that turn waiting on an undecided request in this broker. */
  lemma {:induction false} CancelUnblocksTheTurn(redis: map<nat, bool>, steps: seq<Step>, b: nat, turn: string,
                                                 r: nat, call: string)
    ensures var w := Run(redis, steps + [CancelTurn(b, turn)]);
            b in w.brokers ==> !Awaits(w, r, b, turn, call)
  {
    var all := steps + [CancelTurn(b, turn)];
    assert all[..|all| - 1] == steps;
    RunInv(redis, steps);
    RunInv(redis, all);
    var w' := Run(redis, all);
    if b in w'.brokers && r < |w'.requests| { assert RequestFits(w', r); }
  }

  /** A tool call stays registered exactly while the caller that filed it has not returned. */
  lemma {:induction false} RegisteredWhileAwaited(redis: map<nat, bool>, steps: seq<Step>, s: nat, call: string)
    ensures var w := Run(redis, steps);
            && Closed(w)
            && (s < |w.states| ==>
                  (call in w.states[s].requests <==>
                     exists r :: 0 <= r < |w.requests| && w.requests[r].home == s && w.requests[r].call == call
                                 && w.callers[w.requests[r].owner].answer == None))
  {
    RunInv(redis, steps);
    var w := Run(redis, steps);
    if s < |w.states| {
      if call in w.states[s].requests {
        assert StateFits(w, s) && RequestFits(w, w.states[s].requests[call]);
      }
      forall r | 0 <= r < |w.requests| && w.requests[r].home == s && w.requests[r].call == call
                 && w.callers[w.requests[r].owner].answer == None
        ensures call in w.states[s].requests
      {
        assert RequestFits(w, r);
      }
    }
  }
}
