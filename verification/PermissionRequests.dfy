/** What a request, its end and its turn's end do. */
module PermissionRequests {
  import opened Options
  import opened PermissionInvariant
  import opened PermissionRuns
  import opened Permissions
  import opened Sequences

  // ---------------------------------------------------------------- filing

  /** Request `r` is registered for this turn and tool call: the caller that filed it has not returned. */
  predicate Registered(w: World, r: nat, b: nat, turn: string, call: string)
    requires Closed(w) && b in w.brokers
  {
    && r < |w.requests| && turn in w.brokers[b].turns && w.requests[r].home == w.brokers[b].turns[turn]
    && w.requests[r].call == call && w.callers[w.requests[r].owner].answer == None
  }

  /** `c` awaits request `r`, and every other caller is as before. */
  predicate NewCaller(w: World, w': World, r: nat) {
    w'.callers == w.callers + [Caller(r, None)]
  }

  /** Request number |w.requests| was filed by the new caller: undecided, registered, and last in its turn's queue. */
  ghost predicate Files(w: World, w': World, b: nat, turn: string, call: string)
    requires Closed(w') && b in w'.brokers
  {
    var r := |w.requests|;
    && NewCaller(w, w', r) && |w'.requests| == r + 1 && w'.requests[..r] == w.requests
    && w'.requests[r].owner == |w.callers| && Awaits(w', r, b, turn, call) && Registered(w', r, b, turn, call)
    && var queue := w'.states[w'.brokers[b].turns[turn]].queue;
       queue != [] && queue[|queue| - 1] == r
  }

  lemma RegisteredIff(w: World, b: nat, turn: string, call: string, r: nat)
    requires Inv(w) && b in w.brokers
    ensures Registered(w, r, b, turn, call) <==>
              turn in w.brokers[b].turns &&
              var st := w.states[w.brokers[b].turns[turn]]; call in st.requests && st.requests[call] == r
  {
    if turn in w.brokers[b].turns {
      var st := w.states[w.brokers[b].turns[turn]];
      assert StateFits(w, w.brokers[b].turns[turn]);
      if r < |w.requests| { assert RequestFits(w, r); }
      if call in st.requests { assert RequestFits(w, st.requests[call]); }
    }
  }

  /** A caller for a registered tool call joins it: it awaits the same request, and nothing is filed or queued. */
  lemma {:induction false} RegisteredIsJoined(redis: map<nat, bool>, steps: seq<Step>, b: nat, turn: string,
                                              call: string, r: nat)
    ensures var w := Run(redis, steps);
            Closed(w) &&
            (b in w.brokers && Registered(w, r, b, turn, call) ==>
               var w' := Apply(w, RequestDecision(b, turn, call));
               NewCaller(w, w', r) && w'.requests == w.requests && w'.states == w.states && w'.brokers == w.brokers)
  {
    RunInv(redis, steps);
    if b in Run(redis, steps).brokers { RegisteredIff(Run(redis, steps), b, turn, call, r); }
  }

  lemma {:induction false} FilingAwaits(w: World, b: nat, turn: string, call: string)
    requires Inv(w) && b in w.brokers && turn in w.brokers[b].turns
    requires call !in w.states[w.brokers[b].turns[turn]].requests
    ensures var w' := FileIn(w, w.brokers[b].turns[turn], call);
            Closed(w') && Files(w, w', b, turn, call)
  {
    FileCloses(w, w.brokers[b].turns[turn], call);
    assert BrokerFits(w, b);
  }

  /** The first caller for a tool call files one new request, and awaits it. */
  lemma {:induction false} OtherwiseOneIsFiled(redis: map<nat, bool>, steps: seq<Step>, b: nat, turn: string,
                                               call: string)
    ensures var w := Run(redis, steps);
            Closed(w) &&
            (b in w.brokers && !(exists r: nat :: Registered(w, r, b, turn, call)) ==>
               var w' := Apply(w, RequestDecision(b, turn, call));
               Closed(w') && b in w'.brokers && Files(w, w', b, turn, call))
  {
    RunInv(redis, steps);
    var w := Run(redis, steps);
    if b in w.brokers && !(exists r: nat :: Registered(w, r, b, turn, call)) {
      var u := SetDefault(w, b, turn);
      SetDefaultKeepsInv(w, b, turn);
      if turn in w.brokers[b].turns && call in w.states[w.brokers[b].turns[turn]].requests {
        RegisteredIff(w, b, turn, call, w.states[w.brokers[b].turns[turn]].requests[call]);
      }
      FilingAwaits(u, b, turn, call);
      assert u.requests == w.requests && u.callers == w.callers;
    }
  }

  // ---------------------------------------------------------------- the queue of a turn's stream

  /** Each queue holds requests of its own turn, and their numbers go up along it. */
  ghost predicate QueuesAscend(w: World) {
    forall s :: 0 <= s < |w.states| ==> QueueAscends(w, s)
  }

  predicate QueueAscends(w: World, s: nat)
    requires s < |w.states|
  {
    var q := w.states[s].queue;
    && (forall i :: 0 <= i < |q| ==> q[i] < |w.requests| && w.requests[q[i]].home == s)
    && (forall i, j :: 0 <= i < j < |q| ==> q[i] < q[j])
  }

  lemma {:induction false} RequestQueueStep(w: World, b: nat, turn: string, call: string, s: nat)
    requires Closed(w) && s < |w.states| && b in w.brokers
    ensures var (q, w') := (w.states[s].queue, Apply(w, RequestDecision(b, turn, call)));
            && |w.states| <= |w'.states| && |w.requests| <= |w'.requests|
            && (|| w'.states[s].queue == q
                || (|w'.requests| == |w.requests| + 1 && w'.requests[|w.requests|].home == s
                    && w'.states[s].queue == q + [|w.requests|]))
  {
  }

  /** What one step does to the queue of a state: nothing, hand out its first request, or append a new one. */
  lemma {:induction false} QueueStep(w: World, step: Step, s: nat)
    requires Closed(w) && s < |w.states|
    ensures var (q, w') := (w.states[s].queue, Apply(w, step));
            && |w.states| <= |w'.states| && |w.requests| <= |w'.requests|
            && var q' := w'.states[s].queue;
               || q' == q
               || (step.PendingEvent? && q != [] && q' == q[1..])
               || (step.RequestDecision? && |w'.requests| == |w.requests| + 1 && w'.requests[|w.requests|].home == s
                   && q' == q + [|w.requests|])
  {
    if step.RequestDecision? && step.b in w.brokers { RequestQueueStep(w, step.b, step.turn, step.call, s); }
  }

  lemma {:induction false} HomesStay(w: World, step: Step, r: nat)
    requires Closed(w) && r < |w.requests|
    ensures r < |Apply(w, step).requests| && Apply(w, step).requests[r].home == w.requests[r].home
  {
  }

  lemma {:induction false} NewQueues(w: World, step: Step, s: nat)
    requires Closed(w) && |w.states| <= s < |Apply(w, step).states|
    ensures var (q, w') := (Apply(w, step).states[s].queue, Apply(w, step));
            q == [] || (|w'.requests| == |w.requests| + 1 && q == [|w.requests|] && w'.requests[|w.requests|].home == s)
  {
  }

  lemma {:induction false} StepAscends(w: World, step: Step)
    requires Closed(w) && QueuesAscend(w)
    ensures QueuesAscend(Apply(w, step))
  {
    var w' := Apply(w, step);
    forall s | 0 <= s < |w'.states| ensures QueueAscends(w', s) {
      if s < |w.states| {
        assert QueueAscends(w, s);
        QueueStep(w, step, s);
        forall r | r in w.states[s].queue ensures r < |w'.requests| && w'.requests[r].home == s {
          HomesStay(w, step, r);
        }
      } else {
        NewQueues(w, step, s);
      }
    }
  }

  lemma {:induction false} RunAscends(redis: map<nat, bool>, steps: seq<Step>)
    ensures QueuesAscend(Run(redis, steps))
  {
    if steps != [] {
      RunAscends(redis, steps[..|steps| - 1]);
      RunInv(redis, steps[..|steps| - 1]);
      StepAscends(Run(redis, steps[..|steps| - 1]), steps[|steps| - 1]);
    }
  }

  /** Request `r` waits in no queue any more. */
  ghost predicate HandedOut(w: World, r: nat) {
    r < |w.requests| && forall s :: 0 <= s < |w.states| ==> r !in w.states[s].queue
  }

  lemma {:induction false} StaysHandedOut(redis: map<nat, bool>, steps: seq<Step>, later: seq<Step>, r: nat)
    requires HandedOut(Run(redis, steps), r)
    ensures HandedOut(Run(redis, steps + later), r)
  {
    if later == [] {
      AppendNil(steps);
    } else {
      var n := |later| - 1;
      StaysHandedOut(redis, steps, later[..n], r);
      AppendLast(later);
      Assoc(steps, later[..n], [later[n]]);
      var (before, w) := (steps + later[..n], Run(redis, steps + later[..n]));
      InitLast(before, later[n]);
      RunInv(redis, before);
      HandedOutStep(w, later[n], r);
    }
  }

  lemma {:induction false} HandedOutStep(w: World, step: Step, r: nat)
    requires Closed(w) && HandedOut(w, r)
    ensures HandedOut(Apply(w, step), r)
  {
    var w' := Apply(w, step);
    if |w.states| <= |w'.states| {
      forall s | 0 <= s < |w'.states| ensures r !in w'.states[s].queue {
        if s < |w.states| { QueueStep(w, step, s); } else { NewQueues(w, step, s); }
      }
    }
    SizesGrow(w, step);
  }

  lemma {:induction false} SizesGrow(w: World, step: Step)
    requires Closed(w)
    ensures |w.requests| <= |Apply(w, step).requests|
  {
  }

  /** The turn's state hands out its first request. */
  lemma {:induction false} PendingStep(w: World, b: nat, turn: string)
    requires Closed(w) && b in w.brokers && turn in w.brokers[b].turns
    requires w.states[w.brokers[b].turns[turn]].queue != []
    ensures var (s, w') := (w.brokers[b].turns[turn], Apply(w, PendingEvent(b, turn)));
            && w'.requests == w.requests && w'.callers == w.callers && w'.brokers == w.brokers
            && |w'.states| == |w.states| && w'.states[s].queue == w.states[s].queue[1..]
            && (forall k :: 0 <= k < |w.states| && k != s ==> w'.states[k] == w.states[k])
            && w'.states[s].requests == w.states[s].requests
  {
  }

  lemma {:induction false} FirstIsHandedOut(w: World, b: nat, turn: string)
    requires Closed(w) && QueuesAscend(w) && b in w.brokers && turn in w.brokers[b].turns
    requires w.states[w.brokers[b].turns[turn]].queue != []
    ensures var (s, next) := (w.brokers[b].turns[turn], OldestPending(w, b, turn));
            && next.Some? && next.value in w.states[s].queue
            && (forall r :: r in w.states[s].queue && r != next.value ==> next.value < r)
            && HandedOut(Apply(w, PendingEvent(b, turn)), next.value)
  {
    var s := w.brokers[b].turns[turn];
    var q := w.states[s].queue;
    PendingStep(w, b, turn);
    assert QueueAscends(w, s);
    forall k | 0 <= k < |w.states| && k != s ensures q[0] !in w.states[k].queue { assert QueueAscends(w, k); }
  }

  /** A turn's stream gets each request once, in the order in which they were filed. */
  lemma {:induction false} HandedOutInOrder(redis: map<nat, bool>, steps: seq<Step>, b: nat, turn: string,
                                            later: seq<Step>)
    ensures var w := Run(redis, steps);
            Closed(w) &&
            (b in w.brokers && turn in w.brokers[b].turns && w.states[w.brokers[b].turns[turn]].queue != [] ==>
               var (s, next) := (w.brokers[b].turns[turn], OldestPending(w, b, turn));
               && next.Some? && next.value in w.states[s].queue
               && (forall r :: r in w.states[s].queue && r != next.value ==> next.value < r)
               && HandedOut(Run(redis, steps + [PendingEvent(b, turn)] + later), next.value))
  {
    RunInv(redis, steps);
    RunAscends(redis, steps);
    var w := Run(redis, steps);
    if b in w.brokers && turn in w.brokers[b].turns && w.states[w.brokers[b].turns[turn]].queue != [] {
      FirstIsHandedOut(w, b, turn);
      InitLast(steps, PendingEvent(b, turn));
      StaysHandedOut(redis, steps + [PendingEvent(b, turn)], later, OldestPending(w, b, turn).value);
    }
  }

  /** Asking for a permission, or for the next one asked, registers the turn; a known turn keeps its state. */
  lemma {:induction false} TurnIsRegistered(w: World, b: nat, turn: string, call: string)
    requires Closed(w) && b in w.brokers
    ensures var (asked, taken) := (Apply(w, RequestDecision(b, turn, call)), Apply(w, PendingEvent(b, turn)));
            && turn in asked.brokers[b].turns && turn in taken.brokers[b].turns
            && asked.brokers[b].turns[turn] == taken.brokers[b].turns[turn] ==
               if turn in w.brokers[b].turns then w.brokers[b].turns[turn] else |w.states|
  {
  }

}
