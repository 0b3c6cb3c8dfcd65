/** How a decision crosses processes. */
module PermissionDelivery {
  import opened Options
  import opened PermissionInvariant
  import opened PermissionRuns
  import opened Permissions

  /** From `w` to `w'` request `q` alone was decided, as `d`. */
  ghost predicate DecidesOnly(w: World, w': World, q: nat, d: string)
    requires q < |w.requests|
  {
    && |w'.requests| == |w.requests| && w'.callers == w.callers && w'.states == w.states
    && forall r :: 0 <= r < |w.requests| ==>
         w'.requests[r] == if r == q then w.requests[r].(future := Decided(d)) else w.requests[r]
  }

  /** From `w` to `w'` every subscribed broker received `m`, behind what it had, and nothing else happened. */
  ghost predicate Broadcasts(w: World, w': World, m: Message) {
    && w'.requests == w.requests && w'.callers == w.callers && w'.states == w.states
    && w'.brokers.Keys == w.brokers.Keys
    && forall k :: k in w.brokers ==>
         && w'.brokers[k].inbox == (if w.brokers[k].subscribed then w.brokers[k].inbox + [m] else w.brokers[k].inbox)
         && w'.brokers[k].turns == w.brokers[k].turns && w'.brokers[k].hasRedis == w.brokers[k].hasRedis
         && w'.brokers[k].subscribed == w.brokers[k].subscribed
  }

  /**
   * A valid `resolve` on a broker without an undecided request for that turn and tool call reaches every
   * subscribed broker when it has Redis, and does nothing otherwise.
   */
  lemma {:induction false} UndeliveredIsBroadcast(redis: map<nat, bool>, steps: seq<Step>, b: nat, turn: string,
                                                  call: string, decision: string)
    requires decision == "allow" || decision == "deny"
    ensures var w := Run(redis, steps);
            Closed(w) &&
            (b in w.brokers && !(exists q: nat :: Awaits(w, q, b, turn, call)) ==>
               var w' := Apply(w, Resolve(b, turn, call, decision));
               if w.brokers[b].hasRedis then Broadcasts(w, w', Message(turn, call, decision))
               else w' == w.(resolved := w'.resolved))
  {
    RunInv(redis, steps);
    var w := Run(redis, steps);
    if b in w.brokers { TargetIsThePending(w, b, turn, call); }
  }

  /** One that finds the request decides it alone and sends nothing. */
  lemma {:induction false} DeliveredIsNotBroadcast(redis: map<nat, bool>, steps: seq<Step>, b: nat, turn: string,
                                                   call: string, decision: string, q: nat)
    requires decision == "allow" || decision == "deny"
    ensures var w := Run(redis, steps);
            Closed(w) &&
            (b in w.brokers && Awaits(w, q, b, turn, call) ==>
               var w' := Apply(w, Resolve(b, turn, call, decision));
               w'.brokers == w.brokers && DecidesOnly(w, w', q, decision))
  {
    RunInv(redis, steps);
    var w := Run(redis, steps);
    if b in w.brokers { TargetIsThePending(w, b, turn, call); }
  }

  /** Any other decision is refused and changes nothing. */
  lemma {:induction false} OtherDecisionsAreRefused(redis: map<nat, bool>, steps: seq<Step>, b: nat, turn: string,
                                                    call: string, decision: string)
    requires decision != "allow" && decision != "deny"
    ensures Closed(Run(redis, steps)) && Apply(Run(redis, steps), Resolve(b, turn, call, decision)) == Run(redis, steps)
  {
    RunInv(redis, steps);
  }

  /** From `w` to `w'` broker `b` consumed message `n` of its channel. */
  ghost predicate Consumes(w: World, w': World, b: nat, n: nat)
    requires b in w.brokers && n < |w.brokers[b].inbox|
  {
    && w'.brokers.Keys == w.brokers.Keys
    && (forall k :: k in w.brokers && k != b ==> w'.brokers[k] == w.brokers[k])
    && w'.brokers[b].turns == w.brokers[b].turns && w'.brokers[b].hasRedis == w.brokers[b].hasRedis
    && w'.brokers[b].subscribed == w.brokers[b].subscribed
    && |w'.brokers[b].inbox| == |w.brokers[b].inbox| - 1
    && forall i :: 0 <= i < |w'.brokers[b].inbox| ==>
         w'.brokers[b].inbox[i] == w.brokers[b].inbox[if i < n then i else i + 1]
  }

  lemma {:induction false} TakingConsumes(w: World, b: nat, n: nat)
    requires b in w.brokers && n < |w.brokers[b].inbox|
    ensures var w' := TakeMessage(w, b, n);
            Consumes(w, w', b, n) && w'.requests == w.requests && w'.callers == w.callers && w'.states == w.states
  {
  }

  lemma {:induction false} MessageStep(w: World, b: nat, n: nat)
    requires Inv(w) && b in w.brokers && n < |w.brokers[b].inbox|
    ensures var (m, w') := (w.brokers[b].inbox[n], Apply(w, Deliver(b, n)));
            && Consumes(w, w', b, n) && w'.callers == w.callers && w'.states == w.states
            && w'.requests == match Target(w, b, m.turn, m.call)
                              case Some(q) => w.requests[q := w.requests[q].(future := Decided(m.decision))]
                              case None => w.requests
  {
    TakingConsumes(w, b, n);
  }

  /** A message that reaches its broker decides the undecided request it names, whatever happened in between. */
  lemma {:induction false} MessageDecides(redis: map<nat, bool>, steps: seq<Step>, b: nat, n: nat, q: nat)
    ensures var w := Run(redis, steps);
            Closed(w) &&
            (b in w.brokers && n < |w.brokers[b].inbox| ==>
               var (m, w') := (w.brokers[b].inbox[n], Apply(w, Deliver(b, n)));
               && Consumes(w, w', b, n)
               && (Awaits(w, q, b, m.turn, m.call) ==> DecidesOnly(w, w', q, m.decision))
               && (!(exists r: nat :: Awaits(w, r, b, m.turn, m.call)) ==> w'.requests == w.requests))
  {
    RunInv(redis, steps);
    var w := Run(redis, steps);
    if b in w.brokers && n < |w.brokers[b].inbox| {
      MessageStep(w, b, n);
      TargetIsThePending(w, b, w.brokers[b].inbox[n].turn, w.brokers[b].inbox[n].call);
    }
  }

  /** A lost message decides nothing. */
  lemma {:induction false} DroppedDecidesNothing(redis: map<nat, bool>, steps: seq<Step>, b: nat, n: nat)
    ensures var w := Run(redis, steps);
            Closed(w) &&
            (b in w.brokers && n < |w.brokers[b].inbox| ==>
               var w' := Apply(w, Drop(b, n));
               Consumes(w, w', b, n) && w'.requests == w.requests && w'.callers == w.callers && w'.states == w.states)
  {
    RunInv(redis, steps);
    var w := Run(redis, steps);
    if b in w.brokers && n < |w.brokers[b].inbox| { TakingConsumes(w, b, n); }
  }

  /**
   * A decision given to any process reaches the request that waits in another: resolved on a broker with Redis,
   * it is decided once the subscribed broker that holds it reads the message just sent.
   */
  lemma {:induction false} DecisionCrossesProcesses(redis: map<nat, bool>, steps: seq<Step>, b: nat, k: nat, q: nat,
                                                    turn: string, call: string, decision: string)
    requires decision == "allow" || decision == "deny"
    ensures var w := Run(redis, steps);
            Closed(w) &&
            (b in w.brokers && w.brokers[b].hasRedis && !(exists r: nat :: Awaits(w, r, b, turn, call))
             && k in w.brokers && w.brokers[k].subscribed && Awaits(w, q, k, turn, call)
             ==> var sent := Run(redis, steps + [Resolve(b, turn, call, decision)]);
                 Closed(sent) && DecidesOnly(w, Apply(sent, Deliver(k, |w.brokers[k].inbox|)), q, decision))
  {
    var (w, more) := (Run(redis, steps), steps + [Resolve(b, turn, call, decision)]);
    RunInv(redis, steps);
    assert more[..|more| - 1] == steps;
    UndeliveredIsBroadcast(redis, steps, b, turn, call, decision);
    if k in w.brokers { MessageDecides(redis, more, k, |w.brokers[k].inbox|, q); }
  }

  /** Only `Subscribe` and `Stop` open and close a channel, and only a broker with Redis has one. */
  lemma {:induction false} SubscribedIff(w: World, step: Step, b: nat)
    requires Closed(w) && b in w.brokers
    ensures var w' := Apply(w, step);
            && b in w'.brokers && w'.brokers[b].hasRedis == w.brokers[b].hasRedis
            && (w'.brokers[b].subscribed <==>
                  if step == Subscribe(b) then w.brokers[b].subscribed || w.brokers[b].hasRedis
                  else step != Stop(b) && w.brokers[b].subscribed)
  {
  }

  /** Closing a channel loses what is in it; neither that nor opening one does anything else. */
  lemma {:induction false} ChannelsOnly(w: World, step: Step, b: nat)
    requires Closed(w) && b in w.brokers && (step.Subscribe? || step.Stop?)
    ensures var w' := Apply(w, step);
            && w'.brokers.Keys == w.brokers.Keys && w'.brokers[b].turns == w.brokers[b].turns
            && w'.brokers[b].inbox == (if step == Stop(b) then [] else w.brokers[b].inbox)
            && w'.states == w.states && w'.requests == w.requests && w'.callers == w.callers
  {
  }
}
