/**
 * The permission broker: any number of processes, callers, cancellations and broadcast orders.
 * Futures, turn states and callers are numbered; a number is the object's identity.
 */
module Permissions {
  import opened Options

  datatype Decision = Pending | Decided(decision: string) | Cancelled

  /** One `PermissionRequest`: `home` is the turn state it was filed in, `owner` the caller that filed it. */
  datatype Request = Request(turn: string, call: string, home: nat, owner: nat, future: Decision)

  /** One `_TurnState`; `requests` and `queue` hold request numbers. */
  datatype TurnState = TurnState(broker: nat, turn: string, requests: map<string, nat>, queue: seq<nat>)

  datatype Message = Message(turn: string, call: string, decision: string)

  datatype Broker = Broker(turns: map<string, nat>, hasRedis: bool, subscribed: bool, inbox: seq<Message>)

  datatype Answer = Got(decision: string) | Raised

  /** One `request_decision` call: it awaits request `req`; `answer` is None while it waits. */
  datatype Caller = Caller(req: nat, answer: Option<Answer>)

  datatype World = World(
    brokers: map<nat, Broker>, states: seq<TurnState>, requests: seq<Request>, callers: seq<Caller>,
    resolved: seq<Message>) // every decision `resolve` accepted

  datatype Step =
    | RequestDecision(b: nat, turn: string, call: string)
    | PendingEvent(b: nat, turn: string)
    | Resolve(b: nat, turn: string, call: string, decision: string)
    | Deliver(b: nat, k: nat)
    | Drop(b: nat, k: nat)
    | CancelTurn(b: nat, turn: string)
    | Subscribe(b: nat)
    | Stop(b: nat)
    | Return(c: nat)
    | CancelCaller(c: nat)

  predicate Valid(decision: string) {
    decision == "allow" || decision == "deny"
  }

  function Boot(redis: map<nat, bool>): (r: World) {
    World(map b | b in redis :: Broker(map[], redis[b], false, []), [], [], [], [])
  }

  /** Every number in the world names an object that exists. */
  predicate Closed(w: World) {
    && (forall b :: b in w.brokers ==> forall t :: t in w.brokers[b].turns ==> w.brokers[b].turns[t] < |w.states|)
    && (forall s :: 0 <= s < |w.states| ==>
          forall c :: c in w.states[s].requests ==> w.states[s].requests[c] < |w.requests|)
    && (forall c :: 0 <= c < |w.callers| ==> w.callers[c].req < |w.requests|)
    && (forall r :: 0 <= r < |w.requests| ==>
          w.requests[r].home < |w.states| && w.requests[r].owner < |w.callers|)
  }

  // ---------------------------------------------------------------- the operations

  /** `self._turns.setdefault(turn_id, _TurnState())`. */
  function SetDefault(w: World, b: nat, turn: string): (r: World)
    requires b in w.brokers
  {
    var br := w.brokers[b];
    if turn in br.turns then w
    else w.(states := w.states + [TurnState(b, turn, map[], [])],
            brokers := w.brokers[b := br.(turns := br.turns[turn := |w.states|])])
  }

  /** A new request: registered, queued for the stream, awaited by the caller that files it. */
  function FileIn(w: World, home: nat, call: string): (result: World)
    requires home < |w.states|
  {
    var st, r := w.states[home], |w.requests|;
    w.(requests := w.requests + [Request(st.turn, call, home, |w.callers|, Pending)],
       states := w.states[home := st.(requests := st.requests[call := r], queue := st.queue + [r])],
       callers := w.callers + [Caller(r, None)])
  }

  function DoRequest(w0: World, b: nat, turn: string, call: string): (r: World)
    requires b in w0.brokers && Closed(w0)
  {
    var w := SetDefault(w0, b, turn);
    var home := w.brokers[b].turns[turn];
    var st := w.states[home];
    if call in st.requests then w.(callers := w.callers + [Caller(st.requests[call], None)])
    else FileIn(w, home, call)
  }

  function DoPendingEvent(w0: World, b: nat, turn: string): (r: World)
    requires b in w0.brokers && Closed(w0)
  {
    var w := SetDefault(w0, b, turn);
    var home := w.brokers[b].turns[turn];
    var st := w.states[home];
    if st.queue == [] then w else w.(states := w.states[home := st.(queue := st.queue[1..])])
  }

  /** The request that has waited longest for the turn's stream. */
  function OldestPending(w: World, b: nat, turn: string): (next: Option<nat>)
    requires b in w.brokers && Closed(w)
  {
    if turn !in w.brokers[b].turns then None
    else
      var queue := w.states[w.brokers[b].turns[turn]].queue;
      if queue == [] then None else Some(queue[0])
  }

  /** The request `_resolve_local` would decide in broker `b`. */
  function Target(w: World, b: nat, turn: string, call: string): (r: Option<nat>)
    requires b in w.brokers && Closed(w)
  {
    if turn !in w.brokers[b].turns then None
    else
      var st := w.states[w.brokers[b].turns[turn]];
      if call !in st.requests || w.requests[st.requests[call]].future != Pending then None
      else Some(st.requests[call])
  }

  function SetFuture(w: World, r: nat, d: Decision): (result: World)
    requires r < |w.requests|
  {
    w.(requests := w.requests[r := w.requests[r].(future := d)])
  }

  function ResolveLocal(w: World, b: nat, turn: string, call: string, decision: string): (r: (bool, World))
    requires b in w.brokers && Closed(w)
  {
    var t := Target(w, b, turn, call);
    if t == None then (false, w) else (true, SetFuture(w, t.value, Decided(decision)))
  }

  function Publish(w: World, m: Message): (r: World) {
    w.(brokers := map b | b in w.brokers ::
         if w.brokers[b].subscribed then w.brokers[b].(inbox := w.brokers[b].inbox + [m]) else w.brokers[b])
  }

  /** `resolve`; the flag is its return value, an invalid decision raises and changes nothing. */
  function DoResolve(w: World, b: nat, turn: string, call: string, decision: string): (r: (bool, World))
    requires b in w.brokers && Closed(w)
  {
    if !Valid(decision) then (false, w)
    else
      var m := Message(turn, call, decision);
      var (delivered, w') := ResolveLocal(w, b, turn, call, decision);
      var w'' := w'.(resolved := w'.resolved + [m]);
      (delivered, if !delivered && w.brokers[b].hasRedis then Publish(w'', m) else w'')
  }

  function TakeMessage(w: World, b: nat, k: nat): (r: World)
    requires b in w.brokers && k < |w.brokers[b].inbox|
  {
    var br := w.brokers[b];
    w.(brokers := w.brokers[b := br.(inbox := br.inbox[..k] + br.inbox[k + 1..])])
  }

  /** Fails every undecided request among those filed. */
  function FailPending(requests: seq<Request>, filed: set<nat>): (r: seq<Request>)
    ensures |r| == |requests|
    ensures forall i :: 0 <= i < |r| ==>
              r[i] == if i in filed && requests[i].future == Pending then requests[i].(future := Cancelled)
                      else requests[i]
  {
    seq(|requests|, i requires 0 <= i < |requests| =>
      if i in filed && requests[i].future == Pending then requests[i].(future := Cancelled) else requests[i])
  }

  /** `cancel_turn`: the state is forgotten and its undecided requests are failed. */
  function DoCancelTurn(w: World, b: nat, turn: string): (r: World)
    requires b in w.brokers && Closed(w)
  {
    var br := w.brokers[b];
    if turn !in br.turns then w
    else
      var st := w.states[br.turns[turn]];
      w.(brokers := w.brokers[b := br.(turns := br.turns - {turn})],
         requests := FailPending(w.requests, st.requests.Values))
  }

  /** A caller returns `answer`; the filing caller's `finally` pops the entry of its own turn state. */
  function Finish(w: World, c: nat, answer: Answer): (r: World)
    requires c < |w.callers| && w.callers[c].req < |w.requests| && Closed(w)
    requires w.requests[w.callers[c].req].home < |w.states|
  {
    var q := w.requests[w.callers[c].req];
    var st := w.states[q.home];
    var w' := w.(callers := w.callers[c := w.callers[c].(answer := Some(answer))]);
    if q.owner == c then w'.(states := w'.states[q.home := st.(requests := st.requests - {q.call})]) else w'
  }

  function DoReturn(w: World, c: nat): (r: World)
    requires Closed(w)
  {
    if c >= |w.callers| || w.callers[c].answer.Some? then w
    else
      match w.requests[w.callers[c].req].future
      case Pending => w
      case Decided(d) => Finish(w, c, Got(d))
      case Cancelled => Finish(w, c, Raised)
  }

  /** A caller's task is cancelled: that cancels the future it awaits, or interrupts it if already decided. */
  function DoCancelCaller(w: World, c: nat): (r: World)
    requires Closed(w)
  {
    if c >= |w.callers| || w.callers[c].answer.Some? then w
    else if w.requests[w.callers[c].req].future == Pending then SetFuture(w, w.callers[c].req, Cancelled)
    else Finish(w, c, Raised)
  }

  function Apply(w: World, step: Step): (r: World)
    requires Closed(w)
  {
    match step
    case RequestDecision(b, turn, call) => if b in w.brokers then DoRequest(w, b, turn, call) else w
    case PendingEvent(b, turn) => if b in w.brokers then DoPendingEvent(w, b, turn) else w
    case Resolve(b, turn, call, d) => if b in w.brokers then DoResolve(w, b, turn, call, d).1 else w
    case Deliver(b, k) =>
      if b in w.brokers && k < |w.brokers[b].inbox| then
        var m := w.brokers[b].inbox[k];
        // the subscriber does not look at the decision
        ResolveLocal(TakeMessage(w, b, k), b, m.turn, m.call, m.decision).1
      else w
    case Drop(b, k) => if b in w.brokers && k < |w.brokers[b].inbox| then TakeMessage(w, b, k) else w
    case CancelTurn(b, turn) => if b in w.brokers then DoCancelTurn(w, b, turn) else w
    case Subscribe(b) =>
      if b in w.brokers && w.brokers[b].hasRedis then
        w.(brokers := w.brokers[b := w.brokers[b].(subscribed := true)])
      else w
    case Stop(b) =>
      if b in w.brokers then w.(brokers := w.brokers[b := w.brokers[b].(subscribed := false, inbox := [])]) else w
    case Return(c) => DoReturn(w, c)
    case CancelCaller(c) => DoCancelCaller(w, c)
  }

  // ---------------------------------------------------------------- the methods

  /** The mutable state of all the broker processes, as their methods change it. */
  class Processes {
    var brokers: map<nat, Broker>
    var states: seq<TurnState>
    var requests: seq<Request>
    var callers: seq<Caller>
    ghost var resolved: seq<Message>

    constructor (redis: map<nat, bool>)
      ensures Snapshot() == Boot(redis)
    {
      brokers := map b | b in redis :: Broker(map[], redis[b], false, []);
      states, requests, callers, resolved := [], [], [], [];
    }

    ghost function Snapshot(): (result: World)
      reads this
    {
      World(brokers, states, requests, callers, resolved)
    }

    /** The number of the turn's state, made if it is missing. */
    method StateOf(b: nat, turn: string) returns (home: nat)
      requires b in brokers && Closed(Snapshot())
      modifies this
      ensures Snapshot() == SetDefault(old(Snapshot()), b, turn)
      ensures turn in brokers[b].turns && home == brokers[b].turns[turn] && home < |states|
    {
      if turn !in brokers[b].turns {
        brokers := brokers[b := brokers[b].(turns := brokers[b].turns[turn := |states|])];
        states := states + [TurnState(b, turn, map[], [])];
      }
      home := brokers[b].turns[turn];
    }

    /** `request_decision` up to its await: the caller's number. */
    method RequestDecision(b: nat, turn: string, call: string) returns (caller: nat)
      requires b in brokers && Closed(Snapshot())
      modifies this
      ensures Snapshot() == DoRequest(old(Snapshot()), b, turn, call) && caller == |old(callers)|
    {
      caller := |callers|;
      var home := StateOf(b, turn);
      if call in states[home].requests {
        callers := callers + [Caller(states[home].requests[call], None)];
        return;
      }
      var r := |requests|;
      requests := requests + [Request(states[home].turn, call, home, caller, Pending)];
      states := states[home := states[home].(requests := states[home].requests[call := r])];
      states := states[home := states[home].(queue := states[home].queue + [r])];
      callers := callers + [Caller(r, None)];
    }

    /** `pending_events`, which waits while the queue is empty. */
    method PendingEvents(b: nat, turn: string) returns (next: Option<nat>)
      requires b in brokers && Closed(Snapshot())
      modifies this
      ensures Snapshot() == DoPendingEvent(old(Snapshot()), b, turn)
      ensures next == OldestPending(old(Snapshot()), b, turn)
    {
      var home := StateOf(b, turn);
      var queue := states[home].queue;
      if queue == [] { return None; }
      next := Some(queue[0]);
      states := states[home := states[home].(queue := queue[1..])];
    }

    method ResolveLocally(b: nat, turn: string, call: string, decision: string) returns (delivered: bool)
      requires b in brokers && Closed(Snapshot())
      modifies this
      ensures (delivered, Snapshot()) == ResolveLocal(old(Snapshot()), b, turn, call, decision)
    {
      if turn !in brokers[b].turns { return false; }
      var state := states[brokers[b].turns[turn]];
      if call !in state.requests || requests[state.requests[call]].future != Pending { return false; }
      var r := state.requests[call];
      requests := requests[r := requests[r].(future := Decided(decision))];
      delivered := true;
    }

    method ResolveDecision(b: nat, turn: string, call: string, decision: string) returns (delivered: bool)
      requires b in brokers && Closed(Snapshot())
      modifies this
      ensures (delivered, Snapshot()) == DoResolve(old(Snapshot()), b, turn, call, decision)
      ensures (decision == "allow" || decision == "deny") && !delivered && old(brokers)[b].hasRedis ==>
                forall k :: k in old(brokers) ==>
                  k in brokers && brokers[k].inbox ==
                    old(brokers)[k].inbox + if old(brokers)[k].subscribed then [Message(turn, call, decision)] else []
    {
      if !Valid(decision) { return false; }
      var m := Message(turn, call, decision);
      delivered := ResolveLocally(b, turn, call, decision);
      resolved := resolved + [m];
      if !delivered && brokers[b].hasRedis {
        brokers := map k | k in brokers ::
          if brokers[k].subscribed then brokers[k].(inbox := brokers[k].inbox + [m]) else brokers[k];
      }
    }

    /** One turn of the subscriber's loop, on message `k` of the channel. */
    method Receive(b: nat, k: nat)
      requires b in brokers && k < |brokers[b].inbox| && Closed(Snapshot())
      modifies this
      ensures Snapshot() == Apply(old(Snapshot()), Deliver(b, k))
    {
      var m := brokers[b].inbox[k];
      brokers := brokers[b := brokers[b].(inbox := brokers[b].inbox[..k] + brokers[b].inbox[k + 1..])];
      var _ := ResolveLocally(b, m.turn, m.call, m.decision);
    }

    /** The loop of `cancel_turn`, in any order. */
    method FailAll(filed: set<nat>)
      requires forall r :: r in filed ==> r < |requests|
      modifies this`requests
      ensures requests == FailPending(old(requests), filed)
    {
      var todo := filed;
      while todo != {}
        invariant todo <= filed && |requests| == |old(requests)|
        invariant forall i :: 0 <= i < |requests| ==>
                    requests[i] == if i in filed - todo && old(requests)[i].future == Pending
                                   then old(requests)[i].(future := Cancelled) else old(requests)[i]
        decreases |todo|
      {
        var r :| r in todo;
        if requests[r].future == Pending { requests := requests[r := requests[r].(future := Cancelled)]; }
        todo := todo - {r};
      }
    }

    method CancelPending(b: nat, turn: string)
      requires b in brokers && Closed(Snapshot())
      modifies this
      ensures Snapshot() == DoCancelTurn(old(Snapshot()), b, turn)
    {
      if turn !in brokers[b].turns { return; }
      var filed := states[brokers[b].turns[turn]].requests.Values;
      brokers := brokers[b := brokers[b].(turns := brokers[b].turns - {turn})];
      FailAll(filed);
    }

    /** The end of a caller's await: its answer, and the `finally` of the caller that filed the request. */
    method Answered(c: nat)
      requires Closed(Snapshot()) && c < |callers|
      modifies this
      ensures Snapshot() == DoReturn(old(Snapshot()), c)
    {
      var q := requests[callers[c].req];
      if callers[c].answer.Some? || q.future == Pending { return; }
      var answer := if q.future.Decided? then Got(q.future.decision) else Raised;
      callers := callers[c := callers[c].(answer := Some(answer))];
      if q.owner == c {
        states := states[q.home := states[q.home].(requests := states[q.home].requests - {q.call})];
      }
    }
  }
}
