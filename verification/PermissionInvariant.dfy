/** What every step of the permission brokers keeps. */
module PermissionInvariant {
  import opened Options
  import opened Permissions

  /** A decision came from a `resolve` call that named this turn and tool call. */
  predicate Sanctioned(w: World, m: Message) {
    Valid(m.decision) && m in w.resolved
  }

  predicate RequestFits(w: World, r: nat)
    requires Closed(w) && r < |w.requests|
  {
    var q := w.requests[r];
    && (q.future.Decided? ==> Sanctioned(w, Message(q.turn, q.call, q.future.decision)))
    && w.states[q.home].turn == q.turn
    && w.callers[q.owner].req == r
    // filed in its home exactly while its owner waits
    && ((q.call in w.states[q.home].requests && w.states[q.home].requests[q.call] == r)
        <==> w.callers[q.owner].answer == None)
    // an undecided request is still waited for, in a turn state its broker knows
    && (q.future == Pending ==>
          && w.callers[q.owner].answer == None
          && var b := w.states[q.home].broker;
             b in w.brokers && q.turn in w.brokers[b].turns && w.brokers[b].turns[q.turn] == q.home)
  }

  predicate StateFits(w: World, s: nat)
    requires Closed(w) && s < |w.states|
  {
    forall c :: c in w.states[s].requests ==>
      var q := w.requests[w.states[s].requests[c]];
      q.call == c && q.home == s
  }

  predicate BrokerFits(w: World, b: nat)
    requires Closed(w) && b in w.brokers
  {
    var br := w.brokers[b];
    && (forall t :: t in br.turns ==> w.states[br.turns[t]].broker == b && w.states[br.turns[t]].turn == t)
    && (forall m :: m in br.inbox ==> Sanctioned(w, m))
  }

  predicate CallerFits(w: World, c: nat)
    requires Closed(w) && c < |w.callers|
  {
    var k := w.callers[c];
    k.answer.Some? && k.answer.value.Got? ==> w.requests[k.req].future == Decided(k.answer.value.decision)
  }

  ghost predicate Inv(w: World) {
    && Closed(w)
    && (forall r :: 0 <= r < |w.requests| ==> RequestFits(w, r))
    && (forall s :: 0 <= s < |w.states| ==> StateFits(w, s))
    && (forall b :: b in w.brokers ==> BrokerFits(w, b))
    && (forall c :: 0 <= c < |w.callers| ==> CallerFits(w, c))
  }

  lemma NewStateCloses(w: World, w': World, b: nat, turn: string)
    requires Closed(w) && b in w.brokers && turn !in w.brokers[b].turns
    requires w' == w.(states := w.states + [TurnState(b, turn, map[], [])],
                      brokers := w.brokers[b := w.brokers[b].(turns := w.brokers[b].turns[turn := |w.states|])])
    ensures Closed(w')
  {
  }

  /** A broker learns of a new, empty turn state. */
  lemma NewStateKeepsInv(w: World, w': World, b: nat, turn: string)
    requires Inv(w) && b in w.brokers && turn !in w.brokers[b].turns
    requires w' == w.(states := w.states + [TurnState(b, turn, map[], [])],
                      brokers := w.brokers[b := w.brokers[b].(turns := w.brokers[b].turns[turn := |w.states|])])
    ensures Inv(w')
  {
    NewStateCloses(w, w', b, turn);
    forall r | 0 <= r < |w'.requests| ensures RequestFits(w', r) { assert RequestFits(w, r); }
    forall s | 0 <= s < |w'.states| ensures StateFits(w', s) { assert s < |w.states| ==> StateFits(w, s); }
    forall c | c in w'.brokers ensures BrokerFits(w', c) { assert BrokerFits(w, c); }
    forall c | 0 <= c < |w'.callers| ensures CallerFits(w', c) { assert CallerFits(w, c); }
  }

  lemma SetDefaultKeepsInv(w: World, b: nat, turn: string)
    requires Inv(w) && b in w.brokers
    ensures var w' := SetDefault(w, b, turn); Inv(w') && b in w'.brokers && turn in w'.brokers[b].turns
  {
    if turn !in w.brokers[b].turns { NewStateKeepsInv(w, SetDefault(w, b, turn), b, turn); }
  }

  /** A second caller for a registered tool call awaits the same request. */
  lemma JoinKeepsInv(w: World, r: nat)
    requires Inv(w) && r < |w.requests|
    ensures Inv(w.(callers := w.callers + [Caller(r, None)]))
  {
    var w' := w.(callers := w.callers + [Caller(r, None)]);
    forall q | 0 <= q < |w'.requests| ensures RequestFits(w', q) { assert RequestFits(w, q); }
    forall s | 0 <= s < |w'.states| ensures StateFits(w', s) { assert StateFits(w, s); }
    forall c | c in w'.brokers ensures BrokerFits(w', c) { assert BrokerFits(w, c); }
    forall c | 0 <= c < |w'.callers| ensures CallerFits(w', c) { assert c < |w.callers| ==> CallerFits(w, c); }
  }

  lemma FileCloses(w: World, home: nat, call: string)
    requires Closed(w) && home < |w.states|
    ensures Closed(FileIn(w, home, call))
  {
  }

  lemma FileKeepsInv(w: World, b: nat, turn: string, call: string)
    requires Inv(w) && b in w.brokers && turn in w.brokers[b].turns
    requires call !in w.states[w.brokers[b].turns[turn]].requests
    ensures Inv(FileIn(w, w.brokers[b].turns[turn], call))
  {
    var home := w.brokers[b].turns[turn];
    var w' := FileIn(w, home, call);
    assert BrokerFits(w, b);
    FileCloses(w, home, call);
    forall q | 0 <= q < |w'.requests| ensures RequestFits(w', q) { assert q < |w.requests| ==> RequestFits(w, q); }
    forall s | 0 <= s < |w'.states| ensures StateFits(w', s) { assert StateFits(w, s); }
    forall c | c in w'.brokers ensures BrokerFits(w', c) { assert BrokerFits(w, c); }
    forall c | 0 <= c < |w'.callers| ensures CallerFits(w', c) { assert c < |w.callers| ==> CallerFits(w, c); }
  }

  lemma RequestKeepsInv(w: World, b: nat, turn: string, call: string)
    requires Inv(w) && b in w.brokers
    ensures Inv(DoRequest(w, b, turn, call))
  {
    SetDefaultKeepsInv(w, b, turn);
    var u := SetDefault(w, b, turn);
    var home := u.brokers[b].turns[turn];
    assert BrokerFits(u, b);
    if call in u.states[home].requests {
      JoinKeepsInv(u, u.states[home].requests[call]);
    } else {
      FileKeepsInv(u, b, turn, call);
      assert DoRequest(w, b, turn, call) == FileIn(u, home, call);
    }
  }

  lemma QueueKeepsInv(w: World, s: nat, queue: seq<nat>)
    requires Inv(w) && s < |w.states|
    ensures Inv(w.(states := w.states[s := w.states[s].(queue := queue)]))
  {
    var w' := w.(states := w.states[s := w.states[s].(queue := queue)]);
    forall r | 0 <= r < |w'.requests| ensures RequestFits(w', r) { assert RequestFits(w, r); }
    forall k | 0 <= k < |w'.states| ensures StateFits(w', k) { assert StateFits(w, k); }
    forall b | b in w'.brokers ensures BrokerFits(w', b) { assert BrokerFits(w, b); }
    forall c | 0 <= c < |w'.callers| ensures CallerFits(w', c) { assert CallerFits(w, c); }
  }

  lemma PendingEventKeepsInv(w: World, b: nat, turn: string)
    requires Inv(w) && b in w.brokers
    ensures Inv(DoPendingEvent(w, b, turn))
  {
    SetDefaultKeepsInv(w, b, turn);
    var u := SetDefault(w, b, turn);
    var home := u.brokers[b].turns[turn];
    if u.states[home].queue != [] { QueueKeepsInv(u, home, u.states[home].queue[1..]); }
  }

  /** Settling an undecided request with a sanctioned decision, or a cancellation. */
  lemma SetFutureKeepsInv(w: World, r: nat, d: Decision)
    requires Inv(w) && r < |w.requests| && w.requests[r].future == Pending && d != Pending
    requires d.Decided? ==> Sanctioned(w, Message(w.requests[r].turn, w.requests[r].call, d.decision))
    ensures Inv(SetFuture(w, r, d))
  {
    var w' := SetFuture(w, r, d);
    forall q | 0 <= q < |w'.requests| ensures RequestFits(w', q) { assert RequestFits(w, q); }
    forall s | 0 <= s < |w'.states| ensures StateFits(w', s) { assert StateFits(w, s); }
    forall c | c in w'.brokers ensures BrokerFits(w', c) { assert BrokerFits(w, c); }
    forall c | 0 <= c < |w'.callers| ensures CallerFits(w', c) { assert CallerFits(w, c); }
  }

  lemma ResolveLocalKeepsInv(w: World, b: nat, m: Message)
    requires Inv(w) && b in w.brokers && Sanctioned(w, m)
    ensures Inv(ResolveLocal(w, b, m.turn, m.call, m.decision).1)
  {
    var t := Target(w, b, m.turn, m.call);
    if t.Some? {
      var home := w.brokers[b].turns[m.turn];
      assert BrokerFits(w, b) && StateFits(w, home) && RequestFits(w, t.value);
      SetFutureKeepsInv(w, t.value, Decided(m.decision));
    }
  }

  /** Changes that leave states, requests and callers alone and only add sanctioned traffic. */
  lemma TrafficKeepsInv(w: World, w': World)
    requires Inv(w) && w'.states == w.states && w'.requests == w.requests && w'.callers == w.callers
    requires forall m :: m in w.resolved ==> m in w'.resolved
    requires w'.brokers.Keys == w.brokers.Keys
    requires forall b :: b in w'.brokers ==>
               w'.brokers[b].turns == w.brokers[b].turns &&
               forall m :: m in w'.brokers[b].inbox ==> m in w.brokers[b].inbox || Sanctioned(w', m)
    ensures Inv(w')
  {
    assert Closed(w');
    forall r | 0 <= r < |w'.requests| ensures RequestFits(w', r) { assert RequestFits(w, r); }
    forall s | 0 <= s < |w'.states| ensures StateFits(w', s) { assert StateFits(w, s); }
    forall c | c in w'.brokers ensures BrokerFits(w', c) { assert BrokerFits(w, c); }
    forall c | 0 <= c < |w'.callers| ensures CallerFits(w', c) { assert CallerFits(w, c); }
  }

  lemma ResolveKeepsInv(w: World, b: nat, turn: string, call: string, decision: string)
    requires Inv(w) && b in w.brokers
    ensures Inv(DoResolve(w, b, turn, call, decision).1)
  {
    if Valid(decision) {
      var m := Message(turn, call, decision);
      var v := w.(resolved := w.resolved + [m]);
      TrafficKeepsInv(w, v);
      ResolveLocalKeepsInv(v, b, m);
      assert Target(v, b, turn, call) == Target(w, b, turn, call);
      var u := ResolveLocal(v, b, turn, call, decision).1;
      var (delivered, w') := DoResolve(w, b, turn, call, decision);
      if !delivered && w.brokers[b].hasRedis {
        TrafficKeepsInv(u, w');
      }
    }
  }

  lemma TakeMessageKeepsInv(w: World, b: nat, k: nat)
    requires Inv(w) && b in w.brokers && k < |w.brokers[b].inbox|
    ensures Inv(TakeMessage(w, b, k)) && Sanctioned(w, w.brokers[b].inbox[k])
  {
    assert BrokerFits(w, b);
    TrafficKeepsInv(w, TakeMessage(w, b, k));
  }

  lemma CancelledFits(w: World, b: nat, turn: string, r: nat)
    requires Inv(w) && b in w.brokers && turn in w.brokers[b].turns && r < |w.requests|
    requires Closed(DoCancelTurn(w, b, turn))
    ensures RequestFits(DoCancelTurn(w, b, turn), r)
  {
    var home := w.brokers[b].turns[turn];
    assert BrokerFits(w, b) && RequestFits(w, r) && StateFits(w, home);
    var q := w.requests[r];
    if q.future == Pending && q.home == home {
      assert w.states[home].requests[q.call] == r;
      assert r in w.states[home].requests.Values;
    }
  }

  lemma CancelCloses(w: World, b: nat, turn: string)
    requires Closed(w) && b in w.brokers
    ensures Closed(DoCancelTurn(w, b, turn))
  {
  }

  lemma CancelKeepsOthers(w: World, w': World, b: nat, turn: string)
    requires Inv(w) && b in w.brokers && turn in w.brokers[b].turns
    requires w' == DoCancelTurn(w, b, turn)
    ensures Closed(w')
    ensures forall s :: 0 <= s < |w'.states| ==> StateFits(w', s)
    ensures forall c :: 0 <= c < |w'.callers| ==> CallerFits(w', c)
    ensures forall c :: c in w'.brokers ==> BrokerFits(w', c)
  {
    CancelCloses(w, b, turn);
    forall s | 0 <= s < |w'.states| ensures StateFits(w', s) { assert StateFits(w, s); }
    forall c | c in w'.brokers ensures BrokerFits(w', c) { assert BrokerFits(w, c); }
    forall c | 0 <= c < |w'.callers| ensures CallerFits(w', c) { assert CallerFits(w, c); }
  }

  lemma CancelTurnKeepsInv(w: World, b: nat, turn: string)
    requires Inv(w) && b in w.brokers
    ensures Inv(DoCancelTurn(w, b, turn))
  {
    if turn in w.brokers[b].turns {
      var w' := DoCancelTurn(w, b, turn);
      CancelKeepsOthers(w, w', b, turn);
      forall r | 0 <= r < |w'.requests| ensures RequestFits(w', r) { CancelledFits(w, b, turn, r); }
    }
  }

  lemma FinishCloses(w: World, c: nat, answer: Answer)
    requires Closed(w) && c < |w.callers|
    ensures Closed(Finish(w, c, answer))
  {
  }

  lemma FinishKeepsInv(w: World, c: nat, answer: Answer)
    requires Inv(w) && c < |w.callers| && w.callers[c].answer == None
    requires w.requests[w.callers[c].req].future != Pending
    requires answer.Got? ==> w.requests[w.callers[c].req].future == Decided(answer.decision)
    ensures Inv(Finish(w, c, answer))
  {
    var w' := Finish(w, c, answer);
    assert RequestFits(w, w.callers[c].req);
    FinishCloses(w, c, answer);
    forall r | 0 <= r < |w'.requests| ensures RequestFits(w', r) {
      assert RequestFits(w, r);
    }
    forall s | 0 <= s < |w'.states| ensures StateFits(w', s) { assert StateFits(w, s); }
    forall b | b in w'.brokers ensures BrokerFits(w', b) { assert BrokerFits(w, b); }
    forall k | 0 <= k < |w'.callers| ensures CallerFits(w', k) { assert CallerFits(w, k); }
  }

  lemma DeliverKeepsInv(w: World, b: nat, k: nat)
    requires Inv(w) && b in w.brokers && k < |w.brokers[b].inbox|
    ensures Inv(Apply(w, Deliver(b, k)))
  {
    TakeMessageKeepsInv(w, b, k);
    ResolveLocalKeepsInv(TakeMessage(w, b, k), b, w.brokers[b].inbox[k]);
  }

  lemma DropKeepsInv(w: World, b: nat, k: nat)
    requires Inv(w) && b in w.brokers && k < |w.brokers[b].inbox|
    ensures Inv(Apply(w, Drop(b, k)))
  {
    TakeMessageKeepsInv(w, b, k);
  }

  lemma SubscriptionKeepsInv(w: World, step: Step)
    requires Inv(w) && (step.Subscribe? || step.Stop?)
    ensures Inv(Apply(w, step))
  {
    TrafficKeepsInv(w, Apply(w, step));
  }

  /** A caller that still waits on request number `w.callers[c].req`. */
  predicate Waits(w: World, c: nat)
    requires Closed(w)
  {
    c < |w.callers| && w.callers[c].answer == None
  }

  lemma ReturnKeepsInv(w: World, c: nat)
    requires Inv(w) && Waits(w, c) && w.requests[w.callers[c].req].future != Pending
    ensures Inv(Apply(w, Return(c)))
  {
    var f := w.requests[w.callers[c].req].future;
    FinishKeepsInv(w, c, if f.Decided? then Got(f.decision) else Raised);
  }

  lemma CancelCallerKeepsInv(w: World, c: nat)
    requires Inv(w) && Waits(w, c)
    ensures Inv(Apply(w, CancelCaller(c)))
  {
    if w.requests[w.callers[c].req].future == Pending {
      SetFutureKeepsInv(w, w.callers[c].req, Cancelled);
    } else {
      FinishKeepsInv(w, c, Raised);
    }
  }

  lemma ApplyKeepsInv(w: World, step: Step)
    requires Inv(w)
    ensures Inv(Apply(w, step))
  {
    match step
    case RequestDecision(b, turn, call) => if b in w.brokers { RequestKeepsInv(w, b, turn, call); }
    case PendingEvent(b, turn) => if b in w.brokers { PendingEventKeepsInv(w, b, turn); }
    case Resolve(b, turn, call, d) => if b in w.brokers { ResolveKeepsInv(w, b, turn, call, d); }
    case Deliver(b, k) => if b in w.brokers && k < |w.brokers[b].inbox| { DeliverKeepsInv(w, b, k); }
    case Drop(b, k) => if b in w.brokers && k < |w.brokers[b].inbox| { DropKeepsInv(w, b, k); }
    case CancelTurn(b, turn) => if b in w.brokers { CancelTurnKeepsInv(w, b, turn); }
    case Subscribe(_) => SubscriptionKeepsInv(w, step);
    case Stop(_) => SubscriptionKeepsInv(w, step);
    case Return(c) => if Waits(w, c) && w.requests[w.callers[c].req].future != Pending { ReturnKeepsInv(w, c); }
    case CancelCaller(c) => if Waits(w, c) { CancelCallerKeepsInv(w, c); }
  }

  lemma BootInv(redis: map<nat, bool>)
    ensures Inv(Boot(redis))
  {
    var w := Boot(redis);
    forall b | b in w.brokers ensures BrokerFits(w, b) {}
  }
}
