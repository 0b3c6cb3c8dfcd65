/** What ends a caller's wait, and what it leaves. */
module PermissionEndings {
  import opened Options
  import opened PermissionInvariant
  import opened PermissionRuns
  import opened Permissions

  /** From `w` to `w'` only caller `c` was answered, and at most its own registration removed. */
  ghost predicate AnswersOnly(w: World, w': World, c: nat, answer: Answer)
    requires c < |w.callers|
  {
    && w'.requests == w.requests && w'.brokers == w.brokers && |w'.states| == |w.states|
    && w'.callers == w.callers[c := w.callers[c].(answer := Some(answer))]
    && forall s :: 0 <= s < |w.states| ==> w'.states[s].queue == w.states[s].queue
  }

  /** A waiting caller returns once its request is settled, with the decision, or raising if it was cancelled. */
  lemma {:induction false} ReturnGivesTheDecision(redis: map<nat, bool>, steps: seq<Step>, c: nat)
    ensures var w := Run(redis, steps);
            Closed(w) &&
            (c < |w.callers| && w.callers[c].answer == None ==>
               var (future, w') := (w.requests[w.callers[c].req].future, Apply(w, Return(c)));
               && (future == Pending ==> w' == w)
               && (future == Cancelled ==> AnswersOnly(w, w', c, Raised))
               && (forall d :: future == Decided(d) ==> AnswersOnly(w, w', c, Got(d))))
  {
    RunInv(redis, steps);
  }

  /** From `w` to `w'` exactly these requests were cancelled, and no caller answered. */
  ghost predicate CancelsOnly(w: World, w': World, which: set<nat>) {
    && |w'.requests| == |w.requests| && w'.callers == w.callers && w'.states == w.states
    && forall r :: 0 <= r < |w.requests| ==>
         w'.requests[r] == if r in which then w.requests[r].(future := Cancelled) else w.requests[r]
  }

  /** A cancelled caller cancels the undecided request it shares; on a settled one it alone raises. */
  lemma {:induction false} CancelledCaller(redis: map<nat, bool>, steps: seq<Step>, c: nat)
    ensures var w := Run(redis, steps);
            Closed(w) &&
            (c < |w.callers| && w.callers[c].answer == None ==>
               var (r, w') := (w.callers[c].req, Apply(w, CancelCaller(c)));
               if w.requests[r].future == Pending then CancelsOnly(w, w', {r}) && w'.brokers == w.brokers
               else AnswersOnly(w, w', c, Raised))
  {
    RunInv(redis, steps);
  }

  /** The undecided requests of one turn in one broker. */
  ghost function Waiting(w: World, b: nat, turn: string): (rs: set<nat>) {
    set r | 0 <= r < |w.requests| && Awaits(w, r, b, turn, w.requests[r].call)
  }

  /** From `w` to `w'` only the broker's own entry for `turn` went. */
  ghost predicate Forgets(w: World, w': World, b: nat, turn: string)
    requires b in w.brokers
  {
    && w'.brokers.Keys == w.brokers.Keys && (forall k :: k in w.brokers && k != b ==> w'.brokers[k] == w.brokers[k])
    && w'.brokers[b] == w.brokers[b].(turns := w'.brokers[b].turns)
    && turn !in w'.brokers[b].turns
    && forall t :: t != turn ==>
         (t in w'.brokers[b].turns <==> t in w.brokers[b].turns)
         && (t in w.brokers[b].turns ==> w'.brokers[b].turns[t] == w.brokers[b].turns[t])
  }

  lemma FiledIffWaiting(w: World, b: nat, turn: string, r: nat)
    requires Inv(w) && b in w.brokers && turn in w.brokers[b].turns && r < |w.requests|
    ensures r in Waiting(w, b, turn) <==>
              w.requests[r].future == Pending && r in w.states[w.brokers[b].turns[turn]].requests.Values
  {
    var home := w.brokers[b].turns[turn];
    assert BrokerFits(w, b) && RequestFits(w, r) && StateFits(w, home);
    if r in w.states[home].requests.Values {
      var call :| call in w.states[home].requests && w.states[home].requests[call] == r;
    }
    if r in Waiting(w, b, turn) { assert w.states[home].requests[w.requests[r].call] == r; }
  }

  lemma NoneWait(w: World, b: nat, turn: string)
    requires Inv(w) && b in w.brokers && turn !in w.brokers[b].turns
    ensures Waiting(w, b, turn) == {}
  {
    forall r: nat | r < |w.requests| ensures !Awaits(w, r, b, turn, w.requests[r].call) { assert RequestFits(w, r); }
  }

  /** `cancel_turn` fails exactly the undecided requests of that turn in that broker, which forgets the turn. */
  lemma {:induction false} CancelTurnIsExact(redis: map<nat, bool>, steps: seq<Step>, b: nat, turn: string)
    ensures var w := Run(redis, steps);
            Closed(w) &&
            (b in w.brokers ==>
               var w' := Apply(w, CancelTurn(b, turn));
               CancelsOnly(w, w', Waiting(w, b, turn)) && Forgets(w, w', b, turn))
  {
    RunInv(redis, steps);
    var w := Run(redis, steps);
    if b in w.brokers {
      if turn in w.brokers[b].turns {
        forall r | 0 <= r < |w.requests|
          ensures r in Waiting(w, b, turn) <==>
                    w.requests[r].future == Pending && r in w.states[w.brokers[b].turns[turn]].requests.Values
        {
          FiledIffWaiting(w, b, turn, r);
        }
      } else {
        NoneWait(w, b, turn);
      }
    }
  }
}
