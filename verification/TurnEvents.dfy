/** What the user of a turn sees of it. */
module TurnEvents {
  import opened Options
  import opened Sequences
  import opened Turns

  /** The events the user is shown: a delta without text and an unknown event are not. */
  predicate Visible(ev: Event) {
    match ev
    case StreamDelta(text) => text != ""
    case Unknown => false
    case _ => true
  }

  /** `c` shows `ev`, field by field. */
  predicate Shows(c: Sse, ev: Event) {
    match c
    case Delta(text) => ev.StreamDelta? && ev.text == text
    case ToolCall(id, name, args) => ev.StreamToolCall? && ev.id == id && ev.name == name && ev.args == args
    case ToolOutput(id, output) => ev.StreamToolOutput? && ev.id == id && ev.output == output
    case UsageTotals(usage) => ev.StreamDone? && ev.usage == usage
    case _ => false
  }

  function Those<T>(xs: seq<T>, which: T -> bool): (r: seq<T>) {
    if xs == [] then []
    else Those(xs[..|xs| - 1], which) + if which(xs[|xs| - 1]) then [xs[|xs| - 1]] else []
  }

  /** The runner's part of `out` shows the visible events, one for one and in order. */
  ghost predicate ShowsAll(out: seq<Sse>, evs: seq<Event>) {
    var (shown, visible) := (Keep(out, OfRunner), Those(evs, Visible));
    |shown| == |visible| && forall i :: 0 <= i < |shown| ==> Shows(shown[i], visible[i])
  }

  /** The last `StreamDone` is number `k`; there is none when `k` is -1. */
  ghost predicate LastDoneAt(evs: seq<Event>, k: int) {
    && -1 <= k < |evs| && (k >= 0 ==> evs[k].StreamDone?)
    && forall i :: k < i < |evs| ==> !evs[i].StreamDone?
  }

  // ---------------------------------------------------------------- one event

  lemma {:induction false} OneShown(ev: Event)
    ensures Visible(ev) ==> |Translate(ev)| == 1 && OfRunner(Translate(ev)[0]) && Shows(Translate(ev)[0], ev)
    ensures !Visible(ev) ==> Translate(ev) == []
  {
  }

  lemma {:induction false} RenderedShows(evs: seq<Event>)
    ensures var (shown, visible) := (RenderEvents(evs), Those(evs, Visible));
            |shown| == |visible| && forall i :: 0 <= i < |shown| ==> Shows(shown[i], visible[i])
  {
    if evs != [] {
      RenderedShows(evs[..|evs| - 1]);
      OneShown(evs[|evs| - 1]);
    }
  }

  lemma {:induction false} LastDoneOf(evs: seq<Event>) returns (k: int)
    ensures LastDoneAt(evs, k)
    ensures LastDone(Events(evs)) == if k >= 0 then Some(evs[k]) else None
  {
    if evs == [] {
      k := -1;
    } else {
      var init, last := evs[..|evs| - 1], evs[|evs| - 1];
      var j := LastDoneOf(init);
      InitLast(Events(init), FromRunner(last));
      k := if last.StreamDone? then |evs| - 1 else j;
    }
  }

  lemma {:induction false} OneLastDone(evs: seq<Event>, j: int, k: int)
    requires LastDoneAt(evs, j) && LastDoneAt(evs, k)
    ensures j == k
  {
  }

  lemma {:induction false} KeptAtTheEnd(body: seq<Sse>, error: seq<Sse>, done: Sse, which: Sse -> bool)
    requires !which(done) && forall c :: c in error ==> !which(c)
    ensures Keep(body + error + [done], which) == Keep(body, which)
  {
    KeepAppend(body + error, [done], which);
    KeepAppend(body, error, which);
    KeepNone(error, which);
    KeepNone([done], which);
    AppendNil(Keep(body, which));
  }

  lemma {:induction false} AsksRendered(asks: seq<Ask>)
    ensures |RenderAsks(asks)| == |asks|
    ensures forall i :: 0 <= i < |asks| ==> RenderAsks(asks)[i] == PermissionRequest(asks[i])
  {
    if asks != [] { AsksRendered(asks[..|asks| - 1]); }
  }

  /** The permission requests of `out` are these, in order. */
  ghost predicate Requests(out: seq<Sse>, asks: seq<Ask>) {
    var requests := Keep(out, OfBroker);
    |requests| == |asks| && forall i :: 0 <= i < |asks| ==> requests[i] == PermissionRequest(asks[i])
  }

  lemma {:induction false} WholeShows(body: seq<Sse>, error: seq<Sse>, text: string, evs: seq<Event>, asks: seq<Ask>)
    requires Keep(body, OfRunner) == RenderEvents(evs) && Keep(body, OfBroker) == RenderAsks(asks)
    requires forall c :: c in error ==> c.Error?
    ensures ShowsAll(body + error + [Done(text)], evs) && Requests(body + error + [Done(text)], asks)
  {
    KeptAtTheEnd(body, error, Done(text), OfRunner);
    KeptAtTheEnd(body, error, Done(text), OfBroker);
    RenderedShows(evs);
    AsksRendered(asks);
  }

  // ---------------------------------------------------------------- a completed turn

  /**
   * The user of a completed turn sees every visible event the runner yielded, in order and field by field; the
   * permission requests among them are the first ones asked, in order.
   */
  lemma {:induction false} CompletedTurnShows(steps: seq<Step>) returns (k: nat)
    requires Run(steps).reader == Closed
    ensures var s := Run(steps);
            ShowsAll(s.out, s.produced) && k <= |s.asked| && Requests(s.out, s.asked[..k])
  {
    var s := Run(steps);
    var body, n := CompletedStream(steps);
    k := n;
    WholeShows(body, ErrorOf(s.runner.how), FinalText(Events(s.produced)), s.produced, s.asked[..k]);
  }

  /** The error says how the runner failed, and the done event carries the final output of its last `StreamDone`. */
  lemma {:induction false} CompletedTurnEnds(steps: seq<Step>, k: int)
    requires Run(steps).reader == Closed && LastDoneAt(Run(steps).produced, k)
    ensures var (s, n) := (Run(steps), |Run(steps).out|);
            && s.runner.Ended? && n > 0
            && s.out[n - 1] == Done(if k >= 0 then s.produced[k].finalOutput else "")
            && match s.runner.how
               case Finished => true
               case Crashed(message) => n > 1 && s.out[n - 2] == Error("INTERNAL", message)
               case Cancelled => n > 1 && s.out[n - 2] == Error("UNAVAILABLE", "turn aborted")
  {
    var s := Run(steps);
    var body, n := CompletedStream(steps);
    var j := LastDoneOf(s.produced);
    OneLastDone(s.produced, j, k);
    var error := ErrorOf(s.runner.how);
    assert s.out[|s.out| - 1] == Done(FinalText(Events(s.produced)));
    if error != [] { assert s.out[|s.out| - 2] == error[0]; }
  }

  // ---------------------------------------------------------------- the loop itself

  /** The runner's events among the items, and the requests among them. */
  function EventsIn(items: seq<Item>): (evs: seq<Event>) {
    if items == [] then []
    else EventsIn(items[..|items| - 1]) + if items[|items| - 1].FromRunner? then [items[|items| - 1].ev] else []
  }

  function AsksIn(items: seq<Item>): (asks: seq<Ask>) {
    if items == [] then []
    else AsksIn(items[..|items| - 1]) + if items[|items| - 1].FromBroker? then [items[|items| - 1].ask] else []
  }

  lemma {:induction false} RunnerPart(items: seq<Item>)
    ensures Keep(Render(items), OfRunner) == RenderEvents(EventsIn(items))
  {
    if items != [] {
      var init, last := items[..|items| - 1], items[|items| - 1];
      RunnerPart(init);
      KeepRendered(items, OfRunner);
      if last.FromRunner? {
        KeepTranslated(last.ev);
        InitLast(EventsIn(init), last.ev);
      } else {
        KeepNone(Chunks(last), OfRunner);
        AppendNil(RenderEvents(EventsIn(init)));
        AppendNil(EventsIn(init));
      }
    }
  }

  lemma {:induction false} BrokerPart(items: seq<Item>)
    ensures Keep(Render(items), OfBroker) == RenderAsks(AsksIn(items))
  {
    if items != [] {
      var init, last := items[..|items| - 1], items[|items| - 1];
      BrokerPart(init);
      KeepRendered(items, OfBroker);
      if last.FromBroker? {
        KeepAll(Chunks(last), OfBroker);
        InitLast(AsksIn(init), last.ask);
      } else {
        ChunksAreNotAsks(last);
        AppendNil(RenderAsks(AsksIn(init)));
        AppendNil(AsksIn(init));
      }
    }
  }

  lemma {:induction false} ChunksAreNotAsks(item: Item)
    requires !item.FromBroker?
    ensures Keep(Chunks(item), OfBroker) == []
  {
    KeepNone(Chunks(item), OfBroker);
  }

  lemma {:induction false} DonePart(items: seq<Item>)
    ensures LastDone(items) == LastDone(Events(EventsIn(items)))
  {
    if items != [] {
      var init, last := items[..|items| - 1], items[|items| - 1];
      DonePart(init);
      if last.FromRunner? {
        InitLast(EventsIn(init), last.ev);
        InitLast(Events(EventsIn(init)), last);
      } else {
        AppendNil(EventsIn(init));
      }
    }
  }

  /**
   * What the generator's loop returns for the items it takes, and the `StreamDone` whose usage it leaves on the
   * handle: the last one among them, if there is one.
   */
  lemma {:induction false} LoopShows(taken: seq<Item>, k: int)
    requires LastDoneAt(EventsIn(taken), k)
    ensures var (out, evs) := (Render(taken) + [Done(FinalText(taken))], EventsIn(taken));
            && ShowsAll(out, evs)
            && out[|out| - 1] == Done(if k >= 0 then evs[k].finalOutput else "")
            && LastDone(taken) == (if k >= 0 then Some(evs[k]) else None)
            && Requests(out, AsksIn(taken))
  {
    var j := LastDoneOf(EventsIn(taken));
    OneLastDone(EventsIn(taken), j, k);
    RunnerPart(taken);
    BrokerPart(taken);
    DonePart(taken);
    AppendNil(Render(taken));
    WholeShows(Render(taken), [], FinalText(taken), EventsIn(taken), AsksIn(taken));
  }

  // ---------------------------------------------------------------- on the way

  lemma {:induction false} InAppend(a: seq<Item>, b: seq<Item>)
    ensures EventsIn(a + b) == EventsIn(a) + EventsIn(b) && AsksIn(a + b) == AsksIn(a) + AsksIn(b)
  {
    if b == [] {
      AppendNil(a);
    } else {
      assert (a + b)[..|a + b| - 1] == a + b[..|b| - 1];
      InAppend(a, b[..|b| - 1]);
    }
  }

  lemma {:induction false} InItsItems(items: seq<Item>)
    ensures EventsIn(items) == EventsIn(RunnerItems(items)) && AsksIn(items) == AsksIn(BrokerItems(items))
  {
    if items != [] {
      var (init, last) := (items[..|items| - 1], items[|items| - 1]);
      InItsItems(init);
      InAppend(RunnerItems(init), [last]);
      InAppend(BrokerItems(init), [last]);
      AppendNil(RunnerItems(init));
      AppendNil(BrokerItems(init));
    }
  }

  lemma {:induction false} EventsBack(evs: seq<Event>)
    ensures EventsIn(Events(evs)) == evs
  {
    if evs != [] {
      EventsBack(evs[..|evs| - 1]);
      InitLast(Events(evs[..|evs| - 1]), FromRunner(evs[|evs| - 1]));
      AppendLast(evs);
    }
  }

  lemma {:induction false} AsksBack(asks: seq<Ask>)
    ensures AsksIn(Asks(asks)) == asks
  {
    if asks != [] {
      AsksBack(asks[..|asks| - 1]);
      InitLast(Asks(asks[..|asks| - 1]), FromBroker(asks[|asks| - 1]));
      AppendLast(asks);
    }
  }

  lemma {:induction false} NoEventsAtTheEnd(r: Runner)
    ensures EventsIn(RunnerTail(r)) == []
  {
    match r
    case Ended(how) => InAppend(Verdict(how), [End]);
    case _ =>
  }

  /** Every event yielded was taken or is queued, in order; every request was taken, is queued or not yet forwarded. */
  ghost predicate NothingIsLost(s: State) {
    && EventsIn(s.taken) + EventsIn(s.queue) == s.produced
    && AsksIn(s.taken) + AsksIn(s.queue) + s.waiting == s.asked
  }

  lemma {:induction false} AllIsThere(s: State)
    requires PutsFit(s)
    ensures NothingIsLost(s)
  {
    var all := s.taken + s.queue;
    InAppend(s.taken, s.queue);
    InItsItems(all);
    InAppend(Events(s.produced), RunnerTail(s.runner));
    EventsBack(s.produced);
    NoEventsAtTheEnd(s.runner);
    AppendNil(s.produced);
    InAppend(BrokerItems(all), Asks(s.waiting));
    AsksBack(s.waiting);
    AsksBack(s.asked);
  }

  /** At any time the user has seen what was taken, and what was not taken is still on the way. */
  lemma {:induction false} SoFarShown(steps: seq<Step>)
    ensures var s := Run(steps);
            NothingIsLost(s) && ShowsAll(s.out, EventsIn(s.taken)) && Requests(s.out, AsksIn(s.taken))
  {
    RunInv(steps);
    var s := Run(steps);
    AllIsThere(s);
    RunnerPart(s.taken);
    BrokerPart(s.taken);
    RenderedShows(EventsIn(s.taken));
    AsksRendered(AsksIn(s.taken));
    if s.reader == Closed {
      AppendNil(Render(s.taken));
      WholeShows(Render(s.taken), [], FinalText(s.taken), EventsIn(s.taken), AsksIn(s.taken));
    } else {
      AppendNil(Render(s.taken));
    }
  }

}
