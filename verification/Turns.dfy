/** The turn driver: a runner and a permission queue merged into one event stream. */
module Turns {
  import opened Json
  import opened Options
  import opened Sequences

  /** What the agent stream yields; `StreamDone` carries the totals after defaulting and pricing. */
  datatype Event =
    | StreamDelta(text: string)
    | StreamToolCall(id: string, name: string, args: Value)
    | StreamToolOutput(id: string, output: string)
    | StreamDone(finalOutput: string, usage: Usage)
    | Unknown

  datatype Usage = Usage(inputTokens: int, outputTokens: int, costMicro: int)

  datatype Ask = Ask(callId: string, tool: string, args: Value)

  /** One server-sent event. */
  datatype Sse =
    | Delta(text: string)
    | ToolCall(id: string, name: string, args: Value)
    | ToolOutput(id: string, output: string)
    | UsageTotals(usage: Usage)
    | PermissionRequest(ask: Ask)
    | Error(kind: string, message: string)
    | Done(finalText: string)

  /** What travels through `stream_q`. */
  datatype Item = FromRunner(ev: Event) | FromBroker(ask: Ask) | Failed(message: string) | Aborted | End

  // ---------------------------------------------------------------- one item

  /** `_translate_event`, with the usage event that follows a `StreamDone`. */
  function Translate(ev: Event): (r: seq<Sse>) {
    match ev
    case StreamDelta(text) => if text == "" then [] else [Delta(text)]
    case StreamToolCall(id, name, args) => [ToolCall(id, name, args)]
    case StreamToolOutput(id, output) => [ToolOutput(id, output)]
    case StreamDone(_, usage) => [UsageTotals(usage)]
    case Unknown => []
  }

  function Chunks(item: Item): (r: seq<Sse>) {
    match item
    case FromRunner(ev) => Translate(ev)
    case FromBroker(ask) => [PermissionRequest(ask)]
    case Failed(message) => [Error("INTERNAL", message)]
    case Aborted => [Error("UNAVAILABLE", "turn aborted")]
    case End => []
  }

  predicate Stops(item: Item) {
    item.Failed? || item.Aborted? || item.End?
  }

  function Render(items: seq<Item>): (r: seq<Sse>) {
    if items == [] then [] else Render(items[..|items| - 1]) + Chunks(items[|items| - 1])
  }

  /** The last `StreamDone` among the items decides the final text and the usage kept on the handle. */
  function LastDone(items: seq<Item>): (r: Option<Event>) {
    if items == [] then None
    else
      var last := items[|items| - 1];
      if last.FromRunner? && last.ev.StreamDone? then Some(last.ev) else LastDone(items[..|items| - 1])
  }

  function FinalText(items: seq<Item>): (r: string) {
    var d := LastDone(items);
    if d.Some? && d.value.StreamDone? then d.value.finalOutput else ""
  }

  // ---------------------------------------------------------------- the consumer loop

  /** Items up to and including the first one that stops the loop. */
  predicate Served(items: seq<Item>, n: nat) {
    0 < n <= |items| && Stops(items[n - 1]) && forall k :: 0 <= k < n - 1 ==> !Stops(items[k])
  }

  /** What one item more renders to, and whether it is the last done. */
  lemma {:induction false} OneItemMore(items: seq<Item>, i: nat)
    requires i < |items|
    ensures Render(items[..i + 1]) == Render(items[..i]) + Chunks(items[i])
    ensures LastDone(items[..i + 1]) == if items[i].FromRunner? && items[i].ev.StreamDone? then Some(items[i].ev)
                                        else LastDone(items[..i])
  {
    assert items[..i + 1][..i] == items[..i];
  }

  class TurnHandle {
    var usage: Option<Usage>

    constructor ()
      ensures usage == None
    {
      usage := None;
    }
  }

  /** The generator's loop over the items the queue delivers, then its `finally`. */
  method StreamTurn(items: seq<Item>, handle: TurnHandle, ghost n: nat) returns (out: seq<Sse>)
    requires Served(items, n)
    modifies handle
    ensures out == Render(items[..n]) + [Done(FinalText(items[..n]))]
    ensures handle.usage == match LastDone(items[..n])
                            case Some(ev) => if ev.StreamDone? then Some(ev.usage) else None
                            case None => old(handle.usage)
  {
    out := [];
    var finalText := "";
    var i := 0;
    while true
      invariant i < n
      invariant out == Render(items[..i]) && finalText == FinalText(items[..i])
      invariant handle.usage == match LastDone(items[..i])
                                case Some(ev) => if ev.StreamDone? then Some(ev.usage) else None
                                case None => old(handle.usage)
      decreases n - i
    {
      var item := items[i];
      OneItemMore(items, i);
      i := i + 1;
      match item {
        case End => break;
        case FromRunner(ev) =>
          out := out + Translate(ev);
          if ev.StreamDone? {
            finalText := ev.finalOutput;
            handle.usage := Some(ev.usage);
          }
        case FromBroker(ask) => out := out + [PermissionRequest(ask)];
        case Failed(message) =>
          out := out + [Error("INTERNAL", message)];
          break;
        case Aborted =>
          out := out + [Error("UNAVAILABLE", "turn aborted")];
          break;
      }
    }
    out := out + [Done(finalText)];
  }

  // ---------------------------------------------------------------- the tasks around it

  datatype Outcome = Finished | Crashed(message: string) | Cancelled

  /** `Ending`: the runner is over and its `finally` has still to put the end marker. */
  datatype Runner = Running | Ending(how: Outcome) | Ended(how: Outcome)

  datatype Reader = Looping | Closing | Closed

  /**
   * `queue` is `stream_q` and `taken` what the reader has already taken from it; `produced` and `asked`
   * remember what the runner yielded and what the broker was asked.
   */
  datatype State = State(
    runner: Runner, drainer: bool, reader: Reader,
    taken: seq<Item>, queue: seq<Item>, waiting: seq<Ask>, out: seq<Sse>,
    produced: seq<Event>, asked: seq<Ask>)

  datatype Step =
    | Yield(ev: Event)           // the runner yields
    | StopRunner(how: Outcome)   // it finishes, raises, or is cancelled (by an abort or by the reader)
    | PutEnd                     // its finally
    | RequestPermission(ask: Ask)
    | Forward                    // the drainer moves one request to the queue
    | Take                       // the reader handles one item
    | StopDrainer                // the reader's finally cancels the drainer
    | Finish                     // both tasks are over: the done event

  const START: State := State(Running, true, Looping, [], [], [], [], [], [])

  /** The item a runner puts before its end marker. */
  function Verdict(how: Outcome): (r: seq<Item>) {
    match how
    case Finished => []
    case Crashed(message) => [Failed(message)]
    case Cancelled => [Aborted]
  }

  function Put(s: State, items: seq<Item>): (r: State) {
    s.(queue := s.queue + items)
  }

  function Apply(s: State, step: Step): (r: State) {
    match step
    case Yield(ev) =>
      if s.runner == Running then Put(s, [FromRunner(ev)]).(produced := s.produced + [ev]) else s
    case StopRunner(how) =>
      if s.runner == Running then Put(s, Verdict(how)).(runner := Ending(how)) else s
    case PutEnd =>
      if s.runner.Ending? then Put(s, [End]).(runner := Ended(s.runner.how)) else s
    case RequestPermission(ask) => s.(waiting := s.waiting + [ask], asked := s.asked + [ask])
    case Forward =>
      if s.drainer && s.waiting != [] then Put(s, [FromBroker(s.waiting[0])]).(waiting := s.waiting[1..]) else s
    case Take =>
      if s.reader == Looping && s.queue != [] then
        var item := s.queue[0];
        s.(taken := s.taken + [item], queue := s.queue[1..], out := s.out + Chunks(item),
           reader := if Stops(item) then Closing else Looping)
      else s
    case StopDrainer => if s.reader == Closing then s.(drainer := false) else s
    case Finish =>
      if s.reader == Closing && !s.drainer && s.runner.Ended? then
        s.(reader := Closed, out := s.out + [Done(FinalText(s.taken))])
      else s
  }

  function Run(steps: seq<Step>): (r: State) {
    if steps == [] then START else Apply(Run(steps[..|steps| - 1]), steps[|steps| - 1])
  }

  // ---------------------------------------------------------------- the invariant

  function Events(evs: seq<Event>): (r: seq<Item>) {
    if evs == [] then [] else Events(evs[..|evs| - 1]) + [FromRunner(evs[|evs| - 1])]
  }

  function Asks(asks: seq<Ask>): (r: seq<Item>) {
    if asks == [] then [] else Asks(asks[..|asks| - 1]) + [FromBroker(asks[|asks| - 1])]
  }

  /** The items the runner put, in order. */
  function RunnerItems(items: seq<Item>): (r: seq<Item>) {
    if items == [] then []
    else
      var last := items[|items| - 1];
      RunnerItems(items[..|items| - 1]) + (if last.FromBroker? then [] else [last])
  }

  /** The items the drainer put, in order. */
  function BrokerItems(items: seq<Item>): (r: seq<Item>) {
    if items == [] then []
    else
      var last := items[|items| - 1];
      BrokerItems(items[..|items| - 1]) + (if last.FromBroker? then [last] else [])
  }

  function RunnerTail(r: Runner): (result: seq<Item>) {
    match r
    case Running => []
    case Ending(how) => Verdict(how)
    case Ended(how) => Verdict(how) + [End]
  }

  /** Everything put so far: the runner's items and the broker's, each in order, nothing else. */
  ghost predicate PutsFit(s: State) {
    && RunnerItems(s.taken + s.queue) == Events(s.produced) + RunnerTail(s.runner)
    && BrokerItems(s.taken + s.queue) + Asks(s.waiting) == Asks(s.asked)
  }

  /** The reader has rendered what it took, and stopped at the first stopping item. */
  ghost predicate ReaderFits(s: State) {
    && (s.reader == Looping ==> forall k :: 0 <= k < |s.taken| ==> !Stops(s.taken[k]))
    && (s.reader != Looping ==> Served(s.taken, |s.taken|))
    && (s.reader == Closed ==> s.runner.Ended?)
    && s.out == Render(s.taken) + (if s.reader == Closed then [Done(FinalText(s.taken))] else [])
  }

  lemma PutKeeps(items: seq<Item>, item: Item)
    ensures RunnerItems(items + [item]) == RunnerItems(items) + (if item.FromBroker? then [] else [item])
    ensures BrokerItems(items + [item]) == BrokerItems(items) + (if item.FromBroker? then [item] else [])
  {
    assert (items + [item])[..|items|] == items;
  }

  lemma EventsMore(evs: seq<Event>, ev: Event)
    ensures Events(evs + [ev]) == Events(evs) + [FromRunner(ev)]
  {
    assert (evs + [ev])[..|evs|] == evs;
  }

  lemma AsksMore(asks: seq<Ask>, ask: Ask)
    ensures Asks(asks + [ask]) == Asks(asks) + [FromBroker(ask)]
  {
    assert (asks + [ask])[..|asks|] == asks;
  }

  lemma {:induction false} AsksFirst(asks: seq<Ask>)
    requires asks != []
    ensures Asks(asks) == [FromBroker(asks[0])] + Asks(asks[1..])
  {
    var n := |asks| - 1;
    if n > 0 {
      AsksFirst(asks[..n]);
      assert asks[..n][1..] == asks[1..][..n - 1];
    }
  }

  lemma {:induction false} EventsShape(evs: seq<Event>)
    ensures |Events(evs)| == |evs| && forall k :: 0 <= k < |evs| ==> Events(evs)[k] == FromRunner(evs[k])
  {
    if evs != [] { EventsShape(evs[..|evs| - 1]); }
  }

  lemma {:induction false} AsksShape(asks: seq<Ask>)
    ensures |Asks(asks)| == |asks| && forall k :: 0 <= k < |asks| ==> Asks(asks)[k] == FromBroker(asks[k])
  {
    if asks != [] { AsksShape(asks[..|asks| - 1]); }
  }

  lemma PutOne(s: State, item: Item)
    ensures var (all, s') := (s.taken + s.queue, Put(s, [item]));
            && RunnerItems(s'.taken + s'.queue) == RunnerItems(all) + (if item.FromBroker? then [] else [item])
            && BrokerItems(s'.taken + s'.queue) == BrokerItems(all) + (if item.FromBroker? then [item] else [])
  {
    PutKeeps(s.taken + s.queue, item);
    assert s.taken + (s.queue + [item]) == s.taken + s.queue + [item];
  }

  lemma {:induction false} YieldKeepsPuts(s: State, ev: Event)
    requires PutsFit(s) && s.runner == Running
    ensures PutsFit(Apply(s, Yield(ev)))
  {
    PutOne(s, FromRunner(ev));
    EventsMore(s.produced, ev);
    AppendNil(Events(s.produced));
    AppendNil(Events(s.produced + [ev]));
    AppendNil(BrokerItems(s.taken + s.queue));
  }

  /** The runner ends with `item`, its verdict or its end marker. */
  lemma {:induction false} EndingKeepsPuts(s: State, item: Item, r: Runner)
    requires PutsFit(s) && !item.FromBroker? && RunnerTail(r) == RunnerTail(s.runner) + [item]
    ensures PutsFit(Put(s, [item]).(runner := r))
  {
    PutOne(s, item);
    Assoc(Events(s.produced), RunnerTail(s.runner), [item]);
    AppendNil(BrokerItems(s.taken + s.queue));
  }

  lemma RunnerStepKeepsPuts(s: State, step: Step)
    requires PutsFit(s) && (step.Yield? || step.StopRunner? || step.PutEnd?)
    ensures PutsFit(Apply(s, step))
  {
    if step.Yield? && s.runner == Running {
      YieldKeepsPuts(s, step.ev);
    } else if step.StopRunner? && s.runner == Running {
      if step.how == Finished {
        assert s.queue + [] == s.queue;
      } else {
        EndingKeepsPuts(s, Verdict(step.how)[0], Ending(step.how));
      }
    } else if step.PutEnd? && s.runner.Ending? {
      EndingKeepsPuts(s, End, Ended(s.runner.how));
    }
  }

  lemma {:induction false} RequestKeepsPuts(s: State, ask: Ask)
    requires PutsFit(s)
    ensures PutsFit(Apply(s, RequestPermission(ask)))
  {
    AsksMore(s.asked, ask);
    AsksMore(s.waiting, ask);
    Assoc(BrokerItems(s.taken + s.queue), Asks(s.waiting), [FromBroker(ask)]);
  }

  lemma {:induction false} ForwardKeepsPuts(s: State)
    requires PutsFit(s) && s.drainer && s.waiting != []
    ensures PutsFit(Apply(s, Forward))
  {
    var item := FromBroker(s.waiting[0]);
    PutOne(s, item);
    AsksFirst(s.waiting);
    AppendNil(RunnerItems(s.taken + s.queue));
    Assoc(BrokerItems(s.taken + s.queue), [item], Asks(s.waiting[1..]));
  }

  lemma ApplyKeepsPuts(s: State, step: Step)
    requires PutsFit(s)
    ensures PutsFit(Apply(s, step))
  {
    if step.Yield? || step.StopRunner? || step.PutEnd? {
      RunnerStepKeepsPuts(s, step);
    } else if step.RequestPermission? || step.Forward? {
      if step.RequestPermission? {
        RequestKeepsPuts(s, step.ask);
      } else if s.drainer && s.waiting != [] {
        ForwardKeepsPuts(s);
      }
    } else if step.Take? && s.queue != [] {
      assert (s.taken + [s.queue[0]]) + s.queue[1..] == s.taken + s.queue;
    }
  }

  lemma {:induction false} TakeKeepsReader(s: State)
    requires ReaderFits(s) && s.reader == Looping && s.queue != []
    ensures ReaderFits(Apply(s, Take))
  {
    InitLast(s.taken, s.queue[0]);
  }

  lemma {:induction false} ApplyKeepsReader(s: State, step: Step)
    requires ReaderFits(s)
    ensures ReaderFits(Apply(s, step))
  {
    if step.Take? && s.reader == Looping && s.queue != [] { TakeKeepsReader(s); }
  }

  lemma {:induction false} RunInv(steps: seq<Step>)
    ensures PutsFit(Run(steps)) && ReaderFits(Run(steps))
  {
    if steps != [] {
      RunInv(steps[..|steps| - 1]);
      ApplyKeepsPuts(Run(steps[..|steps| - 1]), steps[|steps| - 1]);
      ApplyKeepsReader(Run(steps[..|steps| - 1]), steps[|steps| - 1]);
    }
  }

  // ---------------------------------------------------------------- the promises

  predicate OfRunner(c: Sse) {
    c.Delta? || c.ToolCall? || c.ToolOutput? || c.UsageTotals?
  }

  function Keep(chunks: seq<Sse>, which: Sse -> bool): (r: seq<Sse>) {
    if chunks == [] then []
    else Keep(chunks[..|chunks| - 1], which) + (if which(chunks[|chunks| - 1]) then [chunks[|chunks| - 1]] else [])
  }

  /** The stream of the runner alone. */
  function RenderEvents(evs: seq<Event>): (r: seq<Sse>) {
    if evs == [] then [] else RenderEvents(evs[..|evs| - 1]) + Translate(evs[|evs| - 1])
  }

  function RenderAsks(asks: seq<Ask>): (r: seq<Sse>) {
    if asks == [] then [] else RenderAsks(asks[..|asks| - 1]) + [PermissionRequest(asks[|asks| - 1])]
  }

  /** The error event a runner's end asks for. */
  function ErrorOf(how: Outcome): (r: seq<Sse>) {
    match how
    case Finished => []
    case Crashed(message) => [Error("INTERNAL", message)]
    case Cancelled => [Error("UNAVAILABLE", "turn aborted")]
  }

  lemma {:induction false} KeepAppend(a: seq<Sse>, b: seq<Sse>, which: Sse -> bool)
    ensures Keep(a + b, which) == Keep(a, which) + Keep(b, which)
  {
    if b == [] {
      assert a + b == a;
    } else {
      assert (a + b)[..|a + b| - 1] == a + b[..|b| - 1];
      KeepAppend(a, b[..|b| - 1], which);
    }
  }

  predicate OfBroker(c: Sse) {
    c.PermissionRequest?
  }

  predicate Terminal(c: Sse) {
    c.Error? || c.Done?
  }

  lemma {:induction false} KeepAll(chunks: seq<Sse>, which: Sse -> bool)
    requires forall c :: c in chunks ==> which(c)
    ensures Keep(chunks, which) == chunks
  {
    if chunks != [] {
      KeepAll(chunks[..|chunks| - 1], which);
      AppendLast(chunks);
    }
  }

  lemma {:induction false} KeepNone(chunks: seq<Sse>, which: Sse -> bool)
    requires forall c :: c in chunks ==> !which(c)
    ensures Keep(chunks, which) == []
  {
    if chunks != [] { KeepNone(chunks[..|chunks| - 1], which); }
  }

  /** What is kept of chunks that all come from one side. */
  lemma {:induction false} KeepSplits(chunks: seq<Sse>, whole: Sse -> bool, other: Sse -> bool)
    requires forall c :: c in chunks ==> whole(c) && !other(c) && !Terminal(c)
    ensures Keep(chunks, whole) == chunks && Keep(chunks, other) == [] && Keep(chunks, Terminal) == []
  {
    KeepAll(chunks, whole);
    KeepNone(chunks, other);
    KeepNone(chunks, Terminal);
  }

  lemma {:induction false} KeepTranslated(ev: Event)
    ensures Keep(Translate(ev), OfRunner) == Translate(ev)
    ensures Keep(Translate(ev), OfBroker) == [] && Keep(Translate(ev), Terminal) == []
  {
    KeepSplits(Translate(ev), OfRunner, OfBroker);
  }

  lemma {:induction false} KeepRendered(items: seq<Item>, which: Sse -> bool)
    requires items != []
    ensures var (init, last) := (items[..|items| - 1], items[|items| - 1]);
            Keep(Render(items), which) == Keep(Render(init), which) + Keep(Chunks(last), which)
  {
    KeepAppend(Render(items[..|items| - 1]), Chunks(items[|items| - 1]), which);
  }

  /** What such a prefix renders to, split by where it came from. */
  ghost predicate Parts(items: seq<Item>, evs: seq<Event>, asks: seq<Ask>) {
    && Keep(Render(items), OfRunner) == RenderEvents(evs)
    && Keep(Render(items), OfBroker) == RenderAsks(asks)
    && Keep(Render(items), Terminal) == []
    && LastDone(items) == LastDone(Events(evs))
  }

  lemma {:induction false} AskExtendsParts(items: seq<Item>, evs: seq<Event>, asks: seq<Ask>, ask: Ask)
    requires Parts(items, evs, asks)
    ensures Parts(items + [FromBroker(ask)], evs, asks + [ask])
  {
    var all := items + [FromBroker(ask)];
    assert all[..|all| - 1] == items;
    KeepRendered(all, OfRunner);
    KeepRendered(all, OfBroker);
    KeepRendered(all, Terminal);
    KeepSplits([PermissionRequest(ask)], OfBroker, OfRunner);
    assert (asks + [ask])[..|asks|] == asks;
  }

  lemma {:induction false} EventExtendsParts(items: seq<Item>, evs: seq<Event>, asks: seq<Ask>, ev: Event)
    requires Parts(items, evs, asks)
    ensures Parts(items + [FromRunner(ev)], evs + [ev], asks)
  {
    var all := items + [FromRunner(ev)];
    assert all[..|all| - 1] == items && (evs + [ev])[..|evs|] == evs;
    KeepRendered(all, OfRunner);
    KeepRendered(all, OfBroker);
    KeepRendered(all, Terminal);
    KeepTranslated(ev);
    LastDoneOfEvents(items, evs, ev);
  }

  lemma LastDoneOfEvents(items: seq<Item>, evs: seq<Event>, ev: Event)
    requires LastDone(items) == LastDone(Events(evs))
    ensures LastDone(items + [FromRunner(ev)]) == LastDone(Events(evs + [ev]))
  {
    EventsMore(evs, ev);
    assert (items + [FromRunner(ev)])[..|items|] == items;
    assert (Events(evs) + [FromRunner(ev)])[..|Events(evs)|] == Events(evs);
  }

  lemma LastAsk(before: seq<Item>, last: Item, asks: seq<Ask>)
    requires before + [last] == Asks(asks)
    ensures asks != [] && last == FromBroker(asks[|asks| - 1]) && before == Asks(asks[..|asks| - 1])
  {
    AsksShape(asks);
    assert asks != [];
    var whole := before + [last];
    assert whole[|whole| - 1] == last && whole[..|whole| - 1] == before;
  }

  lemma LastEvent(before: seq<Item>, last: Item, evs: seq<Event>)
    requires before + [last] == Events(evs)
    ensures evs != [] && last == FromRunner(evs[|evs| - 1]) && before == Events(evs[..|evs| - 1])
  {
    EventsShape(evs);
    assert evs != [];
    var whole := before + [last];
    assert whole[|whole| - 1] == last && whole[..|whole| - 1] == before;
  }

  lemma {:induction false} AskWasLast(init: seq<Item>, last: Item, evs: seq<Event>, asks: seq<Ask>)
    requires last.FromBroker?
    requires RunnerItems(init + [last]) == Events(evs) && BrokerItems(init + [last]) == Asks(asks)
    ensures asks != [] && last == FromBroker(asks[|asks| - 1])
    ensures RunnerItems(init) == Events(evs) && BrokerItems(init) == Asks(asks[..|asks| - 1])
  {
    PutKeeps(init, last);
    AppendNil(RunnerItems(init));
    LastAsk(BrokerItems(init), last, asks);
  }

  lemma {:induction false} EventWasLast(init: seq<Item>, last: Item, evs: seq<Event>, asks: seq<Ask>)
    requires !last.FromBroker?
    requires RunnerItems(init + [last]) == Events(evs) && BrokerItems(init + [last]) == Asks(asks)
    ensures evs != [] && last == FromRunner(evs[|evs| - 1])
    ensures RunnerItems(init) == Events(evs[..|evs| - 1]) && BrokerItems(init) == Asks(asks)
  {
    PutKeeps(init, last);
    AppendNil(BrokerItems(init));
    LastEvent(RunnerItems(init), last, evs);
  }

  lemma {:induction false} NothingToSplit(evs: seq<Event>, asks: seq<Ask>)
    requires Events(evs) == [] && Asks(asks) == []
    ensures Parts([], evs, asks)
  {
    EventsShape(evs);
    AsksShape(asks);
  }

  lemma {:induction false} PartsOfPrefix(items: seq<Item>, evs: seq<Event>, asks: seq<Ask>)
    requires RunnerItems(items) == Events(evs) && BrokerItems(items) == Asks(asks)
    ensures Parts(items, evs, asks)
  {
    if items == [] {
      NothingToSplit(evs, asks);
    } else {
      var init, last := items[..|items| - 1], items[|items| - 1];
      AppendLast(items);
      if last.FromBroker? {
        AskWasLast(init, last, evs, asks);
        AppendLast(asks);
        PartsOfPrefix(init, evs, asks[..|asks| - 1]);
        AskExtendsParts(init, evs, asks[..|asks| - 1], last.ask);
      } else {
        EventWasLast(init, last, evs, asks);
        AppendLast(evs);
        PartsOfPrefix(init, evs[..|evs| - 1], asks);
        EventExtendsParts(init, evs[..|evs| - 1], asks, last.ev);
      }
    }
  }

  lemma {:induction false} ItemsAppend(a: seq<Item>, b: seq<Item>)
    ensures RunnerItems(a + b) == RunnerItems(a) + RunnerItems(b)
    ensures BrokerItems(a + b) == BrokerItems(a) + BrokerItems(b)
  {
    if b == [] {
      assert a + b == a;
    } else {
      assert (a + b)[..|a + b| - 1] == a + b[..|b| - 1];
      ItemsAppend(a, b[..|b| - 1]);
    }
  }

  lemma {:induction false} RunnerItemsStop(items: seq<Item>)
    requires forall k :: 0 <= k < |items| ==> !Stops(items[k])
    ensures forall k :: 0 <= k < |RunnerItems(items)| ==> !Stops(RunnerItems(items)[k])
  {
    if items != [] { RunnerItemsStop(items[..|items| - 1]); }
  }

  /** Two ways to cut a sequence before its first stopping item are one. */
  lemma FirstStop(all: seq<Item>, r: seq<Item>, stop: Item, e: seq<Item>, v: seq<Item>)
    requires all == e + v && v != [] && Stops(v[0]) && forall k :: 0 <= k < |e| ==> !Stops(e[k])
    requires r + [stop] <= all && Stops(stop) && forall k :: 0 <= k < |r| ==> !Stops(r[k])
    ensures r == e && stop == v[0]
  {
    assert all[|r|] == stop && all[|e|] == v[0];
    assert forall k :: 0 <= k < |e| ==> all[k] == e[k];
    assert forall k :: 0 <= k < |r| ==> all[k] == r[k];
    assert r == all[..|r|] && e == all[..|e|];
  }

  /** What the reader took, up to the item it stopped on, is a prefix of what was put. */
  lemma {:induction false} TakenIsPrefix(pre: seq<Item>, stop: Item, queue: seq<Item>)
    requires !stop.FromBroker?
    ensures RunnerItems(pre) + [stop] <= RunnerItems(pre + [stop] + queue)
    ensures BrokerItems(pre) <= BrokerItems(pre + [stop] + queue)
  {
    ItemsAppend(pre + [stop], queue);
    PutKeeps(pre, stop);
    AppendNil(BrokerItems(pre));
  }

  /** The reader stops behind all of the runner's events, on the runner's verdict or its end marker. */
  lemma {:induction false} ReaderSawEverything(s: State, pre: seq<Item>, stop: Item)
    requires PutsFit(s) && ReaderFits(s) && s.reader == Closed && s.taken == pre + [stop]
    ensures RunnerItems(pre) == Events(s.produced)
    ensures stop == (Verdict(s.runner.how) + [End])[0]
  {
    InitLast(pre, stop);
    assert forall k :: 0 <= k < |pre| ==> pre[k] == s.taken[k];
    TakenIsPrefix(pre, stop, s.queue);
    RunnerItemsStop(pre);
    EventsShape(s.produced);
    FirstStop(RunnerItems(s.taken + s.queue), RunnerItems(pre), stop,
              Events(s.produced), Verdict(s.runner.how) + [End]);
  }

  /** The requests among a prefix of what was put are a prefix of those asked. */
  lemma {:induction false} AsksPrefix(some: seq<Item>, all: seq<Item>, waiting: seq<Item>, asks: seq<Ask>)
    requires some <= all && all + waiting == Asks(asks)
    ensures |some| <= |asks| && some == Asks(asks[..|some|])
  {
    AsksShape(asks);
    assert |all| + |waiting| == |asks|;
    AsksShape(asks[..|some|]);
    assert forall k :: 0 <= k < |some| ==> some[k] == all[k] == (all + waiting)[k] == Asks(asks)[k];
  }

  /** The item the reader stops on renders as the runner's error, if there is one. */
  lemma {:induction false} StopRenders(pre: seq<Item>, stop: Item, how: Outcome)
    requires stop == (Verdict(how) + [End])[0]
    ensures Render(pre + [stop]) == Render(pre) + ErrorOf(how) && LastDone(pre + [stop]) == LastDone(pre)
  {
    InitLast(pre, stop);
  }

  /** The same of one closed state: its output is the merge, the error and the done event. */
  lemma {:induction false} ClosedState(s: State, pre: seq<Item>, stop: Item) returns (k: nat)
    requires PutsFit(s) && ReaderFits(s) && s.reader == Closed && s.taken == pre + [stop]
    ensures s.runner.Ended? && k <= |s.asked|
    ensures s.out == Render(pre) + ErrorOf(s.runner.how) + [Done(FinalText(Events(s.produced)))]
    ensures Parts(pre, s.produced, s.asked[..k])
  {
    ReaderSawEverything(s, pre, stop);
    TakenIsPrefix(pre, stop, s.queue);
    AsksPrefix(BrokerItems(pre), BrokerItems(s.taken + s.queue), Asks(s.waiting), s.asked);
    k := |BrokerItems(pre)|;
    PartsOfPrefix(pre, s.produced, s.asked[..k]);
    StopRenders(pre, stop, s.runner.how);
  }

  /**
   * A completed stream is the merge, then the error if the runner did not finish, then one done event.
   * The merge holds every event the runner yielded, in order, and the first `k` permission requests, in
   * order; it holds no error and no done.
   */
  lemma {:induction false} CompletedStream(steps: seq<Step>) returns (body: seq<Sse>, k: nat)
    requires Run(steps).reader == Closed
    ensures var s := Run(steps);
            && s.runner.Ended? && k <= |s.asked|
            && s.out == body + ErrorOf(s.runner.how) + [Done(FinalText(Events(s.produced)))]
            && Keep(body, OfRunner) == RenderEvents(s.produced)
            && Keep(body, OfBroker) == RenderAsks(s.asked[..k])
            && Keep(body, Terminal) == []
  {
    RunInv(steps);
    var taken := Run(steps).taken;
    AppendLast(taken);
    k := ClosedState(Run(steps), taken[..|taken| - 1], taken[|taken| - 1]);
    body := Render(taken[..|taken| - 1]);
  }

  lemma {:induction false} NoneKept(chunks: seq<Sse>)
    requires Keep(chunks, Terminal) == []
    ensures forall i :: 0 <= i < |chunks| ==> !Terminal(chunks[i])
  {
    if chunks != [] { NoneKept(chunks[..|chunks| - 1]); }
  }

  /** Where the done event and the error are in such an output. */
  lemma {:induction false} EndOf(out: seq<Sse>, body: seq<Sse>, error: seq<Sse>, text: string, how: Outcome)
    requires out == body + error + [Done(text)] && error == ErrorOf(how) && Keep(body, Terminal) == []
    ensures |out| > 0
    ensures forall i :: 0 <= i < |out| ==> (out[i].Done? <==> i == |out| - 1)
    ensures forall i :: 0 <= i < |out| ==> (out[i].Error? <==> i == |out| - 2 && how != Finished)
  {
    NoneKept(body);
    forall i | 0 <= i < |body| ensures !out[i].Done? && !out[i].Error? {
      assert out[i] == body[i] && !Terminal(body[i]);
    }
    assert forall i :: |body| <= i < |out| - 1 ==> out[i] == error[i - |body|];
  }

  /** Exactly one done event, the last; an error exactly when the runner did not finish, just before it. */
  lemma {:induction false} ErrorAndDoneAtTheEnd(steps: seq<Step>)
    requires Run(steps).reader == Closed
    ensures var (s, n) := (Run(steps), |Run(steps).out|);
            && n > 0
            && (forall i :: 0 <= i < n ==> (s.out[i].Done? <==> i == n - 1))
            && (forall i :: 0 <= i < n ==> (s.out[i].Error? <==> i == n - 2 && s.runner != Ended(Finished)))
  {
    var body, k := CompletedStream(steps);
    var s := Run(steps);
    EndOf(s.out, body, ErrorOf(s.runner.how), FinalText(Events(s.produced)), s.runner.how);
  }
}
