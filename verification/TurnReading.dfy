/** The turn a client reads from the wire. */
module TurnReading {
  import opened Json
  import opened JsonReading
  import opened Options
  import opened Sequences
  import opened TurnWire
  import S = Sse
  import T = Turns
  import E = TurnEvents

  // ---------------------------------------------------------------- a client

  function DigitsOf(s: string): (r: Option<int>) {
    if s == "" then Some(0)
    else
      var (init, last) := (s[..|s| - 1], s[|s| - 1]);
      match DigitsOf(init)
      case Some(n) => if '0' <= last <= '9' then Some(n * 10 + (last as int - '0' as int)) else None
      case None => None
  }

  /** The integer a lexeme stands for. */
  function IntOf(s: string): (r: Option<int>) {
    if !Starts(s, '-') then DigitsOf(s)
    else match DigitsOf(s[1..]) case Some(n) => Some(-n) case None => None
  }

  /** `data.get(name)`; of two equal names the later one counts. */
  function Get(v: Value, name: string): (r: Option<Value>) {
    if v.Obj? then FieldOf(v.fields, name) else None
  }

  function FieldOf(fields: seq<Field>, name: string): (r: Option<Value>) {
    if fields == [] then None
    else
      var last := fields[|fields| - 1];
      if last.name == name then Some(last.value) else FieldOf(fields[..|fields| - 1], name)
  }

  function GetText(v: Value, name: string): (r: Option<string>) {
    match Get(v, name)
    case Some(Str(s)) => Some(s)
    case _ => None
  }

  function GetInt(v: Value, name: string): (r: Option<int>) {
    match Get(v, name)
    case Some(Num(lexeme)) => IntOf(lexeme)
    case _ => None
  }

  datatype Kind = Text | Call | Output | Request | Usage | Failure | End

  /** The event names of the HTTP interface. */
  function KindOf(name: string): (r: Option<Kind>) {
    if name == "delta" then Some(Text)
    else if name == "tool_call" then Some(Call)
    else if name == "tool_output" then Some(Output)
    else if name == "permission_request" then Some(Request)
    else if name == "usage" then Some(Usage)
    else if name == "error" then Some(Failure)
    else if name == "done" then Some(End)
    else None
  }

  /** The event of a payload, by its field names there. */
  function Decoded(kind: Kind, v: Value): (r: Option<T.Sse>) {
    match kind
    case Text => (match GetText(v, "text") case Some(text) => Some(T.Delta(text)) case None => None)
    case Call =>
      (match (GetText(v, "id"), GetText(v, "name"), Get(v, "args"))
       case (Some(id), Some(tool), Some(args)) => Some(T.ToolCall(id, tool, args))
       case _ => None)
    case Output =>
      (match (GetText(v, "id"), GetText(v, "output"))
       case (Some(id), Some(output)) => Some(T.ToolOutput(id, output))
       case _ => None)
    case Request =>
      (match (GetText(v, "tool_call_id"), GetText(v, "tool"), Get(v, "args"))
       case (Some(id), Some(tool), Some(args)) => Some(T.PermissionRequest(T.Ask(id, tool, args)))
       case _ => None)
    case Usage =>
      (match (GetInt(v, "input_tokens"), GetInt(v, "output_tokens"), GetInt(v, "cost_usd_micro"))
       case (Some(i), Some(o), Some(c)) => Some(T.UsageTotals(T.Usage(i, o, c)))
       case _ => None)
    case Failure =>
      (match (GetText(v, "kind"), GetText(v, "message"))
       case (Some(what), Some(message)) => Some(T.Error(what, message))
       case _ => None)
    case End => (match GetText(v, "final_text") case Some(text) => Some(T.Done(text)) case None => None)
  }

  /** What a client makes of one record. */
  function EventOf(parsed: (string, string)): (r: Option<T.Sse>) {
    match (KindOf(parsed.0), Loads(parsed.1))
    case (Some(kind), Some(v)) => Decoded(kind, v)
    case _ => None
  }

  // ---------------------------------------------------------------- numbers

  lemma {:induction false} NatReads(n: nat)
    ensures DigitsOf(NatText(n)) == Some(n) && NatText(n) != "" && '0' <= NatText(n)[0] <= '9'
    ensures forall i :: 0 <= i < |NatText(n)| ==> '0' <= NatText(n)[i] <= '9'
  {
    if n < 10 {
      assert NatText(n)[..0] == "";
    } else {
      NatReads(n / 10);
      InitLast(NatText(n / 10), ('0' as int + n % 10) as char);
    }
  }

  lemma {:induction false} IntReads(n: int)
    ensures IntOf(IntText(n)) == Some(n) && IsNumber(IntText(n))
  {
    NatReads(if n < 0 then -n else n);
    if n < 0 { assert IntText(n)[1..] == NatText(-n); }
  }

  // ---------------------------------------------------------------- payloads

  lemma {:induction false} OneField(a: Field)
    ensures Get(Obj([a]), a.name) == Some(a.value)
    ensures Numeric(a.value) ==> Numeric(Obj([a]))
  {
  }

  lemma {:induction false} TwoFields(a: Field, b: Field)
    requires a.name != b.name
    ensures Get(Obj([a, b]), a.name) == Some(a.value) && Get(Obj([a, b]), b.name) == Some(b.value)
    ensures Numeric(a.value) && Numeric(b.value) ==> Numeric(Obj([a, b]))
  {
    assert [a, b][..1] == [a];
    OneField(a);
  }

  lemma {:induction false} ThreeFields(a: Field, b: Field, c: Field)
    requires a.name != b.name && a.name != c.name && b.name != c.name
    ensures var v := Obj([a, b, c]);
            Get(v, a.name) == Some(a.value) && Get(v, b.name) == Some(b.value) && Get(v, c.name) == Some(c.value)
    ensures Numeric(a.value) && Numeric(b.value) && Numeric(c.value) ==> Numeric(Obj([a, b, c]))
  {
    assert [a, b, c][..2] == [a, b];
    TwoFields(a, b);
  }

  /** Tool arguments come from parsed JSON: their numbers are numbers. */
  predicate ArgsNumeric(c: T.Sse) {
    match c
    case ToolCall(_, _, args) => Numeric(args)
    case PermissionRequest(ask) => Numeric(ask.args)
    case _ => true
  }

  /** A payload that is decoded as `c`. */
  ghost predicate Decodes(kind: Kind, v: Value, c: T.Sse) {
    Numeric(v) && Decoded(kind, v) == Some(c)
  }

  lemma {:induction false} TextDecodes(text: string, turnId: string)
    ensures Decodes(Text, DataOf(T.Delta(text), turnId), T.Delta(text))
  {
    OneField(Field("text", Str(text)));
  }

  lemma {:induction false} CallDecodes(id: string, tool: string, args: Value, turnId: string)
    requires Numeric(args)
    ensures Decodes(Call, DataOf(T.ToolCall(id, tool, args), turnId), T.ToolCall(id, tool, args))
  {
    ThreeFields(Field("id", Str(id)), Field("name", Str(tool)), Field("args", args));
  }

  lemma {:induction false} OutputDecodes(id: string, output: string, turnId: string)
    ensures Decodes(Output, DataOf(T.ToolOutput(id, output), turnId), T.ToolOutput(id, output))
  {
    TwoFields(Field("id", Str(id)), Field("output", Str(output)));
  }

  lemma {:induction false} RequestDecodes(ask: T.Ask, turnId: string)
    requires Numeric(ask.args)
    ensures Decodes(Request, DataOf(T.PermissionRequest(ask), turnId), T.PermissionRequest(ask))
  {
    ThreeFields(Field("tool_call_id", Str(ask.callId)), Field("tool", Str(ask.tool)), Field("args", ask.args));
  }

  lemma {:induction false} TotalsDecode(v: Value, u: T.Usage)
    requires Numeric(v) && GetInt(v, "input_tokens") == Some(u.inputTokens)
    requires GetInt(v, "output_tokens") == Some(u.outputTokens) && GetInt(v, "cost_usd_micro") == Some(u.costMicro)
    ensures Decodes(Usage, v, T.UsageTotals(u))
  {
  }

  lemma {:induction false} UsageDecodes(u: T.Usage, turnId: string)
    ensures Decodes(Usage, DataOf(T.UsageTotals(u), turnId), T.UsageTotals(u))
  {
    IntReads(u.inputTokens);
    IntReads(u.outputTokens);
    IntReads(u.costMicro);
    ThreeFields(Field("input_tokens", Num(IntText(u.inputTokens))),
                Field("output_tokens", Num(IntText(u.outputTokens))),
                Field("cost_usd_micro", Num(IntText(u.costMicro))));
    TotalsDecode(DataOf(T.UsageTotals(u), turnId), u);
  }

  lemma {:induction false} FailureDecodes(what: string, message: string, turnId: string)
    ensures Decodes(Failure, DataOf(T.Error(what, message), turnId), T.Error(what, message))
  {
    TwoFields(Field("kind", Str(what)), Field("message", Str(message)));
  }

  lemma {:induction false} EndDecodes(text: string, turnId: string)
    ensures Decodes(End, DataOf(T.Done(text), turnId), T.Done(text))
    ensures Get(DataOf(T.Done(text), turnId), "turn_id") == Some(Str(turnId))
  {
    TwoFields(Field("turn_id", Str(turnId)), Field("final_text", Str(text)));
  }

  lemma {:induction false} PayloadDecodes(c: T.Sse, turnId: string) returns (kind: Kind)
    requires ArgsNumeric(c)
    ensures KindOf(NameOf(c)) == Some(kind) && Decodes(kind, DataOf(c, turnId), c)
  {
    match c
    case Delta(text) => TextDecodes(text, turnId); kind := Text;
    case ToolCall(id, name, args) => CallDecodes(id, name, args, turnId); kind := Call;
    case ToolOutput(id, output) => OutputDecodes(id, output, turnId); kind := Output;
    case PermissionRequest(ask) => RequestDecodes(ask, turnId); kind := Request;
    case UsageTotals(u) => UsageDecodes(u, turnId); kind := Usage;
    case Error(what, message) => FailureDecodes(what, message, turnId); kind := Failure;
    case Done(text) => EndDecodes(text, turnId); kind := End;
  }

  // ---------------------------------------------------------------- whole streams

  lemma {:induction false} NumericArgsPrint(c: T.Sse)
    requires ArgsNumeric(c)
    ensures ArgsPrint(c)
  {
    match c
    case ToolCall(_, _, args) => NumericPrints(args);
    case PermissionRequest(ask) => NumericPrints(ask.args);
    case _ =>
  }

  /** One record per event, and each is read as that event. */
  ghost predicate ReadsAs(parsed: seq<(string, string)>, out: seq<T.Sse>) {
    |parsed| == |out| && forall i :: 0 <= i < |out| ==> EventOf(parsed[i]) == Some(out[i])
  }

  /** Printing a stream of events, parsing the text and decoding the payloads gives the events, whatever they hold. */
  lemma {:induction false} StreamReadsBack(out: seq<T.Sse>, turnId: string)
    requires forall i :: 0 <= i < |out| ==> ArgsNumeric(out[i])
    ensures ReadsAs(S.Parse(S.EncodeAll(WireAll(out, turnId))), out)
  {
    forall i | 0 <= i < |out| ensures ArgsPrint(out[i]) { NumericArgsPrint(out[i]); }
    CollectReadsTheStream(out, turnId);
    var parsed := S.Parse(S.EncodeAll(WireAll(out, turnId)));
    forall i | 0 <= i < |out| ensures EventOf(parsed[i]) == Some(out[i]) {
      var kind := PayloadDecodes(out[i], turnId);
      LoadsDumps(DataOf(out[i], turnId));
    }
  }

  /** The payload is an object with the turn's id and this final text. */
  ghost predicate Answers(payload: string, turnId: string, text: string) {
    match Loads(payload)
    case Some(v) => Get(v, "turn_id") == Some(Str(turnId)) && Get(v, "final_text") == Some(Str(text))
    case None => false
  }

  lemma {:induction false} DoneAnswers(text: string, turnId: string)
    ensures Answers(Dumps(DataOf(T.Done(text), turnId)), turnId, text)
  {
    EndDecodes(text, turnId);
    LoadsDumps(DataOf(T.Done(text), turnId));
  }

  /**
   * What the non-streaming route answers of a completed turn: only the last record is named "done", and it carries
   * the turn's id and the final output of the last `StreamDone` the runner yielded.
   */
  lemma {:induction false} CollectedAnswer(steps: seq<T.Step>, turnId: string, k: int)
    requires T.Run(steps).reader == T.Closed && E.LastDoneAt(T.Run(steps).produced, k)
    requires forall i :: 0 <= i < |T.Run(steps).out| ==> ArgsNumeric(T.Run(steps).out[i])
    ensures var (s, parsed) := (T.Run(steps), S.Parse(S.EncodeAll(WireAll(T.Run(steps).out, turnId))));
            var n := |parsed|;
            && n > 0 && (forall i :: 0 <= i < n ==> (parsed[i].0 == "done" <==> i == n - 1))
            && Answers(parsed[n - 1].1, turnId, if k >= 0 then s.produced[k].finalOutput else "")
  {
    var s := T.Run(steps);
    forall i | 0 <= i < |s.out| ensures ArgsPrint(s.out[i]) { NumericArgsPrint(s.out[i]); }
    CollectedTurn(steps, turnId);
    CollectReadsTheStream(s.out, turnId);
    E.CompletedTurnEnds(steps, k);
    DoneAnswers(if k >= 0 then s.produced[k].finalOutput else "", turnId);
  }
}
