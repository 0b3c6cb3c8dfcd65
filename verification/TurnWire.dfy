/** The events of a turn on the wire, and what `collect_sse` reads of a completed stream. */
module TurnWire {
  import opened Json
  import opened Text
  import S = Sse
  import T = Turns

  function Digit(d: nat): (r: string)
    requires d < 10
  {
    [('0' as int + d) as char]
  }

  function NatText(n: nat): (r: string) {
    if n < 10 then Digit(n) else NatText(n / 10) + Digit(n % 10)
  }

  /** An integer as Python prints it. */
  function IntText(n: int): (r: string) {
    if n < 0 then "-" + NatText(-n) else NatText(n)
  }

  function NameOf(c: T.Sse): (r: string) {
    match c
    case Delta(_) => "delta"
    case ToolCall(_, _, _) => "tool_call"
    case ToolOutput(_, _) => "tool_output"
    case PermissionRequest(_) => "permission_request"
    case UsageTotals(_) => "usage"
    case Error(_, _) => "error"
    case Done(_) => "done"
  }

  function DataOf(c: T.Sse, turnId: string): (r: Value) {
    match c
    case Delta(text) => Obj([Field("text", Str(text))])
    case ToolCall(id, name, args) => Obj([Field("id", Str(id)), Field("name", Str(name)), Field("args", args)])
    case ToolOutput(id, output) => Obj([Field("id", Str(id)), Field("output", Str(output))])
    case PermissionRequest(ask) =>
      Obj([Field("tool_call_id", Str(ask.callId)), Field("tool", Str(ask.tool)), Field("args", ask.args)])
    case UsageTotals(u) =>
      Obj([Field("input_tokens", Num(IntText(u.inputTokens))), Field("output_tokens", Num(IntText(u.outputTokens))),
           Field("cost_usd_micro", Num(IntText(u.costMicro)))])
    case Error(kind, message) => Obj([Field("kind", Str(kind)), Field("message", Str(message))])
    case Done(text) => Obj([Field("turn_id", Str(turnId)), Field("final_text", Str(text))])
  }

  /** The event constructors of `sse.py`. */
  function Wire(c: T.Sse, turnId: string): (r: S.Record) {
    S.Record(NameOf(c), DataOf(c, turnId))
  }

  function WireAll(out: seq<T.Sse>, turnId: string): (r: seq<S.Record>) {
    if out == [] then [] else [Wire(out[0], turnId)] + WireAll(out[1..], turnId)
  }

  /** Tool arguments come from parsed JSON, so their numbers print. */
  predicate ArgsPrint(c: T.Sse) {
    match c
    case ToolCall(_, _, args) => NumbersPrint(args)
    case PermissionRequest(ask) => NumbersPrint(ask.args)
    case _ => true
  }

  lemma {:induction false} NatTextPrints(n: nat)
    ensures Printable(NatText(n))
  {
    if n >= 10 { NatTextPrints(n / 10); }
  }

  /** A name of small letters and underscores. */
  predicate OneWord(s: string) {
    s != "" && forall i :: 0 <= i < |s| ==> 'a' <= s[i] <= 'z' || s[i] == '_'
  }

  lemma {:induction false} NamesAreWords(c: T.Sse)
    ensures OneWord(NameOf(c))
  {
  }

  lemma {:induction false} WordSurvives(s: string)
    requires OneWord(s)
    ensures S.OneLine(s) && Strip(s) == s
  {
    assert !IsSpace(s[0]) && !IsSpace(s[|s| - 1]);
    StripOf("", s, "");
    assert "" + s + "" == s;
  }

  lemma {:induction false} OneFieldPrints(a: Field)
    requires NumbersPrint(a.value)
    ensures NumbersPrint(Obj([a]))
  {
  }

  lemma {:induction false} TwoFieldsPrint(a: Field, b: Field)
    requires NumbersPrint(a.value) && NumbersPrint(b.value)
    ensures NumbersPrint(Obj([a, b]))
  {
  }

  lemma {:induction false} ThreeFieldsPrint(a: Field, b: Field, c: Field)
    requires NumbersPrint(a.value) && NumbersPrint(b.value) && NumbersPrint(c.value)
    ensures NumbersPrint(Obj([a, b, c]))
  {
  }

  lemma {:induction false} DataPrints(c: T.Sse, turnId: string)
    requires ArgsPrint(c)
    ensures NumbersPrint(DataOf(c, turnId))
  {
    match c
    case Delta(text) => OneFieldPrints(Field("text", Str(text)));
    case ToolCall(id, name, args) =>
      ThreeFieldsPrint(Field("id", Str(id)), Field("name", Str(name)), Field("args", args));
    case ToolOutput(id, output) => TwoFieldsPrint(Field("id", Str(id)), Field("output", Str(output)));
    case PermissionRequest(ask) =>
      ThreeFieldsPrint(Field("tool_call_id", Str(ask.callId)), Field("tool", Str(ask.tool)), Field("args", ask.args));
    case UsageTotals(u) =>
      IntTextPrints(u.inputTokens);
      IntTextPrints(u.outputTokens);
      IntTextPrints(u.costMicro);
      ThreeFieldsPrint(Field("input_tokens", Num(IntText(u.inputTokens))),
                       Field("output_tokens", Num(IntText(u.outputTokens))),
                       Field("cost_usd_micro", Num(IntText(u.costMicro))));
    case Error(kind, message) => TwoFieldsPrint(Field("kind", Str(kind)), Field("message", Str(message)));
    case Done(text) => TwoFieldsPrint(Field("turn_id", Str(turnId)), Field("final_text", Str(text)));
  }

  lemma {:induction false} WireIsClean(c: T.Sse, turnId: string)
    requires ArgsPrint(c)
    ensures var r := Wire(c, turnId);
            && S.OneLine(r.name) && NumbersPrint(r.data)
            && S.Received(r) == [(r.name, Dumps(r.data))]
  {
    NamesAreWords(c);
    WordSurvives(NameOf(c));
    DataPrints(c, turnId);
  }

  lemma IntTextPrints(n: int)
    ensures Printable(IntText(n))
  {
    NatTextPrints(if n < 0 then -n else n);
  }

  lemma {:induction false} WireAllAt(out: seq<T.Sse>, turnId: string)
    ensures |WireAll(out, turnId)| == |out|
    ensures forall i :: 0 <= i < |out| ==> WireAll(out, turnId)[i] == Wire(out[i], turnId)
  {
    if out != [] { WireAllAt(out[1..], turnId); }
  }

  /** `collect_sse` reads one record per streamed event, with that event's name and payload, in order. */
  lemma {:induction false} CollectReadsTheStream(out: seq<T.Sse>, turnId: string)
    requires forall i :: 0 <= i < |out| ==> ArgsPrint(out[i])
    ensures var parsed := S.Parse(S.EncodeAll(WireAll(out, turnId)));
            && |parsed| == |out|
            && forall i :: 0 <= i < |out| ==>
                 parsed[i] == (Wire(out[i], turnId).name, Dumps(Wire(out[i], turnId).data))
  {
    var rs := WireAll(out, turnId);
    WireAllAt(out, turnId);
    forall i | 0 <= i < |rs|
      ensures S.OneLine(rs[i].name) && NumbersPrint(rs[i].data)
      ensures S.Received(rs[i]) == [(rs[i].name, Dumps(rs[i].data))]
    {
      WireIsClean(out[i], turnId);
    }
    S.ParseEncoded(rs);
    S.ReceivedAllAt(rs);
  }

  lemma NameTellsKind(c: T.Sse, turnId: string)
    ensures Wire(c, turnId).name == "done" <==> c.Done?
    ensures Wire(c, turnId).name == "error" <==> c.Error?
  {
  }

  /** Of a completed turn it reads exactly one "done", as the last record, and an "error" only just before it. */
  lemma CollectedTurn(steps: seq<T.Step>, turnId: string)
    requires T.Run(steps).reader == T.Closed
    requires forall i :: 0 <= i < |T.Run(steps).out| ==> ArgsPrint(T.Run(steps).out[i])
    ensures var parsed := S.Parse(S.EncodeAll(WireAll(T.Run(steps).out, turnId)));
            var n := |parsed|;
            && n > 0
            && (forall i :: 0 <= i < n ==> (parsed[i].0 == "done" <==> i == n - 1))
            && (forall i :: 0 <= i < n ==>
                  (parsed[i].0 == "error" <==> i == n - 2 && T.Run(steps).runner != T.Ended(T.Finished)))
  {
    T.ErrorAndDoneAtTheEnd(steps);
    ParsedShape(T.Run(steps).out, turnId, T.Run(steps).runner != T.Ended(T.Finished));
  }

  lemma ParsedShape(out: seq<T.Sse>, turnId: string, failed: bool)
    requires forall i :: 0 <= i < |out| ==> ArgsPrint(out[i])
    requires forall i :: 0 <= i < |out| ==> (out[i].Done? <==> i == |out| - 1)
    requires forall i :: 0 <= i < |out| ==> (out[i].Error? <==> i == |out| - 2 && failed)
    ensures var parsed := S.Parse(S.EncodeAll(WireAll(out, turnId)));
            && |parsed| == |out|
            && (forall i :: 0 <= i < |parsed| ==> (parsed[i].0 == "done" <==> i == |parsed| - 1))
            && (forall i :: 0 <= i < |parsed| ==> (parsed[i].0 == "error" <==> i == |parsed| - 2 && failed))
  {
    CollectReadsTheStream(out, turnId);
    forall i | 0 <= i < |out|
      ensures Wire(out[i], turnId).name == "done" <==> i == |out| - 1
      ensures Wire(out[i], turnId).name == "error" <==> i == |out| - 2 && failed
    {
      NameTellsKind(out[i], turnId);
    }
  }
}
