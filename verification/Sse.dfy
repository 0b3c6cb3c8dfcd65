/** The server-sent-event printer and the parser the non-streaming route uses on its output. */
module Sse {
  import opened Json
  import opened Sequences
  import opened Text

  datatype Record = Record(name: string, data: Value)

  /** `encode_event`. */
  function Encode(r: Record): (result: string) {
    "event: " + r.name + "\ndata: " + Dumps(r.data) + "\n\n"
  }

  function EncodeAll(rs: seq<Record>): (r: string) {
    if rs == [] then "" else Encode(rs[0]) + EncodeAll(rs[1..])
  }

  // ---------------------------------------------------------------- the parser

  /** The rest of a parse: `name` and `data` are the fields of the record being read. */
  function ParseLines(lines: seq<string>, name: string, data: seq<string>): (r: seq<(string, string)>) {
    if lines == [] then []
    else
      var line, rest := lines[0], lines[1..];
      if line == "" then (if name != "" then [(name, Join(data, "\n"))] else []) + ParseLines(rest, "", [])
      else if "event: " <= line then ParseLines(rest, Strip(line[7..]), data)
      else if "data: " <= line then ParseLines(rest, name, data + [line[6..]])
      else ParseLines(rest, name, data)
  }

  function Parse(text: string): (r: seq<(string, string)>) {
    ParseLines(Split(text, '\n'), "", [])
  }

  /** `_parse_sse`. */
  method ParseSse(text: string) returns (out: seq<(string, string)>)
    ensures out == Parse(text)
  {
    var lines := Split(text, '\n');
    var name: string, data: seq<string> := "", [];
    out := [];
    assert lines[0..] == lines;
    for i := 0 to |lines|
      invariant out + ParseLines(lines[i..], name, data) == Parse(text)
    {
      var line := lines[i];
      assert lines[i..][1..] == lines[i + 1..];
      ghost var before, r := out, ParseLines(lines[i..], name, data);
      if line == "" {
        ghost var emitted := if name != "" then [(name, Join(data, "\n"))] else [];
        if name != "" { out := out + [(name, Join(data, "\n"))]; }
        name, data := "", [];
        assert before + (emitted + ParseLines(lines[i + 1..], "", [])) == out + ParseLines(lines[i + 1..], "", []);
      } else if "event: " <= line {
        name := Strip(line[|"event: "|..]);
      } else if "data: " <= line {
        data := data + [line[|"data: "|..]];
      }
    }
    assert lines[|lines|..] == [];
  }

  // ---------------------------------------------------------------- reading back

  /** What a record with a one-line name is read back as: the name is stripped, an empty one is dropped. */
  function Received(r: Record): (result: seq<(string, string)>) {
    if Strip(r.name) == "" then [] else [(Strip(r.name), Dumps(r.data))]
  }

  function ReceivedAll(rs: seq<Record>): (r: seq<(string, string)>) {
    if rs == [] then [] else Received(rs[0]) + ReceivedAll(rs[1..])
  }

  /** Records that all survive are received one for one. */
  lemma {:induction false} ReceivedAllAt(rs: seq<Record>)
    requires forall i :: 0 <= i < |rs| ==> Received(rs[i]) == [(rs[i].name, Dumps(rs[i].data))]
    ensures |ReceivedAll(rs)| == |rs|
    ensures forall i :: 0 <= i < |rs| ==> ReceivedAll(rs)[i] == (rs[i].name, Dumps(rs[i].data))
  {
    if rs != [] { ReceivedAllAt(rs[1..]); }
  }

  predicate OneLine(s: string) {
    '\n' !in s
  }

  lemma LinesOfRecord(name: string, payload: string, rest: string)
    requires OneLine(name) && OneLine(payload)
    ensures Split("event: " + name + "\ndata: " + payload + "\n\n" + rest, '\n') ==
            ["event: " + name, "data: " + payload, ""] + Split(rest, '\n')
  {
    var e, d := "event: " + name, "data: " + payload;
    assert OneLine(e) && OneLine(d);
    var t := "event: " + name + "\ndata: " + payload + "\n\n" + rest;
    assert t == e + ['\n'] + (d + ['\n'] + ("" + ['\n'] + rest));
    SplitAt(e, d + ['\n'] + ("" + ['\n'] + rest), '\n');
    SplitAt(d, "" + ['\n'] + rest, '\n');
    SplitAt("", rest, '\n');
  }

  lemma ParseRecordLines(name: string, payload: string, rest: seq<string>)
    ensures ParseLines(["event: " + name, "data: " + payload, ""] + rest, "", []) ==
            (if Strip(name) == "" then [] else [(Strip(name), payload)]) + ParseLines(rest, "", [])
  {
    var e, d := "event: " + name, "data: " + payload;
    var lines := [e, d, ""] + rest;
    assert lines[1..] == [d, ""] + rest && lines[1..][1..] == [""] + rest && lines[1..][1..][1..] == rest;
    assert e[7..] == name && d[6..] == payload && d[0] == 'd' && !("event: " <= d);
    assert [] + [payload] == [payload];
    assert Join([payload], "\n") == payload;
    assert ParseLines(lines, "", []) == ParseLines(lines[1..], Strip(name), []);
    assert ParseLines(lines[1..], Strip(name), []) == ParseLines([""] + rest, Strip(name), [payload]);
    assert ([""] + rest)[1..] == rest;
  }

  lemma PayloadIsOneLine(v: Value)
    requires NumbersPrint(v)
    ensures OneLine(Dumps(v))
  {
    DumpsPrintable(v);
  }

  /** One encoded record in front of any text is read, and the rest is read as if it were alone. */
  lemma ParseOne(r: Record, rest: string)
    requires OneLine(r.name) && NumbersPrint(r.data)
    ensures Parse(Encode(r) + rest) == Received(r) + Parse(rest)
  {
    PayloadIsOneLine(r.data);
    LinesOfRecord(r.name, Dumps(r.data), rest);
    ParseRecordLines(r.name, Dumps(r.data), Split(rest, '\n'));
  }

  /** Parsing what was printed gives exactly the records printed, in order. */
  lemma {:induction false} ParseEncoded(rs: seq<Record>)
    requires forall i :: 0 <= i < |rs| ==> OneLine(rs[i].name) && NumbersPrint(rs[i].data)
    ensures Parse(EncodeAll(rs)) == ReceivedAll(rs)
  {
    if rs == [] {
      assert Split("", '\n') == [""] && [""][1..] == [];
    } else {
      ParseEncoded(rs[1..]);
      ParseOne(rs[0], EncodeAll(rs[1..]));
    }
  }

  /** A record survives exactly when its one-line name is non-empty and trimmed. */
  lemma RecordSurvivesIff(r: Record)
    requires OneLine(r.name) && NumbersPrint(r.data)
    ensures Parse(Encode(r)) == [(r.name, Dumps(r.data))] <==> r.name != "" && Trimmed(r.name)
  {
    ParseOne(r, "");
    assert Encode(r) + "" == Encode(r);
    assert Parse("") == [] by { assert Split("", '\n') == [""] && [""][1..] == []; }
    assert Received(r) + [] == Received(r);
    var a, b := StripParts(r.name);
    assert Received(r) == [(r.name, Dumps(r.data))] ==> Received(r)[0].0 == r.name;
    if Trimmed(r.name) {
      StripOf("", r.name, "");
      assert "" + r.name + "" == r.name;
    }
  }

  // ---------------------------------------------------------------- record boundaries

  lemma {:induction false} SplitAnywhere(x: string, y: string, c: char)
    ensures Split(x + [c] + y, c) == Split(x, c) + Split(y, c)
  {
    if x == "" {
      assert x + [c] + y == "" + [c] + y;
      SplitAt("", y, c);
    } else {
      assert (x + [c] + y)[1..] == x[1..] + [c] + y;
      SplitAnywhere(x[1..], y, c);
    }
  }

  /** A blank line forgets everything read before it. */
  lemma {:induction false} BlankLineResets(a: seq<string>, b: seq<string>, name: string, data: seq<string>)
    ensures ParseLines(a + [""] + b, name, data) == ParseLines(a + [""], name, data) + ParseLines(b, "", [])
  {
    if a == [] {
      assert a + [""] + b == [""] + b && ([""] + b)[1..] == b;
      assert a + [""] == [""] && [""][1..] == [];
      var emitted := if name != "" then [(name, Join(data, "\n"))] else [];
      assert ParseLines([""], name, data) == emitted + [] == emitted;
    } else {
      assert (a + [""] + b)[1..] == a[1..] + [""] + b && (a + [""])[1..] == a[1..] + [""];
      var line := a[0];
      if line == "" {
        BlankLineResets(a[1..], b, "", []);
      } else if "event: " <= line {
        BlankLineResets(a[1..], b, Strip(line[7..]), data);
      } else if "data: " <= line {
        BlankLineResets(a[1..], b, name, data + [line[6..]]);
      } else {
        BlankLineResets(a[1..], b, name, data);
      }
    }
  }

  /** A blank line is one empty line between the lines before it and those after it. */
  lemma {:induction false} SplitBlankLine(x: string, b: string)
    ensures Split(x + "\n\n" + b, '\n') == Split(x, '\n') + [""] + Split(b, '\n')
  {
    var rest := "" + ['\n'] + b;
    assert x + "\n\n" + b == x + ['\n'] + rest;
    SplitAnywhere(x, rest, '\n');
    SplitAt("", b, '\n');
    Assoc(Split(x, '\n'), [""], Split(b, '\n'));
  }

  lemma {:induction false} LastBlankLine(l: seq<string>)
    ensures ParseLines(l + [""] + [""], "", []) == ParseLines(l + [""], "", [])
  {
    var blank := [""];
    assert blank[1..] == [];
    BlankLineResets(l, blank, "", []);
    AppendNil(ParseLines(l + blank, "", []));
  }

  /** Any text that ends with a blank line parses independently of whatever follows it. */
  lemma {:induction false} ParseDistributes(x: string, b: string)
    ensures Parse(x + "\n\n" + b) == Parse(x + "\n\n") + Parse(b)
  {
    SplitBlankLine(x, b);
    SplitBlankLine(x, "");
    AppendNil(x + "\n\n");
    BlankLineResets(Split(x, '\n'), Split(b, '\n'), "", []);
    LastBlankLine(Split(x, '\n'));
  }

  // ---------------------------------------------------------------- any record

  /** The name a block of lines gives: the last one counts. */
  function NameIn(block: seq<string>): (r: string) {
    if block == [] then ""
    else
      var last := block[|block| - 1];
      if "event: " <= last then Strip(last[7..]) else NameIn(block[..|block| - 1])
  }

  /** Its data lines, in order; what is neither is ignored. */
  function DataIn(block: seq<string>): (r: seq<string>) {
    if block == [] then []
    else
      var last := block[|block| - 1];
      DataIn(block[..|block| - 1]) + if "data: " <= last then [last[6..]] else []
  }

  lemma {:induction false} NotBoth(line: string)
    ensures "event: " <= line ==> !("data: " <= line)
  {
    if "event: " <= line { assert line[0] == 'e' && "data: "[0] == 'd'; }
  }

  lemma {:induction false} AfterBlock(block: seq<string>, more: seq<string>)
    requires forall i :: 0 <= i < |block| ==> block[i] != ""
    ensures ParseLines(block + more, "", []) == ParseLines(more, NameIn(block), DataIn(block))
  {
    if block == [] {
      assert block + more == more;
    } else {
      var (init, last) := (block[..|block| - 1], block[|block| - 1]);
      assert block + more == init + ([last] + more);
      AfterBlock(init, [last] + more);
      assert ([last] + more)[1..] == more;
      NotBoth(last);
      AppendNil(DataIn(init));
    }
  }

  /**
   * Any block of lines before a blank one is one record, with its name and its data lines joined; without a name it is
   * none.
   */
  lemma {:induction false} BlockReads(block: seq<string>, more: seq<string>)
    requires forall i :: 0 <= i < |block| ==> block[i] != ""
    ensures ParseLines(block + [""] + more, "", []) ==
            (if NameIn(block) == "" then [] else [(NameIn(block), Join(DataIn(block), "\n"))])
            + ParseLines(more, "", [])
  {
    Assoc(block, [""], more);
    AfterBlock(block, [""] + more);
    assert ([""] + more)[1..] == more;
  }

}
