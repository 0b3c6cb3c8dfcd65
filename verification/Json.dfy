/**
 * `json.dumps(..., separators=(",", ":"))` with its default ASCII escapes, for strings and for objects of strings.
 * Characters outside the basic plane become two escapes. The text is printable, and determines what was dumped.
 */
module Json {

  /** A value to print; a number is given as the text Python prints for it. */
  datatype Value =
    | Null
    | Bool(b: bool)
    | Num(lexeme: string)
    | Str(s: string)
    | Arr(items: seq<Value>)
    | Obj(fields: seq<Field>)

  datatype Field = Field(name: string, value: Value)

  function HexDigit(d: nat): (r: char)
    requires d < 16
  {
    if d < 10 then ('0' as int + d) as char else ('a' as int + d - 10) as char
  }

  /** Four lower-case hexadecimal digits. */
  function Hex4(n: nat): (r: string)
    requires n < 0x10000
  {
    [HexDigit(n / 4096), HexDigit(n / 256 % 16), HexDigit(n / 16 % 16), HexDigit(n % 16)]
  }

  /** How one character is written inside a string literal. */
  function Escape(c: char): (result: string) {
    var n := c as int;
    if c == '\"' then "\\\""
    else if c == '\\' then "\\\\"
    else if n == 10 then "\\n"
    else if n == 13 then "\\r"
    else if n == 9 then "\\t"
    else if n == 8 then "\\b"
    else if n == 12 then "\\f"
    else if 32 <= n <= 126 then [c]
    else if n < 0x10000 then "\\u" + Hex4(n)
    else "\\u" + Hex4(0xD800 + (n - 0x10000) / 1024) + "\\u" + Hex4(0xDC00 + (n - 0x10000) % 1024)
  }

  function Escaped(s: string): (r: string) {
    if s == "" then "" else Escape(s[0]) + Escaped(s[1..])
  }

  function Quote(s: string): (r: string) {
    "\"" + Escaped(s) + "\""
  }

  function Dumps(v: Value): (r: string)
    decreases v
  {
    match v
    case Null => "null"
    case Bool(b) => if b then "true" else "false"
    case Num(lexeme) => lexeme
    case Str(s) => Quote(s)
    case Arr(items) => "[" + DumpItems(items) + "]"
    case Obj(fields) => "{" + DumpFields(fields) + "}"
  }

  function DumpItems(items: seq<Value>): (r: string)
    decreases items
  {
    if |items| == 0 then ""
    else Dumps(items[0]) + (if |items| == 1 then "" else "," + DumpItems(items[1..]))
  }

  function DumpFields(fields: seq<Field>): (r: string)
    decreases fields
  {
    if |fields| == 0 then ""
    else
      Quote(fields[0].name) + ":" + Dumps(fields[0].value) +
      (if |fields| == 1 then "" else "," + DumpFields(fields[1..]))
  }

  // ---------------------------------------------------------------- the output is printable ASCII

  predicate Printable(s: string) {
    forall i :: 0 <= i < |s| ==> 32 <= s[i] as int <= 126
  }

  /** Every number in the value prints as printable ASCII, as Python's do. */
  predicate NumbersPrint(v: Value)
    decreases v
  {
    match v
    case Num(lexeme) => Printable(lexeme)
    case Arr(items) => forall i :: 0 <= i < |items| ==> NumbersPrint(items[i])
    case Obj(fields) => forall i :: 0 <= i < |fields| ==> NumbersPrint(fields[i].value)
    case _ => true
  }

  lemma HexPrints(n: nat)
    requires n < 0x10000
    ensures Printable(Hex4(n))
  {
  }

  lemma EscapePrints(c: char)
    ensures Printable(Escape(c)) && Escape(c) != ""
  {
    var n := c as int;
    if n >= 0x10000 {
      HexPrints(0xD800 + (n - 0x10000) / 1024);
      HexPrints(0xDC00 + (n - 0x10000) % 1024);
    } else {
      HexPrints(n);
    }
  }

  lemma {:induction false} EscapedPrints(s: string)
    ensures Printable(Escaped(s))
  {
    if s != "" {
      EscapePrints(s[0]);
      EscapedPrints(s[1..]);
    }
  }

  /** Whatever strings it holds, a dumped value has only printable ASCII: no newline, no NUL. */
  lemma {:induction false} DumpsPrintable(v: Value)
    requires NumbersPrint(v)
    ensures Printable(Dumps(v))
    decreases v
  {
    match v
    case Str(s) =>
      EscapedPrints(s);
      PrintableAround("\"", Escaped(s), "\"");
    case Arr(items) =>
      ItemsPrintable(items);
      PrintableAround("[", DumpItems(items), "]");
    case Obj(fields) =>
      FieldsPrintable(fields);
      PrintableAround("{", DumpFields(fields), "}");
    case _ =>
  }

  lemma PrintableAround(l: string, s: string, r: string)
    requires Printable(l) && Printable(s) && Printable(r)
    ensures Printable(l + s + r)
  {
  }

  lemma {:induction false} ItemsPrintable(items: seq<Value>)
    requires forall i :: 0 <= i < |items| ==> NumbersPrint(items[i])
    ensures Printable(DumpItems(items))
    decreases items
  {
    if |items| > 0 {
      DumpsPrintable(items[0]);
      if |items| > 1 { ItemsPrintable(items[1..]); }
    }
  }

  lemma {:induction false} FieldsPrintable(fields: seq<Field>)
    requires forall i :: 0 <= i < |fields| ==> NumbersPrint(fields[i].value)
    ensures Printable(DumpFields(fields))
    decreases fields
  {
    if |fields| > 0 {
      EscapedPrints(fields[0].name);
      DumpsPrintable(fields[0].value);
      if |fields| > 1 { FieldsPrintable(fields[1..]); }
    }
  }

  // ---------------------------------------------------------------- objects of strings

  function StrFields(pairs: seq<(string, string)>): (r: seq<Field>) {
    if pairs == [] then [] else [Field(pairs[0].0, Str(pairs[0].1))] + StrFields(pairs[1..])
  }

  lemma {:induction false} StrFieldsPrint(pairs: seq<(string, string)>)
    ensures forall i :: 0 <= i < |StrFields(pairs)| ==> NumbersPrint(StrFields(pairs)[i].value)
  {
    if pairs != [] { StrFieldsPrint(pairs[1..]); }
  }
}
