/** Reading JSON back. */
module JsonReading {
  import opened Json
  import opened Options
  import opened Sequences

  /** What a reader takes from the front of a text, and the text behind it. */
  datatype Reading<T> = Got(value: T, rest: string) | Bad

  // ---------------------------------------------------------------- a reader, after RFC 8259

  // The grammar of sections 3 to 7 of RFC 8259, for text without insignificant whitespace. A number is kept as it
  // stands, and a surrogate without its partner is refused.

  predicate Starts(s: string, c: char) {
    s != "" && s[0] == c
  }

  function HexValue(c: char): (r: Option<nat>)
    ensures r.Some? ==> r.value < 16
  {
    if '0' <= c <= '9' then Some(c as int - '0' as int)
    else if 'a' <= c <= 'f' then Some(10 + c as int - 'a' as int)
    else if 'A' <= c <= 'F' then Some(10 + c as int - 'A' as int)
    else None
  }

  /** Four hexadecimal digits. */
  function ReadUnit(s: string): (r: Reading<nat>)
    ensures r.Got? ==> |s| >= 4 && r.rest == s[4..] && r.value < 0x10000
  {
    if |s| < 4 then Bad
    else
      match (HexValue(s[0]), HexValue(s[1]), HexValue(s[2]), HexValue(s[3]))
      case (Some(a), Some(b), Some(c), Some(d)) => Got(((a * 16 + b) * 16 + c) * 16 + d, s[4..])
      case _ => Bad
  }

  /** The second half of a surrogate pair, and the character of the two. */
  function ReadLow(high: nat, s: string): (r: Reading<char>)
    requires 0xD800 <= high < 0xDC00
    ensures r.Got? ==> |r.rest| < |s|
  {
    if !("\\u" <= s) then Bad
    else
      match ReadUnit(s[2..])
      case Bad => Bad
      case Got(low, rest) =>
        if 0xDC00 <= low < 0xE000 then Got((0x10000 + (high - 0xD800) * 1024 + (low - 0xDC00)) as char, rest) else Bad
  }

  /** What stands behind `\u`. */
  function ReadUnicode(s: string): (r: Reading<char>)
    ensures r.Got? ==> |r.rest| < |s|
  {
    match ReadUnit(s)
    case Bad => Bad
    case Got(u, rest) =>
      if u < 0xD800 || 0xE000 <= u then Got(u as char, rest) else if u < 0xDC00 then ReadLow(u, rest) else Bad
  }

  /** The character an escape letter stands for. */
  function Unescaped(letter: char): (r: Option<char>) {
    match letter
    case '\"' => Some('\"')
    case '\\' => Some('\\')
    case '/' => Some('/')
    case 'b' => Some(8 as char)
    case 'f' => Some(12 as char)
    case 'n' => Some(10 as char)
    case 'r' => Some(13 as char)
    case 't' => Some(9 as char)
    case _ => None
  }

  /** One character of a string literal. */
  function ReadChar(s: string): (r: Reading<char>)
    ensures r.Got? ==> |r.rest| < |s|
  {
    if s == "" || s[0] < ' ' || s[0] == '\"' then Bad
    else if s[0] != '\\' then Got(s[0], s[1..])
    else if |s| == 1 then Bad
    else if s[1] == 'u' then ReadUnicode(s[2..])
    else
      match Unescaped(s[1])
      case Some(c) => Got(c, s[2..])
      case None => Bad
  }

  /** The characters up to the closing quote, and the quote. */
  function ReadChars(s: string): (r: Reading<string>)
    ensures r.Got? ==> |r.rest| < |s|
    decreases |s|
  {
    if Starts(s, '\"') then Got("", s[1..])
    else
      match ReadChar(s)
      case Bad => Bad
      case Got(c, rest) =>
        match ReadChars(rest)
        case Bad => Bad
        case Got(cs, after) => Got([c] + cs, after)
  }

  function ReadString(s: string): (r: Reading<string>)
    ensures r.Got? ==> |r.rest| < |s|
  {
    if Starts(s, '\"') then ReadChars(s[1..]) else Bad
  }

  predicate InNumber(c: char) {
    '0' <= c <= '9' || c in "+-.eE"
  }

  predicate StartsNumber(s: string) {
    s != "" && ('0' <= s[0] <= '9' || s[0] == '-')
  }

  function NumberLength(s: string): (n: nat)
    ensures n <= |s|
  {
    if s == "" || !InNumber(s[0]) then 0 else 1 + NumberLength(s[1..])
  }

  function ReadValue(s: string): (r: Reading<Value>)
    ensures r.Got? ==> |r.rest| < |s|
    decreases |s|, 0
  {
    if Starts(s, '\"') then
      match ReadString(s)
      case Bad => Bad
      case Got(t, rest) => Got(Str(t), rest)
    else if Starts(s, '[') && Starts(s[1..], ']') then Got(Arr([]), s[2..])
    else if Starts(s, '[') then
      match ReadItems(s[1..])
      case Bad => Bad
      case Got(items, rest) => Got(Arr(items), rest)
    else if Starts(s, '{') && Starts(s[1..], '}') then Got(Obj([]), s[2..])
    else if Starts(s, '{') then
      match ReadFields(s[1..])
      case Bad => Bad
      case Got(fields, rest) => Got(Obj(fields), rest)
    else if "null" <= s then Got(Null, s[4..])
    else if "true" <= s then Got(Bool(true), s[4..])
    else if "false" <= s then Got(Bool(false), s[5..])
    else if StartsNumber(s) then Got(Num(s[..NumberLength(s)]), s[NumberLength(s)..])
    else Bad
  }

  /** The items of an array and its closing bracket. */
  function ReadItems(s: string): (r: Reading<seq<Value>>)
    ensures r.Got? ==> |r.rest| < |s|
    decreases |s|, 1
  {
    match ReadValue(s)
    case Bad => Bad
    case Got(v, rest) =>
      if Starts(rest, ']') then Got([v], rest[1..])
      else if Starts(rest, ',') then
        match ReadItems(rest[1..])
        case Bad => Bad
        case Got(vs, after) => Got([v] + vs, after)
      else Bad
  }

  /** The fields of an object and its closing brace. */
  function ReadFields(s: string): (r: Reading<seq<Field>>)
    ensures r.Got? ==> |r.rest| < |s|
    decreases |s|, 1
  {
    match ReadString(s)
    case Bad => Bad
    case Got(name, colon) =>
      if !Starts(colon, ':') then Bad
      else
        match ReadValue(colon[1..])
        case Bad => Bad
        case Got(v, rest) =>
          if Starts(rest, '}') then Got([Field(name, v)], rest[1..])
          else if Starts(rest, ',') then
            match ReadFields(rest[1..])
            case Bad => Bad
            case Got(fs, after) => Got([Field(name, v)] + fs, after)
          else Bad
  }

  /** `json.loads`. */
  function Loads(s: string): (r: Option<Value>) {
    match ReadValue(s)
    case Got(v, rest) => if rest == "" then Some(v) else None
    case Bad => None
  }

  // ---------------------------------------------------------------- strings are read back

  predicate IsNumber(s: string) {
    StartsNumber(s) && forall i :: 0 <= i < |s| ==> InNumber(s[i])
  }

  /** Every number in the value is one, as Python prints the finite ones. */
  predicate Numeric(v: Value)
    decreases v
  {
    match v
    case Num(lexeme) => IsNumber(lexeme)
    case Arr(items) => forall i :: 0 <= i < |items| ==> Numeric(items[i])
    case Obj(fields) => forall i :: 0 <= i < |fields| ==> Numeric(fields[i].value)
    case _ => true
  }

  lemma {:induction false} NumericPrints(v: Value)
    requires Numeric(v)
    ensures NumbersPrint(v)
    decreases v
  {
    match v
    case Arr(items) => forall i | 0 <= i < |items| ensures NumbersPrint(items[i]) { NumericPrints(items[i]); }
    case Obj(fields) =>
      forall i | 0 <= i < |fields| ensures NumbersPrint(fields[i].value) { NumericPrints(fields[i].value); }
    case _ =>
  }

  lemma {:induction false} DigitsMake(n: nat)
    requires n < 0x10000
    ensures ((n / 4096 * 16 + n / 256 % 16) * 16 + n / 16 % 16) * 16 + n % 16 == n
  {
    assert n / 256 == n / 4096 * 16 + n / 256 % 16;
    assert n / 16 == n / 256 * 16 + n / 16 % 16;
  }

  lemma {:induction false} DigitReads(d: nat)
    requires d < 16
    ensures HexValue(HexDigit(d)) == Some(d)
  {
  }

  lemma {:induction false} HexReads(n: nat, x: string)
    requires n < 0x10000
    ensures ReadUnit(Hex4(n) + x) == Got(n, x)
  {
    assert (Hex4(n) + x)[4..] == x;
    DigitReads(n / 4096);
    DigitReads(n / 256 % 16);
    DigitReads(n / 16 % 16);
    DigitReads(n % 16);
    DigitsMake(n);
  }

  predicate Short(c: char) {
    32 <= c as int <= 126 || c as int in {8, 9, 10, 12, 13}
  }

  lemma {:induction false} ShortReads(c: char, x: string)
    requires Short(c)
    ensures ReadChar(Escape(c) + x) == Got(c, x)
  {
    assert (Escape(c) + x)[|Escape(c)|..] == x;
  }

  lemma {:induction false} UnicodeReads(c: char, x: string)
    requires !Short(c) && c as int < 0x10000
    ensures ReadChar(Escape(c) + x) == Got(c, x)
  {
    assert Escape(c) == "\\u" + Hex4(c as int);
    assert (Escape(c) + x)[2..] == Hex4(c as int) + x;
    HexReads(c as int, x);
  }

  lemma {:induction false} LowReads(high: nat, low: nat, x: string)
    requires 0xD800 <= high < 0xDC00 <= low < 0xE000
    ensures ReadLow(high, "\\u" + Hex4(low) + x) ==
            Got((0x10000 + (high - 0xD800) * 1024 + (low - 0xDC00)) as char, x)
  {
    assert ("\\u" + Hex4(low) + x)[2..] == Hex4(low) + x;
    HexReads(low, x);
  }

  lemma {:induction false} UnitsRead(s: string, high: nat, low: nat, x: string)
    requires 0xD800 <= high < 0xDC00 <= low < 0xE000
    requires "\\u" <= s && s[2..] == Hex4(high) + ("\\u" + Hex4(low) + x)
    ensures ReadChar(s) == Got((0x10000 + (high - 0xD800) * 1024 + (low - 0xDC00)) as char, x)
  {
    HexReads(high, "\\u" + Hex4(low) + x);
    LowReads(high, low, x);
  }

  lemma {:induction false} TwoUnits(high: string, low: string, x: string)
    ensures ("\\u" + high + "\\u" + low + x)[2..] == high + ("\\u" + low + x)
    ensures "\\u" <= "\\u" + high + "\\u" + low + x
  {
  }

  lemma {:induction false} PairReads(c: char, x: string)
    requires c as int >= 0x10000
    ensures ReadChar(Escape(c) + x) == Got(c, x)
  {
    var (high, low) := (0xD800 + (c as int - 0x10000) / 1024, 0xDC00 + (c as int - 0x10000) % 1024);
    TwoUnits(Hex4(high), Hex4(low), x);
    UnitsRead(Escape(c) + x, high, low, x);
  }

  lemma {:induction false} CharReads(c: char, x: string)
    ensures ReadChar(Escape(c) + x) == Got(c, x)
  {
    if Short(c) {
      ShortReads(c, x);
    } else if c as int < 0x10000 {
      UnicodeReads(c, x);
    } else {
      PairReads(c, x);
    }
  }

  lemma {:induction false} CharsRead(s: string, x: string)
    ensures ReadChars(Escaped(s) + ("\"" + x)) == Got(s, x)
  {
    if s == "" {
      assert Escaped(s) + ("\"" + x) == "\"" + x && ("\"" + x)[1..] == x;
    } else {
      var rest := Escaped(s[1..]) + ("\"" + x);
      Assoc(Escape(s[0]), Escaped(s[1..]), "\"" + x);
      CharReads(s[0], rest);
      CharsRead(s[1..], x);
      assert s == [s[0]] + s[1..];
    }
  }

  lemma {:induction false} StringReads(s: string, x: string)
    ensures ReadString(Quote(s) + x) == Got(s, x)
  {
    assert (Quote(s) + x)[1..] == Escaped(s) + ("\"" + x);
    CharsRead(s, x);
  }

  // ---------------------------------------------------------------- values are read back

  /** No number goes on into `x`. */
  predicate Ends(x: string) {
    x == "" || !InNumber(x[0])
  }

  lemma {:induction false} NumberReads(s: string, x: string)
    requires Ends(x) && forall i :: 0 <= i < |s| ==> InNumber(s[i])
    ensures NumberLength(s + x) == |s|
  {
    if s == "" {
      assert s + x == x;
    } else {
      assert (s + x)[1..] == s[1..] + x;
      NumberReads(s[1..], x);
    }
  }

  /** Every dumped value starts like none of the others. */
  lemma {:induction false} LexemeReads(lexeme: string, x: string)
    requires IsNumber(lexeme) && Ends(x)
    ensures ReadValue(lexeme + x) == Got(Num(lexeme), x)
  {
    var s := lexeme + x;
    NumberReads(lexeme, x);
    assert s[0] == lexeme[0] && s[..|lexeme|] == lexeme && s[|lexeme|..] == x;
  }

  /** A dumped value never looks like the end of an array. */
  lemma {:induction false} NeverABracket(v: Value)
    requires Numeric(v)
    ensures Dumps(v) != "" && Dumps(v)[0] != ']'
  {
  }

  lemma {:induction false} ItemsStart(items: seq<Value>, x: string)
    requires items != [] && Numeric(items[0])
    ensures DumpItems(items) + x != "" && (DumpItems(items) + x)[0] != ']'
  {
    NeverABracket(items[0]);
  }

  lemma {:induction false} ArrayOf(t: string, items: seq<Value>, x: string)
    requires t != "" && t[0] != ']' && ReadItems(t) == Got(items, x)
    ensures ReadValue("[" + t) == Got(Arr(items), x)
  {
    assert ("[" + t)[1..] == t && ("[" + t)[1] == t[0];
  }

  lemma {:induction false} LastItem(s: string, v: Value, x: string)
    requires ReadValue(s) == Got(v, "]" + x)
    ensures ReadItems(s) == Got([v], x)
  {
    assert ("]" + x)[1..] == x;
  }

  lemma {:induction false} NextItem(s: string, v: Value, t: string, vs: seq<Value>, x: string)
    requires ReadValue(s) == Got(v, "," + t) && ReadItems(t) == Got(vs, x)
    ensures ReadItems(s) == Got([v] + vs, x)
  {
    assert ("," + t)[1..] == t;
  }

  lemma {:induction false} ObjectOf(t: string, fields: seq<Field>, x: string)
    requires t != "" && t[0] != '}' && ReadFields(t) == Got(fields, x)
    ensures ReadValue("{" + t) == Got(Obj(fields), x)
  {
    assert ("{" + t)[1..] == t && ("{" + t)[1] == t[0];
  }

  lemma {:induction false} LastField(s: string, name: string, t: string, v: Value, x: string)
    requires ReadString(s) == Got(name, ":" + t) && ReadValue(t) == Got(v, "}" + x)
    ensures ReadFields(s) == Got([Field(name, v)], x)
  {
    assert (":" + t)[1..] == t && ("}" + x)[1..] == x;
  }

  lemma {:induction false} NextField(s: string, name: string, t: string, v: Value, u: string, fs: seq<Field>, x: string)
    requires ReadString(s) == Got(name, ":" + t) && ReadValue(t) == Got(v, "," + u) && ReadFields(u) == Got(fs, x)
    ensures ReadFields(s) == Got([Field(name, v)] + fs, x)
  {
    assert (":" + t)[1..] == t && ("," + u)[1..] == u;
  }

  lemma {:induction false} ConstantReads(v: Value, x: string)
    requires v.Null? || v.Bool?
    ensures ReadValue(Dumps(v) + x) == Got(v, x)
  {
    assert (Dumps(v) + x)[|Dumps(v)|..] == x;
  }

  lemma {:induction false} StrReads(s: string, x: string)
    ensures ReadValue(Quote(s) + x) == Got(Str(s), x)
  {
    StringReads(s, x);
    assert (Quote(s) + x)[0] == '\"';
  }

  lemma {:induction false} ValueReads(v: Value, x: string)
    requires Numeric(v) && Ends(x)
    ensures ReadValue(Dumps(v) + x) == Got(v, x)
    decreases v, 0
  {
    match v
    case Num(lexeme) => LexemeReads(lexeme, x);
    case Str(s) => StrReads(s, x);
    case Arr(items) => ArrayReads(items, x);
    case Obj(fields) => ObjectReads(fields, x);
    case _ => ConstantReads(v, x);
  }

  lemma {:induction false} Inside(l: string, s: string, r: string, x: string)
    ensures l + s + r + x == l + (s + (r + x))
  {
  }

  lemma {:induction false} NoItems(l: string, r: string, x: string)
    requires |l| == |r| == 1
    ensures (l + ("" + (r + x)))[1..] == r + x && (l + ("" + (r + x)))[2..] == x
  {
  }

  lemma {:induction false} ArrayReads(items: seq<Value>, x: string)
    requires forall i :: 0 <= i < |items| ==> Numeric(items[i])
    ensures ReadValue("[" + DumpItems(items) + "]" + x) == Got(Arr(items), x)
    decreases items, 2
  {
    Inside("[", DumpItems(items), "]", x);
    if items == [] {
      NoItems("[", "]", x);
    } else {
      ItemsStart(items, "]" + x);
      ItemsRead(items, x);
      ArrayOf(DumpItems(items) + ("]" + x), items, x);
    }
  }

  lemma {:induction false} ItemsRead(items: seq<Value>, x: string)
    requires items != [] && forall i :: 0 <= i < |items| ==> Numeric(items[i])
    ensures ReadItems(DumpItems(items) + ("]" + x)) == Got(items, x)
    decreases items, 1
  {
    if |items| == 1 {
      AppendNil(Dumps(items[0]));
      ValueReads(items[0], "]" + x);
      LastItem(DumpItems(items) + ("]" + x), items[0], x);
      assert items == [items[0]];
    } else {
      var rest := DumpItems(items[1..]) + ("]" + x);
      CommaBetween(Dumps(items[0]), DumpItems(items[1..]), "]" + x);
      ValueReads(items[0], "," + rest);
      ItemsRead(items[1..], x);
      NextItem(DumpItems(items) + ("]" + x), items[0], rest, items[1..], x);
      assert items == [items[0]] + items[1..];
    }
  }

  lemma {:induction false} CommaBetween(a: string, b: string, x: string)
    ensures a + ("," + b) + x == a + ("," + (b + x))
  {
  }

  lemma {:induction false} FieldsStart(fields: seq<Field>, x: string)
    requires fields != []
    ensures DumpFields(fields) + x != "" && (DumpFields(fields) + x)[0] == '\"'
  {
  }

  lemma {:induction false} ObjectReads(fields: seq<Field>, x: string)
    requires forall i :: 0 <= i < |fields| ==> Numeric(fields[i].value)
    ensures ReadValue("{" + DumpFields(fields) + "}" + x) == Got(Obj(fields), x)
    decreases fields, 2
  {
    Inside("{", DumpFields(fields), "}", x);
    if fields == [] {
      NoItems("{", "}", x);
    } else {
      FieldsStart(fields, "}" + x);
      FieldsRead(fields, x);
      ObjectOf(DumpFields(fields) + ("}" + x), fields, x);
    }
  }

  /** A field's text, in front of `x`. */
  function FieldThen(f: Field, x: string): (r: string) {
    Quote(f.name) + (":" + (Dumps(f.value) + x))
  }

  lemma {:induction false} FieldBefore(name: string, value: string, more: string, x: string)
    ensures name + ":" + value + more + x == name + (":" + (value + (more + x)))
  {
  }

  lemma {:induction false} DumpedField(fields: seq<Field>, x: string)
    requires |fields| == 1
    ensures DumpFields(fields) + x == FieldThen(fields[0], x)
  {
    FieldBefore(Quote(fields[0].name), Dumps(fields[0].value), "", x);
    assert "" + x == x;
  }

  lemma {:induction false} DumpedFields(fields: seq<Field>, x: string)
    requires |fields| > 1
    ensures DumpFields(fields) + x == FieldThen(fields[0], "," + (DumpFields(fields[1..]) + x))
  {
    FieldBefore(Quote(fields[0].name), Dumps(fields[0].value), "," + DumpFields(fields[1..]), x);
    Assoc(",", DumpFields(fields[1..]), x);
  }

  /** A field is read: its name, and its value up to `x`. */
  ghost predicate FieldReads(f: Field, x: string) {
    && ReadString(FieldThen(f, x)) == Got(f.name, ":" + (Dumps(f.value) + x))
    && ReadValue(Dumps(f.value) + x) == Got(f.value, x)
  }

  lemma {:induction false} OnlyField(f: Field, x: string)
    requires FieldReads(f, "}" + x)
    ensures ReadFields(FieldThen(f, "}" + x)) == Got([f], x)
  {
    LastField(FieldThen(f, "}" + x), f.name, Dumps(f.value) + ("}" + x), f.value, x);
  }

  lemma {:induction false} FieldAndMore(f: Field, u: string, fs: seq<Field>, x: string)
    requires FieldReads(f, "," + u) && ReadFields(u) == Got(fs, x)
    ensures ReadFields(FieldThen(f, "," + u)) == Got([f] + fs, x)
  {
    NextField(FieldThen(f, "," + u), f.name, Dumps(f.value) + ("," + u), f.value, u, fs, x);
  }

  lemma {:induction false} FieldIsRead(f: Field, x: string)
    requires Numeric(f.value) && Ends(x)
    ensures FieldReads(f, x)
    decreases f, 1
  {
    StringReads(f.name, ":" + (Dumps(f.value) + x));
    ValueReads(f.value, x);
  }

  lemma {:induction false} OneFieldRead(fields: seq<Field>, x: string)
    requires |fields| == 1 && FieldReads(fields[0], "}" + x)
    ensures ReadFields(DumpFields(fields) + ("}" + x)) == Got(fields, x)
  {
    DumpedField(fields, "}" + x);
    OnlyField(fields[0], x);
    assert fields == [fields[0]];
  }

  lemma {:induction false} MoreFieldsRead(fields: seq<Field>, u: string, x: string)
    requires |fields| > 1 && u == DumpFields(fields[1..]) + ("}" + x)
    requires FieldReads(fields[0], "," + u) && ReadFields(u) == Got(fields[1..], x)
    ensures ReadFields(DumpFields(fields) + ("}" + x)) == Got(fields, x)
  {
    DumpedFields(fields, "}" + x);
    FieldAndMore(fields[0], u, fields[1..], x);
    assert fields == [fields[0]] + fields[1..];
  }

  lemma {:induction false} FieldsRead(fields: seq<Field>, x: string)
    requires fields != [] && forall i :: 0 <= i < |fields| ==> Numeric(fields[i].value)
    ensures ReadFields(DumpFields(fields) + ("}" + x)) == Got(fields, x)
    decreases fields, 1
  {
    if |fields| == 1 {
      FieldIsRead(fields[0], "}" + x);
      OneFieldRead(fields, x);
    } else {
      var u := DumpFields(fields[1..]) + ("}" + x);
      FieldIsRead(fields[0], "," + u);
      FieldsRead(fields[1..], x);
      MoreFieldsRead(fields, u, x);
    }
  }

  /** `json.loads` of what `json.dumps` printed is the value printed. */
  lemma {:induction false} LoadsDumps(v: Value)
    requires Numeric(v)
    ensures Loads(Dumps(v)) == Some(v)
  {
    ValueReads(v, "");
    AppendNil(Dumps(v));
  }

  lemma {:induction false} StrFieldsAre(pairs: seq<(string, string)>)
    ensures |StrFields(pairs)| == |pairs|
    ensures forall i :: 0 <= i < |pairs| ==> StrFields(pairs)[i] == Field(pairs[i].0, Str(pairs[i].1))
  {
    if pairs != [] { StrFieldsAre(pairs[1..]); }
  }

  /** An object of strings is determined by its text. */
  lemma {:induction false} ObjectInjective(a: seq<(string, string)>, b: seq<(string, string)>)
    requires Dumps(Obj(StrFields(a))) == Dumps(Obj(StrFields(b)))
    ensures a == b
  {
    StrFieldsAre(a);
    StrFieldsAre(b);
    LoadsDumps(Obj(StrFields(a)));
    LoadsDumps(Obj(StrFields(b)));
    forall i | 0 <= i < |a| ensures a[i] == b[i] {
      assert StrFields(a)[i] == StrFields(b)[i];
    }
  }
}
