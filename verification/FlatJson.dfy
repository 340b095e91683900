/** The JSON texts of the progress stream: flat objects of strings, numbers and `true`, printed as
    `JSON.stringify` prints them, and a reader for the texts so printed. */
module FlatJson {
  import opened Wrappers

  datatype Value = Number(n: nat) | Text(s: string) | True

  datatype Field = Field(name: string, value: Value)

  type Object = seq<Field>

  // ---------------------------------------------------------------- numbers

  function Digit(d: nat): char
    requires d < 10
  {
    '0' + d as char
  }

  predicate IsDigit(c: char) {
    '0' <= c <= '9'
  }

  function Digits(n: nat): string {
    if n < 10 then [Digit(n)] else Digits(n / 10) + [Digit(n % 10)]
  }

  function ParseDigits(acc: nat, s: string): (r: (nat, string))
    ensures |r.1| <= |s|
    decreases |s|
  {
    if s != [] && IsDigit(s[0]) then ParseDigits(acc * 10 + (s[0] - '0') as nat, s[1..]) else (acc, s)
  }

  lemma {:induction false} DigitsParse(n: nat, rest: string)
    ensures ParseDigits(0, Digits(n) + rest) == ParseDigits(n, rest)
    ensures IsDigit(Digits(n)[0])
    decreases n
  {
    var d := Digit(n % 10);
    assert ([d] + rest)[1..] == rest;
    if n < 10 {
      assert Digits(n) == [d];
    } else {
      DigitsParse(n / 10, [d] + rest);
      assert Digits(n) + rest == Digits(n / 10) + ([d] + rest);
      assert n / 10 * 10 + n % 10 == n;
    }
  }

  // ---------------------------------------------------------------- strings

  function HexDigit(n: nat): char
    requires n < 16
  {
    if n < 10 then '0' + n as char else 'a' + (n - 10) as char
  }

  function HexValue(c: char): Option<nat> {
    if '0' <= c <= '9' then Some((c - '0') as nat)
    else if 'a' <= c <= 'f' then Some((c - 'a') as nat + 10)
    else None
  }

  /** Quotes, backslashes and control characters are escaped. */
  function EscapeChar(c: char): string {
    if c == '"' then "\\\""
    else if c == '\\' then "\\\\"
    else if c == '\U{0008}' then "\\b"
    else if c == '\U{000C}' then "\\f"
    else if c == '\n' then "\\n"
    else if c == '\r' then "\\r"
    else if c == '\t' then "\\t"
    else if c < ' ' then "\\u00" + [HexDigit(c as nat / 16), HexDigit(c as nat % 16)]
    else [c]
  }

  function Escape(s: string): string {
    if s == [] then [] else EscapeChar(s[0]) + Escape(s[1..])
  }

  function UnescapeLetter(c: char): Option<char> {
    if c == '"' || c == '\\' || c == '/' then Some(c)
    else if c == 'b' then Some('\U{0008}')
    else if c == 'f' then Some('\U{000C}')
    else if c == 'n' then Some('\n')
    else if c == 'r' then Some('\r')
    else if c == 't' then Some('\t')
    else None
  }

  /** Reads one character of a string, escaped or not. */
  function UnescapeChar(s: string): (r: Option<(char, string)>)
    ensures r.Some? ==> |r.value.1| < |s|
  {
    if s == [] || s[0] < ' ' then None
    else if s[0] != '\\' then Some((s[0], s[1..]))
    else if |s| < 2 then None
    else if s[1] == 'u' then
      if |s| < 6 || s[2] != '0' || s[3] != '0' || HexValue(s[4]).None? || HexValue(s[5]).None? then None
      else Some(((16 * HexValue(s[4]).value + HexValue(s[5]).value) as char, s[6..]))
    else if UnescapeLetter(s[1]).None? then None
    else Some((UnescapeLetter(s[1]).value, s[2..]))
  }

  /** Reads up to the closing quote. */
  function ParseChars(s: string): (r: Option<(string, string)>)
    ensures r.Some? ==> |r.value.1| < |s|
    decreases |s|
  {
    if s == [] then None
    else if s[0] == '"' then Some(("", s[1..]))
    else
      var one := UnescapeChar(s);
      if one.None? then None
      else
        var more := ParseChars(one.value.1);
        if more.None? then None else Some(([one.value.0] + more.value.0, more.value.1))
  }

  lemma {:induction false} EscapeCharParses(c: char, rest: string)
    ensures UnescapeChar(EscapeChar(c) + rest) == Some((c, rest))
    ensures (EscapeChar(c) + rest)[0] != '"'
  {
    var s := EscapeChar(c) + rest;
    if |EscapeChar(c)| == 6 {
      assert s[4] == HexDigit(c as nat / 16) && s[5] == HexDigit(c as nat % 16) && s[6..] == rest;
    } else if |EscapeChar(c)| == 2 {
      assert s[2..] == rest;
    } else {
      assert s[1..] == rest;
    }
  }

  lemma {:induction false} EscapeParses(t: string, rest: string)
    ensures ParseChars(Escape(t) + "\"" + rest) == Some((t, rest))
  {
    if t == [] {
      assert Escape(t) + "\"" + rest == "\"" + rest;
      assert ("\"" + rest)[1..] == rest;
    } else {
      var tail := Escape(t[1..]) + "\"" + rest;
      assert Escape(t) + "\"" + rest == EscapeChar(t[0]) + tail;
      EscapeCharParses(t[0], tail);
      EscapeParses(t[1..], rest);
      assert [t[0]] + t[1..] == t;
    }
  }

  // ---------------------------------------------------------------- values and objects

  function PrintString(s: string): string {
    "\"" + Escape(s) + "\""
  }

  function PrintValue(v: Value): string {
    match v
    case Number(n) => Digits(n)
    case Text(s) => PrintString(s)
    case True => "true"
  }

  function PrintField(f: Field): string {
    PrintString(f.name) + ":" + PrintValue(f.value)
  }

  function PrintFields(fields: Object): string
    requires fields != []
  {
    if |fields| == 1 then PrintField(fields[0]) else PrintField(fields[0]) + "," + PrintFields(fields[1..])
  }

  function Stringify(o: Object): string
    requires o != []
  {
    "{" + PrintFields(o) + "}"
  }

  function ParseString(s: string): (r: Option<(string, string)>)
    ensures r.Some? ==> |r.value.1| < |s|
  {
    if s == [] || s[0] != '"' then None else ParseChars(s[1..])
  }

  function ParseValue(s: string): (r: Option<(Value, string)>)
    ensures r.Some? ==> |r.value.1| <= |s|
  {
    if s == [] then None
    else if s[0] == '"' then
      var t := ParseString(s);
      if t.None? then None else Some((Text(t.value.0), t.value.1))
    else if IsDigit(s[0]) then
      var (n, rest) := ParseDigits(0, s);
      Some((Number(n), rest))
    else if |s| >= 4 && s[..4] == "true" then Some((True, s[4..]))
    else None
  }

  function ParseField(s: string): (r: Option<(Field, string)>)
    ensures r.Some? ==> |r.value.1| < |s|
  {
    var name := ParseString(s);
    if name.None? || name.value.1 == [] || name.value.1[0] != ':' then None
    else
      var v := ParseValue(name.value.1[1..]);
      if v.None? then None else Some((Field(name.value.0, v.value.0), v.value.1))
  }

  function ParseFields(s: string): Option<(Object, string)>
    decreases |s|
  {
    var f := ParseField(s);
    if f.None? || f.value.1 == [] then None
    else if f.value.1[0] == ',' then
      var more := ParseFields(f.value.1[1..]);
      if more.None? then None else Some(([f.value.0] + more.value.0, more.value.1))
    else Some(([f.value.0], f.value.1))
  }

  function Parse(s: string): Option<Object> {
    if s == [] || s[0] != '{' then None
    else
      var fields := ParseFields(s[1..]);
      if fields.None? || fields.value.1 != "}" then None else Some(fields.value.0)
  }

  lemma {:induction false} StringParses(t: string, rest: string)
    ensures ParseString(PrintString(t) + rest) == Some((t, rest))
  {
    EscapeParses(t, rest);
    assert (PrintString(t) + rest)[1..] == Escape(t) + "\"" + rest;
  }

  lemma {:induction false} ValueParses(v: Value, rest: string)
    requires rest != [] && !IsDigit(rest[0])
    ensures ParseValue(PrintValue(v) + rest) == Some((v, rest))
  {
    match v
    case Number(n) =>
      DigitsParse(n, rest);
      assert (Digits(n) + rest)[0] == Digits(n)[0];
    case Text(t) => StringParses(t, rest);
    case True =>
      assert ("true" + rest)[..4] == "true" && ("true" + rest)[4..] == rest;
  }

  lemma {:induction false} FieldParses(f: Field, rest: string)
    requires rest != [] && !IsDigit(rest[0])
    ensures ParseField(PrintField(f) + rest) == Some((f, rest))
  {
    var after := ":" + PrintValue(f.value) + rest;
    assert PrintField(f) + rest == PrintString(f.name) + after;
    StringParses(f.name, after);
    assert after[1..] == PrintValue(f.value) + rest;
    ValueParses(f.value, rest);
  }

  lemma {:induction false} FirstOfFields(f: Field, tail: string, more: Object)
    requires ParseFields(tail) == Some((more, "}"))
    ensures ParseFields(PrintField(f) + ("," + tail)) == Some(([f] + more, "}"))
  {
    FieldParses(f, "," + tail);
    assert ("," + tail)[1..] == tail;
  }

  lemma {:induction false} PrintedFields(fields: Object)
    requires |fields| > 1
    ensures PrintFields(fields) + "}" == PrintField(fields[0]) + ("," + (PrintFields(fields[1..]) + "}"))
  {}

  lemma {:induction false} FieldsParse(fields: Object)
    requires fields != []
    ensures ParseFields(PrintFields(fields) + "}") == Some((fields, "}"))
  {
    if |fields| == 1 {
      LastField(fields[0]);
      assert [fields[0]] == fields;
    } else {
      FieldsParse(fields[1..]);
      FirstOfFields(fields[0], PrintFields(fields[1..]) + "}", fields[1..]);
      PrintedFields(fields);
      assert [fields[0]] + fields[1..] == fields;
    }
  }

  lemma {:induction false} LastField(f: Field)
    ensures ParseFields(PrintField(f) + "}") == Some(([f], "}"))
  {
    FieldParses(f, "}");
  }

  /** What the server prints, the client reads back. */
  lemma {:induction false} StringifyParses(o: Object)
    requires o != []
    ensures Parse(Stringify(o)) == Some(o)
  {
    FieldsParse(o);
    assert Stringify(o)[1..] == PrintFields(o) + "}";
  }

  // ---------------------------------------------------------------- one line

  lemma {:induction false} DigitsOneLine(n: nat)
    ensures '\n' !in Digits(n)
  {
    if n >= 10 {
      DigitsOneLine(n / 10);
    }
  }

  lemma {:induction false} EscapeOneLine(s: string)
    ensures '\n' !in Escape(s)
  {
    if s != [] {
      EscapeOneLine(s[1..]);
      assert '\n' !in EscapeChar(s[0]);
    }
  }

  lemma {:induction false} FieldOneLine(f: Field)
    ensures '\n' !in PrintField(f)
  {
    EscapeOneLine(f.name);
    match f.value
    case Number(n) => DigitsOneLine(n);
    case Text(t) => EscapeOneLine(t);
    case True =>
  }

  lemma {:induction false} FieldsOneLine(fields: Object)
    requires fields != []
    ensures '\n' !in PrintFields(fields)
  {
    FieldOneLine(fields[0]);
    if |fields| > 1 {
      FieldsOneLine(fields[1..]);
    }
  }

  /** A printed object never contains a newline, whatever its strings hold. */
  lemma {:induction false} StringifyIsOneLine(o: Object)
    requires o != []
    ensures '\n' !in Stringify(o)
    ensures Stringify(o)[0] == '{' && Stringify(o)[|Stringify(o)| - 1] == '}'
  {
    FieldsOneLine(o);
  }
}
