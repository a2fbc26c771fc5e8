/** The text of a JSON value in each of its encodings: what Python's json.dumps and a model's own dump write,
    so that a size is the number of bytes of a text. */
module JsonText {
  import opened Json

  // ---- UTF-8 ----

  function ByteCount(c: char): nat {
    if c < '\U{80}' then 1 else if c < '\U{800}' then 2 else if c < '\U{10000}' then 3 else 4
  }

  function Bytes(s: string): nat {
    if s == "" then 0 else Bytes(s[..|s| - 1]) + ByteCount(s[|s| - 1])
  }

  lemma {:induction false} BytesConcat(a: string, b: string)
    ensures Bytes(a + b) == Bytes(a) + Bytes(b)
  {
    if b == "" {
      assert a + b == a;
    } else {
      BytesConcat(a, b[..|b| - 1]);
      assert (a + b)[..|a + b| - 1] == a + b[..|b| - 1];
    }
  }

  lemma {:induction false} AsciiBytes(s: string)
    requires forall i :: 0 <= i < |s| ==> s[i] < '\U{80}'
    ensures Bytes(s) == |s|
  {
    if s != "" {
      AsciiBytes(s[..|s| - 1]);
    }
  }

  // ---- Characters ----

  function Hex(n: nat): char
    requires n < 16
  {
    if n < 10 then '0' + n as char else 'a' + (n - 10) as char
  }

  function Escape(code: nat): (s: string)
    requires code < 0x1_0000
    ensures |s| == 6 && forall i :: 0 <= i < 6 ==> s[i] < '\U{80}'
  {
    ['\\', 'u', Hex(code / 4096), Hex(code / 256 % 16), Hex(code / 16 % 16), Hex(code % 16)]
  }

  // A character beyond the first plane is escaped as two surrogates.
  function Written(e: Encoding, c: char): string {
    if c == '\"' then "\\\""
    else if c == '\\' then "\\\\"
    else if c == '\n' then "\\n"
    else if c == '\r' then "\\r"
    else if c == '\t' then "\\t"
    else if c == '\U{8}' then "\\b"
    else if c == '\U{C}' then "\\f"
    else if c < ' ' then Escape(c as nat)
    else if c < '\U{7F}' || e == CompactUtf8 then [c]
    else if c < '\U{10000}' then Escape(c as nat)
    else
      var offset := c as nat - 0x1_0000;
      Escape(0xD800 + offset / 0x400) + Escape(0xDC00 + offset % 0x400)
  }

  lemma OneByteEach(c: char)
    ensures Bytes([c]) == ByteCount(c)
  {
    assert [c][..0] == "";
    assert Bytes("") == 0;
  }

  lemma WrittenSize(e: Encoding, c: char)
    ensures Bytes(Written(e, c)) == CharSize(e, c)
  {
    hide Bytes, Escape;
    OneByteEach(c);
    if c in {'\"', '\\', '\n', '\r', '\t', '\U{8}', '\U{C}'} {
      AsciiBytes(Written(e, c));
    } else if c < ' ' || ('\U{7F}' <= c && e != CompactUtf8) {
      AsciiBytes(Written(e, c));
    }
  }

  function Characters(e: Encoding, s: string): string {
    if s == "" then "" else Characters(e, s[..|s| - 1]) + Written(e, s[|s| - 1])
  }

  lemma {:induction false} CharactersSize(e: Encoding, s: string)
    ensures Bytes(Characters(e, s)) == CharsSize(e, s)
  {
    hide Written, CharSize;
    if s != "" {
      CharactersSize(e, s[..|s| - 1]);
      WrittenSize(e, s[|s| - 1]);
      BytesConcat(Characters(e, s[..|s| - 1]), Written(e, s[|s| - 1]));
    }
  }

  // ---- Values ----

  function Quoted(e: Encoding, s: string): string {
    "\"" + Characters(e, s) + "\""
  }

  function Comma(e: Encoding): string {
    if e == EscapedAscii then ", " else ","
  }

  function Colon(e: Encoding): string {
    if e == EscapedAscii then ": " else ":"
  }

  function Dump(e: Encoding, j: Json): string
    decreases j, 0
  {
    match j
    case Null => "null"
    case Bool(holds) => if holds then "true" else "false"
    case Text(s) => Quoted(e, s)
    case Number(digits) => digits
    case List(items) => "[" + DumpItems(e, items) + "]"
    case Object(fields) => "{" + DumpFields(e, fields) + "}"
  }

  function DumpItems(e: Encoding, items: seq<Json>): string
    decreases items, 1
  {
    if items == [] then ""
    else
      DumpItems(e, items[..|items| - 1]) + (if |items| > 1 then Comma(e) else "") + Dump(e, items[|items| - 1])
  }

  function DumpFields(e: Encoding, fields: seq<Field>): string
    decreases fields, 1
  {
    if fields == [] then ""
    else
      var field := fields[|fields| - 1];
      DumpFields(e, fields[..|fields| - 1]) + (if |fields| > 1 then Comma(e) else "")
      + (Quoted(e, field.name) + Colon(e) + Dump(e, field.value))
  }

  // Numbers are written in ASCII.
  predicate PlainNumbers(j: Json)
    decreases j, 0
  {
    match j
    case Number(digits) => forall i :: 0 <= i < |digits| ==> digits[i] < '\U{80}'
    case List(items) => forall i :: 0 <= i < |items| ==> PlainNumbers(items[i])
    case Object(fields) => forall i :: 0 <= i < |fields| ==> PlainNumbers(fields[i].value)
    case _ => true
  }

  lemma QuotedSize(e: Encoding, s: string)
    ensures Bytes(Quoted(e, s)) == TextSize(e, s)
  {
    CharactersSize(e, s);
    AsciiBytes("\"");
    BytesConcat("\"" + Characters(e, s), "\"");
    BytesConcat("\"", Characters(e, s));
  }

  lemma SeparatorSizes(e: Encoding)
    ensures Bytes(Comma(e)) == Bytes(Colon(e)) == SeparatorSize(e)
  {
    AsciiBytes(Comma(e));
    AsciiBytes(Colon(e));
  }

  lemma Enclosed(before: string, inner: string, after: string)
    requires |before| == |after| == 1 && before[0] < '\U{80}' && after[0] < '\U{80}'
    ensures Bytes(before + inner + after) == 2 + Bytes(inner)
  {
    AsciiBytes(before);
    AsciiBytes(after);
    BytesConcat(before + inner, after);
    BytesConcat(before, inner);
  }

  // The size of a value is the number of bytes of its text.
  lemma {:induction false} DumpSize(e: Encoding, j: Json)
    requires PlainNumbers(j)
    ensures Bytes(Dump(e, j)) == Size(e, j)
    decreases j, 0
  {
    hide Bytes, Quoted, TextSize;
    match j
    case Null => AsciiBytes("null");
    case Bool(holds) => AsciiBytes(Dump(e, j));
    case Text(s) => QuotedSize(e, s);
    case Number(digits) => AsciiBytes(digits);
    case List(items) =>
      DumpItemsSize(e, items);
      Enclosed("[", DumpItems(e, items), "]");
    case Object(fields) =>
      DumpFieldsSize(e, fields);
      Enclosed("{", DumpFields(e, fields), "}");
  }

  lemma NoBytes()
    ensures Bytes("") == 0
  {
  }

  lemma {:induction false} DumpItemsSize(e: Encoding, items: seq<Json>)
    requires forall i :: 0 <= i < |items| ==> PlainNumbers(items[i])
    ensures Bytes(DumpItems(e, items)) == ItemsSize(e, items)
    decreases items, 1
  {
    hide Bytes, Dump, Size, Comma, PlainNumbers;
    NoBytes();
    SeparatorSizes(e);
    if items != [] {
      var front, last := items[..|items| - 1], items[|items| - 1];
      DumpItemsSize(e, front);
      DumpSize(e, last);
      var separator := if |items| > 1 then Comma(e) else "";
      BytesConcat(DumpItems(e, front) + separator, Dump(e, last));
      BytesConcat(DumpItems(e, front), separator);
    }
  }

  lemma {:induction false} DumpFieldsSize(e: Encoding, fields: seq<Field>)
    requires forall i :: 0 <= i < |fields| ==> PlainNumbers(fields[i].value)
    ensures Bytes(DumpFields(e, fields)) == FieldsSize(e, fields)
    decreases fields, 1
  {
    hide Bytes, Dump, Size, Comma, Colon, Quoted, TextSize, PlainNumbers;
    NoBytes();
    SeparatorSizes(e);
    if fields != [] {
      var front, last := fields[..|fields| - 1], fields[|fields| - 1];
      DumpFieldsSize(e, front);
      DumpSize(e, last.value);
      QuotedSize(e, last.name);
      var separator := if |fields| > 1 then Comma(e) else "";
      var name := Quoted(e, last.name);
      BytesConcat(DumpFields(e, front) + separator, name + Colon(e) + Dump(e, last.value));
      BytesConcat(DumpFields(e, front), separator);
      BytesConcat(name + Colon(e), Dump(e, last.value));
      BytesConcat(name, Colon(e));
    }
  }
}
