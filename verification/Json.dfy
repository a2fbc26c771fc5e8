/** JSON values and the size of their two encodings: Python's json.dumps with escaped ASCII, which
    bounds what is sent to a model, and the compact UTF-8 form in which drafts are measured. */
module Json {

  datatype Json =
    | Null
    | Bool(holds: bool)
    | Text(text: string)
    | Number(digits: string)
    | List(items: seq<Json>)
    | Object(fields: seq<Field>)

  datatype Field = Field(name: string, value: Json)

  // A value together with the text it is stored as.
  datatype Encoded = Encoded(json: string, value: Json)

  // json.dumps with its default and with compact separators, and the compact UTF-8 dump of a model.
  datatype Encoding = EscapedAscii | EscapedCompact | CompactUtf8

  function CharSize(e: Encoding, c: char): (n: nat)
    ensures 1 <= n <= 12
  {
    if c == '\"' || c == '\\' || c == '\n' || c == '\r' || c == '\t' || c == '\U{8}' || c == '\U{C}' then 2
    else if c < ' ' then 6
    else if c < '\U{7F}' then 1
    else if e != CompactUtf8 then (if c < '\U{10000}' then 6 else 12)
    else if c == '\U{7F}' then 1
    else if c < '\U{800}' then 2
    else if c < '\U{10000}' then 3
    else 4
  }

  function CharsSize(e: Encoding, s: string): nat {
    if s == "" then 0 else CharsSize(e, s[..|s| - 1]) + CharSize(e, s[|s| - 1])
  }

  function TextSize(e: Encoding, s: string): nat {
    2 + CharsSize(e, s)
  }

  // Between two items stands ", " or ","; between a name and its value ": " or ":".
  function SeparatorSize(e: Encoding): nat {
    if e == EscapedAscii then 2 else 1
  }

  function Size(e: Encoding, j: Json): nat
    decreases j, 0
  {
    match j
    case Null => 4
    case Bool(b) => if b then 4 else 5
    case Text(s) => TextSize(e, s)
    case Number(digits) => |digits|
    case List(items) => 2 + ItemsSize(e, items)
    case Object(fields) => 2 + FieldsSize(e, fields)
  }

  function ItemsSize(e: Encoding, items: seq<Json>): nat
    decreases items, 1
  {
    if items == [] then 0
    else ItemsSize(e, items[..|items| - 1])
         + (if |items| > 1 then SeparatorSize(e) else 0) + Size(e, items[|items| - 1])
  }

  function FieldsSize(e: Encoding, fields: seq<Field>): nat
    decreases fields, 1
  {
    if fields == [] then 0
    else
      var field := fields[|fields| - 1];
      FieldsSize(e, fields[..|fields| - 1])
      + (if |fields| > 1 then SeparatorSize(e) else 0)
      + TextSize(e, field.name) + SeparatorSize(e) + Size(e, field.value)
  }

  lemma {:induction false} CharsWithin(e: Encoding, s: string)
    ensures CharsSize(e, s) <= CharsSize(EscapedAscii, s) <= 12 * |s|
  {
    if s != "" {
      CharsWithin(e, s[..|s| - 1]);
    }
  }

  // No encoding is ever longer than the escaped ASCII one.
  lemma {:induction false} EscapedIsLongest(e: Encoding, j: Json)
    ensures Size(e, j) <= Size(EscapedAscii, j)
    decreases j, 0
  {
    match j
    case Text(s) => CharsWithin(e, s);
    case List(items) => ItemsWithin(e, items);
    case Object(fields) => FieldsWithin(e, fields);
    case _ =>
  }

  lemma {:induction false} ItemsWithin(e: Encoding, items: seq<Json>)
    ensures ItemsSize(e, items) <= ItemsSize(EscapedAscii, items)
    decreases items, 1
  {
    if items != [] {
      ItemsWithin(e, items[..|items| - 1]);
      EscapedIsLongest(e, items[|items| - 1]);
    }
  }

  lemma {:induction false} FieldsWithin(e: Encoding, fields: seq<Field>)
    ensures FieldsSize(e, fields) <= FieldsSize(EscapedAscii, fields)
    decreases fields, 1
  {
    if fields != [] {
      FieldsWithin(e, fields[..|fields| - 1]);
      CharsWithin(e, fields[|fields| - 1].name);
      EscapedIsLongest(e, fields[|fields| - 1].value);
    }
  }
}
