/**
 * The compact JSON text of a value, with every character outside printable
 * ASCII escaped; its length is the size that the result cap goes by.
 */
module JsonText {
  import opened ResultCap

  function Hex(d: nat): char
    requires d < 16
  {
    "0123456789abcdef"[d]
  }

  /** One UTF-16 code unit, escaped. */
  function Unit(n: nat): string
    requires n < 0x1_0000
  {
    "\\u" + [Hex(n / 4096), Hex(n / 256 % 16), Hex(n / 16 % 16), Hex(n % 16)]
  }

  /** A character beyond the basic plane is a surrogate pair. */
  function CharText(c: char): string {
    match c
    case '"' => "\\\""
    case '\\' => "\\\\"
    case '\n' => "\\n"
    case '\r' => "\\r"
    case '\t' => "\\t"
    case '\U{0008}' => "\\b"
    case '\U{000C}' => "\\f"
    case _ =>
      var n := c as int;
      if 32 <= n <= 126 then [c]
      else if n <= 0xFFFF then Unit(n)
      else Unit(0xD800 + (n - 0x1_0000) / 1024) + Unit(0xDC00 + (n - 0x1_0000) % 1024)
  }

  function Escaped(s: string): string {
    if s == "" then "" else CharText(s[0]) + Escaped(s[1..])
  }

  function Quoted(s: string): string { "\"" + Escaped(s) + "\"" }

  /** json.dumps with the separators "," and ":". */
  function Compact(v: Json): string
    decreases v
  {
    match v
    case Null => "null"
    case Bool(b) => if b then "true" else "false"
    case Number(text) => text
    case Str(s) => Quoted(s)
    case List(items) => "[" + ItemsText(v, items) + "]"
    case Object(fields) => "{" + FieldsText(v, fields) + "}"
  }

  function ItemsText(v: Json, items: seq<Json>): string
    requires forall i :: 0 <= i < |items| ==> items[i] < v
    decreases v, |items|
  {
    if items == [] then ""
    else Compact(items[0]) + (if |items| == 1 then "" else "," + ItemsText(v, items[1..]))
  }

  function FieldsText(v: Json, fields: Dict): string
    requires forall i :: 0 <= i < |fields| ==> fields[i].1 < v
    decreases v, |fields|
  {
    if fields == [] then ""
    else
      Quoted(fields[0].0) + ":" + Compact(fields[0].1)
      + (if |fields| == 1 then "" else "," + FieldsText(v, fields[1..]))
  }

  lemma CharTextIsSized(c: char)
    ensures |CharText(c)| == CharSize(c)
  {
  }

  lemma {:induction false} TextIsSized(s: string)
    ensures |Escaped(s)| == TextSize(s)
  {
    if s != "" {
      CharTextIsSized(s[0]);
      TextIsSized(s[1..]);
    }
  }

  /** The size is the length of the text. */
  lemma {:induction false} SizeIsLength(v: Json)
    ensures Size(v) == |Compact(v)|
    decreases v
  {
    match v
    case Str(s) => TextIsSized(s);
    case List(items) => ItemsAreSized(v, items);
    case Object(fields) => FieldsAreSized(v, fields);
    case _ =>
  }

  lemma {:induction false} ItemsAreSized(v: Json, items: seq<Json>)
    requires forall i :: 0 <= i < |items| ==> items[i] < v
    ensures |ItemsText(v, items)| == ItemsSize(v, items) + if items == [] then 0 else |items| - 1
    decreases v, |items|
  {
    if items != [] {
      SizeIsLength(items[0]);
      ItemsAreSized(v, items[1..]);
    }
  }

  lemma {:induction false} FieldsAreSized(v: Json, fields: Dict)
    requires forall i :: 0 <= i < |fields| ==> fields[i].1 < v
    ensures |FieldsText(v, fields)| == FieldsSize(v, fields) + if fields == [] then 0 else |fields| - 1
    decreases v, |fields|
  {
    if fields != [] {
      TextIsSized(fields[0].0);
      SizeIsLength(fields[0].1);
      FieldsAreSized(v, fields[1..]);
    }
  }

  /** A result fits if its text is at most 256 KiB long; as all else is escaped, that is its length in bytes. */
  lemma FitsByText(d: Dict)
    ensures Fits(d) <==> |Compact(Object(d))| <= 262144
  {
    SizeIsLength(Object(d));
  }
}
