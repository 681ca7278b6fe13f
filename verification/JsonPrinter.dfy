/** The printer of `json.c` as it runs: strings escaped when an item is created, items appended to a buffer. */
module JsonPrinter {
  import opened Lists
  import opened Json

  /** The switch of `json_build_string`, for what is left of a string; what it appends and what is left then. */
  method BuildOne(s: string) returns (e: string, rest: string)
    requires s != []
    ensures rest == s[1..] && e + Escaped(rest) == Escaped(s)
  {
    var ch := s[0];
    e, rest := [], s[1..];
    if ch == '\"' || ch == '\\' || ch == '/' {
      e := e + "\\";
    } else if ch == 8 as char {
      e, ch := e + "\\", 'b';
    } else if ch == 12 as char {
      e, ch := e + "\\", 'f';
    } else if ch == '\n' {
      e, ch := e + "\\", 'n';
    } else if ch == '\r' {
      e, ch := e + "\\", 'r';
    } else if ch == '\t' {
      e, ch := e + "\\", 't';
    } else if !(0x20 <= ch as int <= 0x7e) {
      ch := '?';
    }
    e := e + [ch];
    assert e == Escape(s[0]);
  }

  /** `json_build_string` */
  method BuildString(s: string) returns (buf: string)
    ensures buf == Escaped(s)
  {
    var rest := s;
    buf := [];
    while rest != []
      invariant buf + Escaped(rest) == Escaped(s)
      decreases |rest|
    {
      var e, left := BuildOne(rest);
      Assoc(buf, e, Escaped(left));
      buf, rest := buf + e, left;
    }
    assert buf + [] == buf;
  }

  function Comma(more: bool): (s: string) {
    if more then "," else ""
  }

  lemma ItemsStep(items: seq<Item>, i: nat)
    requires i < |items|
    ensures PrintedItems(items[i..]) == Printed(items[i]) + (Comma(i + 1 < |items|) + PrintedItems(items[i + 1..]))
  {
    assert items[i..][1..] == items[i + 1..];
  }

  function Named(name: string): (s: string) {
    "\"" + name + "\":"
  }

  lemma FieldsStep(fields: seq<Field>, i: nat)
    requires i < |fields|
    ensures PrintedFields(fields[i..]) ==
            Named(fields[i].name) + (Printed(fields[i].value) + (Comma(i + 1 < |fields|) + PrintedFields(fields[i + 1..])))
  {
    assert fields[i..][1..] == fields[i + 1..];
  }

  lemma Assoc3(a: string, b: string, c: string, d: string)
    ensures ((a + b) + c) + d == a + (b + (c + d))
  {
  }

  lemma Assoc4(a: string, b: string, c: string, d: string, e: string)
    ensures (((a + b) + c) + d) + e == a + (b + (c + (d + e)))
  {
  }

  class Printer {
    var buf: string

    constructor ()
      ensures buf == ""
    {
      buf := "";
    }

    /** `kore_json_item_tobuf`, of an item whose name has been written. */
    method ToBuf(item: Item)
      modifies this
      ensures buf == old(buf) + Printed(item)
      decreases item, 0
    {
      match item
      case Object(fields) =>
        buf := buf + "{";
        ToBufFields(fields);
        Assoc3(old(buf), "{", PrintedFields(fields), "}");
        buf := buf + "}";
      case Array(items) =>
        buf := buf + "[";
        ToBufItems(items);
        Assoc3(old(buf), "[", PrintedItems(items), "]");
        buf := buf + "]";
      case Str(text) => buf := buf + ("\"" + text + "\"");
      case Integer(n) => buf := buf + Decimal(n);
      case U64(u) => buf := buf + Digits(u);
      case Literal(l) => buf := buf + Spelling(l);
      case Number(text) => buf := buf + text;
    }

    method ToBufItems(items: seq<Item>)
      modifies this
      ensures buf == old(buf) + PrintedItems(items)
      decreases items, 1
    {
      var i := 0;
      assert items[0..] == items;
      while i < |items|
        invariant i <= |items| && buf + PrintedItems(items[i..]) == old(buf) + PrintedItems(items)
      {
        ghost var was := buf;
        ItemsStep(items, i);
        ToBuf(items[i]);
        Assoc3(was, Printed(items[i]), Comma(i + 1 < |items|), PrintedItems(items[i + 1..]));
        buf := buf + Comma(i + 1 < |items|);
        i := i + 1;
      }
      assert items[i..] == [] && buf + "" == buf;
    }

    method ToBufFields(fields: seq<Field>)
      modifies this
      ensures buf == old(buf) + PrintedFields(fields)
      decreases fields, 1
    {
      var i := 0;
      assert fields[0..] == fields;
      while i < |fields|
        invariant i <= |fields| && buf + PrintedFields(fields[i..]) == old(buf) + PrintedFields(fields)
      {
        ghost var was := buf;
        FieldsStep(fields, i);
        buf := buf + Named(fields[i].name);
        ToBuf(fields[i].value);
        Assoc4(was, Named(fields[i].name), Printed(fields[i].value), Comma(i + 1 < |fields|), PrintedFields(fields[i + 1..]));
        buf := buf + Comma(i + 1 < |fields|);
        i := i + 1;
      }
      assert fields[i..] == [] && buf + "" == buf;
    }
  }
}
