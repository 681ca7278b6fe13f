/** `json.c`: the parser and the printer, octets written as characters. */
module Json {
  import opened Bytes

  // ---- Items ----

  datatype Lit = True | False | Null

  /** `struct kore_json_item`; the items of an object have names. */
  datatype Item =
    | Object(fields: seq<Field>)
    | Array(items: seq<Item>)
    | Str(text: string)
    | Integer(n: int)
    | U64(u: nat)
    | Literal(lit: Lit)
    | Number(text: string)            // a double, by its text

  datatype Field = Field(name: string, value: Item)

  /** KORE_JSON_DEPTH_MAX, and which texts of the document `kore_strtodouble` takes. */
  datatype Env = Env(depthMax: nat, doubles: set<string>)

  const INT64_MAX: nat := 0x7fff_ffff_ffff_ffff
  const UINT64_MAX: nat := 0xffff_ffff_ffff_ffff

  /** A success leaves the rest of the text, and whether errno now holds ERANGE or EINVAL. */
  datatype Out<T> = Fail | Ok(value: T, rest: string, stale: bool)

  // ---- Lexical level ----

  predicate IsBlank(c: char) {
    c == ' ' || c == '\n' || c == '\r' || c == '\t'
  }

  /** `json_consume_whitespace` */
  function Skip(s: string): (r: string)
    ensures |r| <= |s|
    ensures r != [] ==> !IsBlank(r[0])
  {
    if s != [] && IsBlank(s[0]) then Skip(s[1..]) else s
  }

  predicate IsDigit(c: char) {
    '0' <= c <= '9'
  }

  predicate InNumber(c: char) {
    IsDigit(c) || c == '-' || c == '+' || c == '.' || c == 'e' || c == 'E'
  }

  /** The characters of a number; a minus that does not come first is an error. */
  function Scan(s: string, buf: string): (r: Option<(string, string)>)
    ensures r.Some? ==> |r.value.1| <= |s|
    ensures r.Some? && buf == [] && s != [] && InNumber(s[0]) ==> |r.value.1| < |s|
    decreases |s|
  {
    if s == [] || !InNumber(s[0]) then Some((buf, s))
    else if s[0] == '-' && buf != [] then None
    else Scan(s[1..], buf + [s[0]])
  }

  predicate AllDigits(s: string) {
    forall i :: 0 <= i < |s| ==> IsDigit(s[i])
  }

  function DecimalValue(s: string): (n: nat)
    requires AllDigits(s)
  {
    if s == [] then 0 else DecimalValue(s[..|s| - 1]) * 10 + (s[|s| - 1] as int - '0' as int)
  }

  /** `kore_strtonum64` on what `json_parse_number` collects, and the type it settles on. The two C library
      calls leave errno alone unless they overflow, and the test on errno comes after them. */
  function Whole(buf: string, rest: string, stale: bool): (r: Out<Item>) {
    var minus := buf != [] && buf[0] == '-';
    var digits := if minus then buf[1..] else buf;
    if digits == [] || !AllDigits(digits) then Fail
    else
      var v := DecimalValue(digits);
      if minus then
        if v > INT64_MAX + 1 || (v == INT64_MAX + 1 && stale) then Fail else Ok(Integer(0 - v), rest, stale)
      else if v >= UINT64_MAX then Fail
      else if v <= INT64_MAX then Ok(Integer(v), rest, stale)
      else Ok(U64(v), rest, true)
  }

  predicate Fractional(buf: string) {
    '.' in buf || 'e' in buf || 'E' in buf
  }

  /** `json_parse_number`; `kore_strtodouble` clears errno before it converts. */
  function Numeral(env: Env, s: string, stale: bool): (r: Out<Item>)
    ensures r.Ok? && s != [] && InNumber(s[0]) ==> |r.rest| < |s|
  {
    match Scan(s, [])
    case None => Fail
    case Some((buf, rest)) =>
      if !Fractional(buf) then Whole(buf, rest, stale)
      else if buf in env.doubles then Ok(Number(buf), rest, false)
      else Fail
  }

  /** What a character after a backslash stands for. */
  function Unescape(c: char): (r: Option<char>) {
    if c == '\"' || c == '\\' || c == '/' then Some(c)
    else if c == 'b' then Some(8 as char)
    else if c == 'f' then Some(12 as char)
    else if c == 'n' then Some('\n')
    else if c == 'r' then Some('\r')
    else if c == 't' then Some('\t')
    else None
  }

  /** The loop of `json_get_string`. */
  function Chars(s: string, acc: string): (r: Option<(string, string)>)
    ensures r.Some? ==> |r.value.1| < |s|
    decreases |s|
  {
    if s == [] then None
    else if s[0] == '\"' then Some((acc, s[1..]))
    else if s[0] as int <= 0x1f then None
    else if s[0] != '\\' then Chars(s[1..], acc + [s[0]])
    else if |s| < 2 || Unescape(s[1]).None? then None
    else Chars(s[2..], acc + [Unescape(s[1]).value])
  }

  function GetString(s: string): (r: Option<(string, string)>)
    ensures r.Some? ==> |r.value.1| < |s|
  {
    if s == [] || s[0] != '\"' then None else Chars(s[1..], [])
  }

  /** `json_parse_literal` */
  function Word(s: string, stale: bool): (r: Out<Item>)
    ensures r.Ok? ==> |r.rest| < |s|
  {
    if |s| < 4 then Fail
    else if s[0] == 't' && s[1] == 'r' && s[2] == 'u' && s[3] == 'e' then Ok(Literal(True), s[4..], stale)
    else if s[0] == 'n' && s[1] == 'u' && s[2] == 'l' && s[3] == 'l' then Ok(Literal(Null), s[4..], stale)
    else if |s| > 4 && s[0] == 'f' && s[1] == 'a' && s[2] == 'l' && s[3] == 's' && s[4] == 'e' then Ok(Literal(False), s[5..], stale)
    else Fail
  }

  // ---- Items ----

  /** One item, by its first character (`json_guess_type`). */
  function Value(env: Env, s: string, depth: nat, stale: bool): (r: Out<Item>)
    ensures r.Ok? ==> |r.rest| < |s|
    decreases |s|, 0
  {
    if s == [] then Fail
    else if s[0] == '-' || IsDigit(s[0]) then Numeral(env, s, stale)
    else if s[0] == '{' then (if depth >= env.depthMax then Fail else Fields(env, s[1..], depth + 1, false, [], stale))
    else if s[0] == '[' then (if depth >= env.depthMax then Fail else Elements(env, s[1..], depth + 1, false, [], stale))
    else if s[0] == '\"' then
      match GetString(s)
      case None => Fail
      case Some((text, rest)) => Ok(Str(text), rest, stale)
    else Word(s, stale)
  }

  /** The loop of `json_parse_array`. */
  function Elements(env: Env, s: string, depth: nat, hasnext: bool, acc: seq<Item>, stale: bool): (r: Out<Item>)
    ensures r.Ok? ==> |r.rest| < |s|
    decreases |s|, 1
  {
    var s1 := Skip(s);
    if s1 == [] then Fail
    else if s1[0] == ']' then (if hasnext then Fail else Ok(Array(acc), s1[1..], stale))
    else
      match Value(env, s1, depth, stale)
      case Fail => Fail
      case Ok(item, r, st) =>
        var r1 := Skip(r);
        if r1 == [] then Fail
        else if r1[0] == ',' then Elements(env, r1[1..], depth, true, acc + [item], st)
        else if r1[0] == ']' then Ok(Array(acc + [item]), r1[1..], st)
        else Fail
  }

  /** A name, its colon and the white space around them. */
  function Key(s: string): (r: Option<(string, string)>)
    ensures r.Some? ==> |r.value.1| < |s|
  {
    match GetString(s)
    case None => None
    case Some((key, rest)) =>
      var k := Skip(rest);
      if k == [] || k[0] != ':' then None else Some((key, Skip(k[1..])))
  }

  /** The loop of `json_parse_object`. */
  function Fields(env: Env, s: string, depth: nat, hasnext: bool, acc: seq<Field>, stale: bool): (r: Out<Item>)
    ensures r.Ok? ==> |r.rest| < |s|
    decreases |s|, 1
  {
    var s1 := Skip(s);
    if s1 == [] then Fail
    else if s1[0] == '}' then (if hasnext then Fail else Ok(Object(acc), s1[1..], stale))
    else
      match Key(s1)
      case None => Fail
      case Some((key, v)) =>
        match Value(env, v, depth, stale)
        case Fail => Fail
        case Ok(item, r, st) =>
          var r1 := Skip(r);
          if r1 == [] then Fail
          else if r1[0] == ',' then Fields(env, r1[1..], depth, true, acc + [Field(key, item)], st)
          else if r1[0] == '}' then Ok(Object(acc + [Field(key, item)]), r1[1..], st)
          else Fail
  }

  /** `kore_json_parse`: one item, with nothing but white space around it. */
  function Parsed(env: Env, s: string, stale: bool): (r: Option<Item>) {
    match Value(env, Skip(s), 0, stale)
    case Fail => None
    case Ok(item, rest, _) => if Skip(rest) == [] then Some(item) else None
  }

  // ---- Printing ----

  /** How `json_build_string` stores a character; what cannot be printed becomes a question mark. */
  function Escape(c: char): (s: string) {
    if c == '\"' || c == '\\' || c == '/' then ['\\', c]
    else if c == 8 as char then "\\b"
    else if c == 12 as char then "\\f"
    else if c == '\n' then "\\n"
    else if c == '\r' then "\\r"
    else if c == '\t' then "\\t"
    else [Visible(c)]
  }

  /** The character itself, if it survives. */
  function Visible(c: char): (d: char) {
    if 0x20 <= c as int <= 0x7e || c in {8 as char, 12 as char, '\n', '\r', '\t'} then c else '?'
  }

  /** A string survives being stored exactly if all its characters are printable or have an escape of their own. */
  lemma {:induction false} VisiblyWhole(s: string)
    ensures |Visibly(s)| == |s|
    ensures forall i :: 0 <= i < |s| ==>
      Visibly(s)[i] == if ' ' <= s[i] <= '~' || s[i] as int in {8, 9, 10, 12, 13} then s[i] else '?'
  {
    if s != [] {
      VisiblyWhole(s[1..]);
    }
  }

  function Escaped(s: string): (r: string) {
    if s == [] then [] else Escape(s[0]) + Escaped(s[1..])
  }

  function Visibly(s: string): (r: string) {
    if s == [] then [] else [Visible(s[0])] + Visibly(s[1..])
  }

  function Digits(n: nat): (s: string)
    ensures s != [] && AllDigits(s)
  {
    if n < 10 then [('0' as int + n) as char] else Digits(n / 10) + [('0' as int + n % 10) as char]
  }

  function Decimal(n: int): (s: string) {
    if n < 0 then "-" + Digits(0 - n) else Digits(n)
  }

  function Spelling(l: Lit): (s: string) {
    match l
    case True => "true"
    case False => "false"
    case Null => "null"
  }

  /** `kore_json_item_tobuf`, of an item without a name. */
  function Printed(item: Item): (s: string)
    decreases item, 0
  {
    match item
    case Object(fields) => "{" + PrintedFields(fields) + "}"
    case Array(items) => "[" + PrintedItems(items) + "]"
    case Str(text) => "\"" + text + "\""
    case Integer(n) => Decimal(n)
    case U64(u) => Digits(u)
    case Literal(l) => Spelling(l)
    case Number(text) => text
  }

  function PrintedItems(items: seq<Item>): (s: string)
    decreases items, 1
  {
    if items == [] then "" else Printed(items[0]) + (if |items| > 1 then "," else "") + PrintedItems(items[1..])
  }

  function PrintedFields(fields: seq<Field>): (s: string)
    decreases fields, 1
  {
    if fields == [] then ""
    else
      "\"" + fields[0].name + "\":" + Printed(fields[0].value) + (if |fields| > 1 then "," else "") + PrintedFields(fields[1..])
  }

  // ---- Documents: tokens as they are written, and white space wherever a token ends ----

  datatype Doc =
    | DString(s: string)              // a string as it was created
    | DRaw(body: string)              // what is written between two quotes
    | DDigits(minus: bool, digits: string)
    | DInteger(n: int)
    | DU64(u: nat)
    | DLiteral(lit: Lit)
    | DNumber(text: string)           // a double, as it is printed
    | DArray(pad: string, slots: Slots)
    | DObject(pad: string, slots: Slots)

  /** The items of an array or object, in order. An array has no names. */
  datatype Slots =
    | End
    | Slot(before: string, name: string, colonBefore: string, colonAfter: string, value: Doc, after: string, more: Slots)

  /** Spaces, tabs and line ends. */
  predicate Blank(w: string) {
    forall i :: 0 <= i < |w| ==> w[i] as int in {0x20, 0x09, 0x0a, 0x0d}
  }

  /** No quote, backslash or control character. */
  predicate Clean(name: string) {
    forall i :: 0 <= i < |name| ==> name[i] != '\"' && name[i] != '\\' && name[i] as int > 0x1f
  }

  /** What may stand between two quotes: no control character, and a backslash only in front of a character that
      may follow one. */
  predicate Legal(body: string) {
    body == []
    || (if body[0] == '\\' then |body| >= 2 && Unescape(body[1]).Some? && Legal(body[2..])
        else body[0] != '\"' && body[0] as int > 0x1f && Legal(body[1..]))
  }

  /** What it stands for. */
  function Decoded(body: string): (t: string)
    requires Legal(body)
  {
    if body == [] then []
    else if body[0] == '\\' then [Unescape(body[1]).value] + Decoded(body[2..])
    else [body[0]] + Decoded(body[1..])
  }

  /** A text without quotes, backslashes and control characters stands for itself. */
  lemma {:induction false} CleanIsLegal(name: string)
    requires Clean(name)
    ensures Legal(name) && Decoded(name) == name
  {
    if name != [] {
      CleanIsLegal(name[1..]);
    }
  }

  /** The text of a decimal fraction: a sign only in front, and a point or an exponent. */
  predicate Decimals(t: string) {
    && t != [] && (t[0] == '-' || '0' <= t[0] <= '9') && ('.' in t || 'e' in t || 'E' in t)
    && forall i :: 0 <= i < |t| ==> ('0' <= t[i] <= '9' || t[i] in {'-', '+', '.', 'e', 'E'}) && (t[i] == '-' ==> i == 0)
  }

  predicate Fine(d: Doc) {
    match d
    case DNumber(t) => Decimals(t)
    case DString(_) => true
    case DRaw(body) => Legal(body)
    case DDigits(_, digits) => digits != [] && AllDigits(digits)
    case DInteger(n) => 0 - (INT64_MAX + 1) <= n <= INT64_MAX
    case DU64(u) => u <= UINT64_MAX
    case DLiteral(_) => true
    case DArray(pad, slots) => Blank(pad) && FineSlots(slots)
    case DObject(pad, slots) => Blank(pad) && FineSlots(slots)
  }

  predicate FineSlots(ss: Slots) {
    match ss
    case End => true
    case Slot(before, name, cb, ca, value, after, more) =>
      Blank(before) && Legal(name) && Blank(cb) && Blank(ca) && Fine(value) && Blank(after) && FineSlots(more)
  }

  function Text(d: Doc): (s: string) {
    match d
    case DNumber(t) => t
    case DString(s) => "\"" + Escaped(s) + "\""
    case DRaw(body) => "\"" + body + "\""
    case DDigits(minus, digits) => if minus then "-" + digits else digits
    case DInteger(n) => Decimal(n)
    case DU64(u) => Digits(u)
    case DLiteral(l) => Spelling(l)
    case DArray(pad, slots) => "[" + (if slots.End? then pad + "]" else ItemsText(slots))
    case DObject(pad, slots) => "{" + (if slots.End? then pad + "}" else FieldsText(slots))
  }

  function ItemsText(ss: Slots): (s: string) {
    match ss
    case End => ""
    case Slot(before, _, _, _, value, after, more) =>
      before + (Text(value) + (after + (if more.End? then "]" else "," + ItemsText(more))))
  }

  function NameText(name: string, colonBefore: string, colonAfter: string): (s: string) {
    "\"" + (name + ("\"" + (colonBefore + (":" + colonAfter))))
  }

  function FieldsText(ss: Slots): (s: string) {
    match ss
    case End => ""
    case Slot(before, name, cb, ca, value, after, more) =>
      before + (NameText(name, cb, ca) + (Text(value) + (after + (if more.End? then "}" else "," + FieldsText(more)))))
  }

  /** The tree the document stands for: what cannot be printed is a question mark, and unsigned integers that
      fit are signed. */
  function Meant(d: Doc): (item: Item)
    requires Fine(d)
  {
    match d
    case DNumber(t) => Number(t)
    case DString(s) => Str(Visibly(s))
    case DRaw(body) => Str(Decoded(body))
    case DDigits(minus, digits) =>
      var v := DecimalValue(digits);
      if minus then Integer(0 - v) else if v <= INT64_MAX then Integer(v) else U64(v)
    case DInteger(n) => Integer(n)
    case DU64(u) => if u <= INT64_MAX then Integer(u) else U64(u)
    case DLiteral(l) => Literal(l)
    case DArray(_, slots) => Array(MeantItems(slots))
    case DObject(_, slots) => Object(MeantFields(slots))
  }

  function MeantItems(ss: Slots): (items: seq<Item>)
    requires FineSlots(ss)
  {
    match ss
    case End => []
    case Slot(_, _, _, _, value, _, more) => [Meant(value)] + MeantItems(more)
  }

  function MeantFields(ss: Slots): (fields: seq<Field>)
    requires FineSlots(ss)
  {
    match ss
    case End => []
    case Slot(_, name, _, _, value, _, more) => [Field(Decoded(name), Meant(value))] + MeantFields(more)
  }

  /** Whether the document comes back, and errno after it: not if it nests too deep, not with the largest
      unsigned integer, not with a double that does not convert, and not with the smallest integer once errno
      holds ERANGE, which every unsigned integer that does not fit leaves behind and every double clears. */
  function Survives(env: Env, d: Doc, depth: nat, stale: bool): (r: Option<bool>)
    requires Fine(d)
  {
    match d
    case DNumber(t) => if t in env.doubles then Some(false) else None
    case DString(_) => Some(stale)
    case DRaw(_) => Some(stale)
    case DDigits(minus, digits) =>
      var v := DecimalValue(digits);
      if minus then (if v > INT64_MAX + 1 || (v == INT64_MAX + 1 && stale) then None else Some(stale))
      else if v >= UINT64_MAX then None
      else Some(stale || v > INT64_MAX)
    case DInteger(n) => if n < 0 - INT64_MAX && stale then None else Some(stale)
    case DU64(u) => if u >= UINT64_MAX then None else Some(stale || u > INT64_MAX)
    case DLiteral(_) => Some(stale)
    case DArray(_, slots) => if depth >= env.depthMax then None else SurviveAll(env, slots, depth + 1, stale)
    case DObject(_, slots) => if depth >= env.depthMax then None else SurviveAll(env, slots, depth + 1, stale)
  }

  function SurviveAll(env: Env, ss: Slots, depth: nat, stale: bool): (r: Option<bool>)
    requires FineSlots(ss)
  {
    match ss
    case End => Some(stale)
    case Slot(_, _, _, _, value, _, more) =>
      match Survives(env, value, depth, stale)
      case None => None
      case Some(st) => SurviveAll(env, more, depth, st)
  }

  // ---- Lexical round trips ----

  lemma {:induction false} SkipBlank(w: string, s: string)
    requires Blank(w) && (s == [] || !IsBlank(s[0]))
    ensures Skip(w + s) == s
  {
    if w == [] {
      assert w + s == s;
    } else {
      assert (w + s)[1..] == w[1..] + s;
      SkipBlank(w[1..], s);
    }
  }

  /** A number ends here. */
  predicate Follows(s: string) {
    s == [] || !('0' <= s[0] <= '9' || s[0] in {'-', '+', '.', 'e', 'E'})
  }

  lemma {:induction false} ScanAll(t: string, buf: string, rest: string)
    requires Follows(rest) && forall i :: 0 <= i < |t| ==> InNumber(t[i]) && (t[i] == '-' ==> i == 0 && buf == [])
    ensures Scan(t + rest, buf) == Some((buf + t, rest))
    decreases |t|
  {
    if t == [] {
      assert t + rest == rest && buf + t == buf;
    } else {
      assert (t + rest)[1..] == t[1..] + rest;
      assert (buf + [t[0]]) + t[1..] == buf + t;
      ScanAll(t[1..], buf + [t[0]], rest);
    }
  }

  lemma {:induction false} DigitsBack(n: nat)
    ensures DecimalValue(Digits(n)) == n
  {
    var s := Digits(n);
    if n >= 10 {
      DigitsBack(n / 10);
      assert s[..|s| - 1] == Digits(n / 10);
    } else {
      assert s[..0] == [];
    }
  }

  lemma {:induction false} NumeralIs(env: Env, s: string, buf: string, rest: string, stale: bool)
    requires Scan(s, []) == Some((buf, rest))
    ensures !Fractional(buf) ==> Numeral(env, s, stale) == Whole(buf, rest, stale)
    ensures Whole(buf, rest, stale).Ok? ==> Whole(buf, rest, stale).rest == rest
    ensures Fractional(buf) && buf in env.doubles ==> Numeral(env, s, stale) == Ok(Number(buf), rest, false)
    ensures Fractional(buf) && buf !in env.doubles ==> Numeral(env, s, stale) == Fail
  {
  }

  lemma {:induction false} WholeNatural(n: nat, rest: string, stale: bool)
    ensures Whole(Digits(n), rest, stale) ==
            if n >= UINT64_MAX then Fail
            else if n <= INT64_MAX then Ok(Integer(n), rest, stale)
            else Ok(U64(n), rest, true)
  {
    DigitsBack(n);
    assert IsDigit(Digits(n)[0]);
  }

  lemma {:induction false} WholeNegative(n: nat, rest: string, stale: bool)
    requires n <= INT64_MAX + 1
    ensures Whole("-" + Digits(n), rest, stale) == if n > INT64_MAX && stale then Fail else Ok(Integer(0 - n), rest, stale)
  {
    DigitsBack(n);
    assert ("-" + Digits(n))[1..] == Digits(n);
  }

  lemma {:induction false} NaturalBack(env: Env, n: nat, stale: bool, rest: string)
    requires Follows(rest)
    ensures Numeral(env, Digits(n) + rest, stale) == Whole(Digits(n), rest, stale)
  {
    var t := Digits(n);
    ScanAll(t, [], rest);
    assert [] + t == t && !Fractional(t);
    NumeralIs(env, t + rest, t, rest, stale);
  }

  lemma {:induction false} NegativeBack(env: Env, n: nat, stale: bool, rest: string)
    requires Follows(rest)
    ensures Numeral(env, "-" + Digits(n) + rest, stale) == Whole("-" + Digits(n), rest, stale)
  {
    var t := "-" + Digits(n);
    ScanAll(t, [], rest);
    assert [] + t == t && !Fractional(t);
    NumeralIs(env, t + rest, t, rest, stale);
  }

  lemma {:induction false} CharsLegal(body: string, acc: string, rest: string)
    requires Legal(body)
    ensures Chars(body + ("\"" + rest), acc) == Some((acc + Decoded(body), rest))
    decreases |body|
  {
    var s := body + ("\"" + rest);
    if body == [] {
      assert s == "\"" + rest && s[1..] == rest && acc + Decoded(body) == acc;
    } else if body[0] == '\\' {
      assert s[2..] == body[2..] + ("\"" + rest) && s[0] == body[0] && s[1] == body[1];
      assert (acc + [Unescape(body[1]).value]) + Decoded(body[2..]) == acc + Decoded(body);
      CharsLegal(body[2..], acc + [Unescape(body[1]).value], rest);
    } else {
      assert s[1..] == body[1..] + ("\"" + rest) && s[0] == body[0];
      assert (acc + [body[0]]) + Decoded(body[1..]) == acc + Decoded(body);
      CharsLegal(body[1..], acc + [body[0]], rest);
    }
  }

  /** Reading back one character as it was stored. */
  lemma {:induction false} CharBack(c: char, s: string, acc: string)
    ensures Chars(Escape(c) + s, acc) == Chars(s, acc + [Visible(c)])
  {
    var e := Escape(c);
    if |e| == 2 {
      assert (e + s)[2..] == s && (e + s)[0] == '\\' && (e + s)[1] == e[1];
    } else {
      assert (e + s)[1..] == s && (e + s)[0] == e[0];
    }
  }

  lemma {:induction false} CharsBack(t: string, acc: string, rest: string)
    ensures Chars(Escaped(t) + ("\"" + rest), acc) == Some((acc + Visibly(t), rest))
    decreases |t|
  {
    var q := "\"" + rest;
    if t == [] {
      assert Escaped(t) + q == q && q[1..] == rest && acc + Visibly(t) == acc;
    } else {
      assert Escaped(t) + q == Escape(t[0]) + (Escaped(t[1..]) + q);
      CharBack(t[0], Escaped(t[1..]) + q, acc);
      CharsBack(t[1..], acc + [Visible(t[0])], rest);
      assert (acc + [Visible(t[0])]) + Visibly(t[1..]) == acc + Visibly(t);
    }
  }

  // ---- Round trip ----

  function Back(item: Item, rest: string, r: Option<bool>): (o: Out<Item>) {
    if r.None? then Fail else Ok(item, rest, r.value)
  }

  lemma {:induction false} TextHead(d: Doc)
    requires Fine(d)
    ensures Text(d) != [] && !IsBlank(Text(d)[0]) && Text(d)[0] != ']'
  {
    match d
    case DNumber(_) =>
    case DInteger(n) => assert AllDigits(Digits(if n < 0 then 0 - n else n));
    case DU64(u) => assert AllDigits(Digits(u));
    case DDigits(_, _) =>
    case DRaw(_) =>
    case DString(_) =>
    case DLiteral(_) =>
    case DArray(_, _) =>
    case DObject(_, _) =>
  }

  /** One look at the first character. */
  lemma {:induction false} Dispatch(env: Env, s: string, depth: nat, stale: bool)
    requires s != []
    ensures s[0] == '[' && depth >= env.depthMax ==> Value(env, s, depth, stale) == Fail
    ensures s[0] == '[' && depth < env.depthMax ==> Value(env, s, depth, stale) == Elements(env, s[1..], depth + 1, false, [], stale)
    ensures s[0] == '{' && depth >= env.depthMax ==> Value(env, s, depth, stale) == Fail
    ensures s[0] == '{' && depth < env.depthMax ==> Value(env, s, depth, stale) == Fields(env, s[1..], depth + 1, false, [], stale)
    ensures s[0] == '-' || IsDigit(s[0]) ==> Value(env, s, depth, stale) == Numeral(env, s, stale)
    ensures s[0] in {'t', 'f', 'n'} ==> Value(env, s, depth, stale) == Word(s, stale)
  {
  }

  lemma {:induction false} StringBack(env: Env, t: string, depth: nat, stale: bool, rest: string)
    ensures Value(env, Text(DString(t)) + rest, depth, stale) == Ok(Str(Visibly(t)), rest, stale)
  {
    CharsBack(t, [], rest);
    var s := Text(DString(t)) + rest;
    assert s[1..] == Escaped(t) + ("\"" + rest);
    assert [] + Visibly(t) == Visibly(t);
    assert GetString(s) == Some((Visibly(t), rest));
  }

  lemma {:induction false} QuotedBack(body: string, rest: string)
    requires Legal(body)
    ensures GetString(Text(DRaw(body)) + rest) == Some((Decoded(body), rest))
  {
    CharsLegal(body, [], rest);
    var s := Text(DRaw(body)) + rest;
    assert s[1..] == body + ("\"" + rest);
    assert [] + Decoded(body) == Decoded(body);
  }

  lemma {:induction false} RawBack(env: Env, body: string, depth: nat, stale: bool, rest: string)
    requires Legal(body)
    ensures Value(env, Text(DRaw(body)) + rest, depth, stale) == Ok(Str(Decoded(body)), rest, stale)
  {
    QuotedBack(body, rest);
    assert (Text(DRaw(body)) + rest)[0] == '\"';
  }

  lemma {:induction false} ScanDigits(minus: bool, digits: string, rest: string)
    requires AllDigits(digits) && Follows(rest)
    ensures var t := if minus then "-" + digits else digits;
            !Fractional(t) && Scan(t + rest, []) == Some((t, rest))
  {
    var t := if minus then "-" + digits else digits;
    assert forall i :: 0 <= i < |t| ==> InNumber(t[i]) && (t[i] == '-' ==> i == 0);
    ScanAll(t, [], rest);
    assert [] + t == t;
  }

  lemma {:induction false} WholeDigits(env: Env, minus: bool, digits: string, depth: nat, stale: bool, rest: string)
    requires digits != [] && AllDigits(digits)
    ensures var d := DDigits(minus, digits);
            Whole(Text(d), rest, stale) == Back(Meant(d), rest, Survives(env, d, depth, stale))
  {
    assert ("-" + digits)[1..] == digits;
    assert IsDigit(digits[0]);
  }

  lemma {:induction false} DigitsValue(env: Env, minus: bool, digits: string, depth: nat, stale: bool, rest: string)
    requires digits != [] && AllDigits(digits) && Follows(rest)
    ensures var d := DDigits(minus, digits);
            Value(env, Text(d) + rest, depth, stale) == Back(Meant(d), rest, Survives(env, d, depth, stale))
  {
    var t := Text(DDigits(minus, digits));
    ScanDigits(minus, digits, rest);
    NumeralIs(env, t + rest, t, rest, stale);
    WholeDigits(env, minus, digits, depth, stale, rest);
    assert t[0] == '-' || IsDigit(t[0]);
    Dispatch(env, t + rest, depth, stale);
  }

  lemma {:induction false} NaturalValue(env: Env, n: nat, depth: nat, stale: bool, rest: string)
    requires Follows(rest)
    ensures Value(env, Digits(n) + rest, depth, stale) == Whole(Digits(n), rest, stale)
  {
    NaturalBack(env, n, stale, rest);
    assert IsDigit(Digits(n)[0]);
    Dispatch(env, Digits(n) + rest, depth, stale);
  }

  lemma {:induction false} NegativeValue(env: Env, n: nat, depth: nat, stale: bool, rest: string)
    requires Follows(rest)
    ensures Value(env, "-" + Digits(n) + rest, depth, stale) == Whole("-" + Digits(n), rest, stale)
  {
    NegativeBack(env, n, stale, rest);
    Dispatch(env, "-" + Digits(n) + rest, depth, stale);
  }

  lemma {:induction false} IntegerValue(env: Env, n: int, depth: nat, stale: bool, rest: string)
    requires Follows(rest)
    ensures Value(env, Decimal(n) + rest, depth, stale) == Whole(Decimal(n), rest, stale)
  {
    if n < 0 {
      NegativeValue(env, 0 - n, depth, stale, rest);
    } else {
      NaturalValue(env, n, depth, stale, rest);
    }
  }

  lemma {:induction false} WholeInteger(env: Env, n: int, depth: nat, stale: bool, rest: string)
    requires Fine(DInteger(n))
    ensures Whole(Decimal(n), rest, stale) == Back(Integer(n), rest, Survives(env, DInteger(n), depth, stale))
  {
    if n < 0 {
      WholeNegative(0 - n, rest, stale);
    } else {
      WholeNatural(n, rest, stale);
    }
  }

  lemma {:induction false} IntegerBack(env: Env, n: int, depth: nat, stale: bool, rest: string)
    requires Fine(DInteger(n)) && Follows(rest)
    ensures Value(env, Decimal(n) + rest, depth, stale) == Back(Integer(n), rest, Survives(env, DInteger(n), depth, stale))
  {
    WholeInteger(env, n, depth, stale, rest);
    IntegerValue(env, n, depth, stale, rest);
  }

  lemma {:induction false} UnsignedBack(env: Env, u: nat, depth: nat, stale: bool, rest: string)
    requires Fine(DU64(u)) && Follows(rest)
    ensures Value(env, Digits(u) + rest, depth, stale) == Back(Meant(DU64(u)), rest, Survives(env, DU64(u), depth, stale))
  {
    WholeNatural(u, rest, stale);
    NaturalValue(env, u, depth, stale, rest);
  }

  lemma {:induction false} DoubleNumeral(env: Env, t: string, depth: nat, stale: bool, rest: string)
    requires Decimals(t) && Follows(rest)
    ensures Numeral(env, t + rest, stale) == Back(Number(t), rest, Survives(env, DNumber(t), depth, stale))
  {
    ScanDecimals(t, rest);
    NumeralIs(env, t + rest, t, rest, stale);
  }

  lemma {:induction false} ScanDecimals(t: string, rest: string)
    requires Decimals(t) && Follows(rest)
    ensures Fractional(t) && Scan(t + rest, []) == Some((t, rest))
  {
    ScanAll(t, [], rest);
    assert [] + t == t;
  }

  lemma {:induction false} DoubleBack(env: Env, t: string, depth: nat, stale: bool, rest: string)
    requires Decimals(t) && Follows(rest)
    ensures Value(env, t + rest, depth, stale) == Back(Number(t), rest, Survives(env, DNumber(t), depth, stale))
  {
    DoubleNumeral(env, t, depth, stale, rest);
    Dispatch(env, t + rest, depth, stale);
  }

  lemma {:induction false} LiteralBack(env: Env, l: Lit, depth: nat, stale: bool, rest: string)
    ensures Value(env, Spelling(l) + rest, depth, stale) == Ok(Literal(l), rest, stale)
  {
    Dispatch(env, Spelling(l) + rest, depth, stale);
    WordBack(l, rest, stale);
  }

  lemma WordBack(l: Lit, rest: string, stale: bool)
    ensures Word(Spelling(l) + rest, stale) == Ok(Literal(l), rest, stale)
  {
    var s := Spelling(l) + rest;
    assert s[|Spelling(l)|..] == rest;
  }

  lemma {:induction false} TailFollows(after: string, t: string)
    requires Blank(after) && t != [] && t[0] in {',', ']', '}'}
    ensures Follows(after + t) && Skip(after + t) == t
  {
    SkipBlank(after, t);
    if after != [] {
      assert (after + t)[0] == after[0];
    } else {
      assert after + t == t;
    }
  }

  /** One round of the loop of `json_parse_array`. */
  lemma {:induction false} ElementsRound(env: Env, s: string, v: string, depth: nat, hasnext: bool, acc: seq<Item>, stale: bool, t: string)
    requires Skip(s) == v && v != [] && v[0] != ']'
    requires Value(env, v, depth, stale).Ok? ==> Skip(Value(env, v, depth, stale).rest) == t
    requires t != [] && (t[0] == ',' || t[0] == ']')
    ensures var o := Value(env, v, depth, stale);
            Elements(env, s, depth, hasnext, acc, stale) ==
            if o.Fail? then Fail
            else if t[0] == ',' then Elements(env, t[1..], depth, true, acc + [o.value], o.stale)
            else Ok(Array(acc + [o.value]), t[1..], o.stale)
  {
  }

  /** One round of the loop of `json_parse_object`. */
  lemma {:induction false} FieldsRound(env: Env, s: string, k: string, key: string, v: string, depth: nat, hasnext: bool, acc: seq<Field>, stale: bool, t: string)
    requires Skip(s) == k && k != [] && k[0] != '}' && Key(k) == Some((key, v))
    requires Value(env, v, depth, stale).Ok? ==> Skip(Value(env, v, depth, stale).rest) == t
    requires t != [] && (t[0] == ',' || t[0] == '}')
    ensures var o := Value(env, v, depth, stale);
            Fields(env, s, depth, hasnext, acc, stale) ==
            if o.Fail? then Fail
            else if t[0] == ',' then Fields(env, t[1..], depth, true, acc + [Field(key, o.value)], o.stale)
            else Ok(Object(acc + [Field(key, o.value)]), t[1..], o.stale)
  {
  }

  lemma {:induction false} EmptyBack(env: Env, pad: string, depth: nat, stale: bool, rest: string)
    requires Blank(pad)
    ensures Elements(env, pad + ("]" + rest), depth, false, [], stale) == Ok(Array([]), rest, stale)
    ensures Fields(env, pad + ("}" + rest), depth, false, [], stale) == Ok(Object([]), rest, stale)
  {
    SkipBlank(pad, "]" + rest);
    SkipBlank(pad, "}" + rest);
    assert ("]" + rest)[1..] == rest && ("}" + rest)[1..] == rest;
  }

  lemma {:induction false} ValueBack(env: Env, d: Doc, depth: nat, stale: bool, rest: string)
    requires Fine(d) && Follows(rest)
    ensures Value(env, Text(d) + rest, depth, stale) == Back(Meant(d), rest, Survives(env, d, depth, stale))
    decreases d
  {
    match d
    case DArray(pad, slots) => ArrayBack(env, pad, slots, depth, stale, rest);
    case DObject(pad, slots) => ObjectBack(env, pad, slots, depth, stale, rest);
    case DString(t) => StringBack(env, t, depth, stale, rest);
    case DRaw(body) => RawBack(env, body, depth, stale, rest);
    case DDigits(minus, digits) => DigitsValue(env, minus, digits, depth, stale, rest);
    case DInteger(n) => IntegerBack(env, n, depth, stale, rest);
    case DU64(u) => UnsignedBack(env, u, depth, stale, rest);
    case DLiteral(l) => LiteralBack(env, l, depth, stale, rest);
    case DNumber(t) => DoubleBack(env, t, depth, stale, rest);
  }

  lemma {:induction false} ArrayBack(env: Env, pad: string, slots: Slots, depth: nat, stale: bool, rest: string)
    requires Blank(pad) && FineSlots(slots)
    ensures var d := DArray(pad, slots);
            Value(env, Text(d) + rest, depth, stale) == Back(Meant(d), rest, Survives(env, d, depth, stale))
    decreases slots, 2
  {
    var s := Text(DArray(pad, slots)) + rest;
    if slots.End? {
      assert s[1..] == pad + ("]" + rest);
      EmptyBack(env, pad, depth + 1, stale, rest);
    } else {
      assert s[1..] == ItemsText(slots) + rest;
      ElementsBack(env, slots, depth + 1, false, [], stale, rest);
      assert [] + MeantItems(slots) == MeantItems(slots);
    }
    Dispatch(env, s, depth, stale);
  }

  lemma {:induction false} ObjectBack(env: Env, pad: string, slots: Slots, depth: nat, stale: bool, rest: string)
    requires Blank(pad) && FineSlots(slots)
    ensures var d := DObject(pad, slots);
            Value(env, Text(d) + rest, depth, stale) == Back(Meant(d), rest, Survives(env, d, depth, stale))
    decreases slots, 2
  {
    var s := Text(DObject(pad, slots)) + rest;
    if slots.End? {
      assert s[1..] == pad + ("}" + rest);
      EmptyBack(env, pad, depth + 1, stale, rest);
    } else {
      assert s[1..] == FieldsText(slots) + rest;
      FieldsBack(env, slots, depth + 1, false, [], stale, rest);
      assert [] + MeantFields(slots) == MeantFields(slots);
    }
    Dispatch(env, s, depth, stale);
  }

  /** What follows the first item of an array, and the item with it. */
  function ItemsTail(ss: Slots, rest: string): (t: string)
    requires ss.Slot?
    ensures t != [] && (t[0] == ',' || t[0] == ']')
  {
    (if ss.more.End? then "]" else "," + ItemsText(ss.more)) + rest
  }

  lemma {:induction false} ItemsShape(ss: Slots, rest: string)
    requires ss.Slot?
    ensures var t := ItemsTail(ss, rest);
            && ItemsText(ss) + rest == ss.before + (Text(ss.value) + (ss.after + t))
            && t[1..] == if ss.more.End? then rest else ItemsText(ss.more) + rest
  {
  }

  lemma {:induction false} ItemsStart(ss: Slots, rest: string)
    requires ss.Slot? && Fine(ss.value) && Blank(ss.before) && Blank(ss.after)
    ensures var t := ItemsTail(ss, rest);
            var v := Text(ss.value) + (ss.after + t);
            && Skip(ItemsText(ss) + rest) == v && v != [] && v[0] != ']'
            && Follows(ss.after + t) && Skip(ss.after + t) == t
            && t[1..] == if ss.more.End? then rest else ItemsText(ss.more) + rest
  {
    var t := ItemsTail(ss, rest);
    var v := Text(ss.value) + (ss.after + t);
    ItemsShape(ss, rest);
    TextHead(ss.value);
    assert v[0] == Text(ss.value)[0];
    SkipBlank(ss.before, v);
    TailFollows(ss.after, t);
  }

  lemma {:induction false} SlotSurvives(env: Env, ss: Slots, depth: nat, stale: bool)
    requires ss.Slot? && FineSlots(ss)
    ensures SurviveAll(env, ss, depth, stale) ==
            match Survives(env, ss.value, depth, stale)
            case None => None
            case Some(st) => SurviveAll(env, ss.more, depth, st)
  {
  }

  /** The items read so far, then this one, then the others. */
  lemma {:induction false} ItemsJoin(ss: Slots, acc: seq<Item>)
    requires ss.Slot? && FineSlots(ss)
    ensures (acc + [Meant(ss.value)]) + MeantItems(ss.more) == acc + MeantItems(ss)
    ensures ss.more.End? ==> acc + [Meant(ss.value)] == acc + MeantItems(ss)
  {
  }

  lemma {:induction false} ElementsBack(env: Env, ss: Slots, depth: nat, hasnext: bool, acc: seq<Item>, stale: bool, rest: string)
    requires ss.Slot? && FineSlots(ss)
    ensures Elements(env, ItemsText(ss) + rest, depth, hasnext, acc, stale)
            == Back(Array(acc + MeantItems(ss)), rest, SurviveAll(env, ss, depth, stale))
    decreases ss, 1
  {
    var t, m, r := ItemsTail(ss, rest), Meant(ss.value), Survives(env, ss.value, depth, stale);
    var v := Text(ss.value) + (ss.after + t);
    ItemsJoin(ss, acc);
    SlotSurvives(env, ss, depth, stale);
    ItemsStart(ss, rest);
    ValueBack(env, ss.value, depth, stale, ss.after + t);
    if ss.more.Slot? && r.Some? {
      ElementsBack(env, ss.more, depth, true, acc + [m], r.value, rest);
    }
    ElementsRound(env, ItemsText(ss) + rest, v, depth, hasnext, acc, stale, t);
  }

  lemma NameShape(name: string, cb: string, ca: string, v: string)
    ensures var s := NameText(name, cb, ca) + v;
            s != [] && s[0] == '\"' && s[1..] == name + ("\"" + (cb + (":" + (ca + v))))
  {
  }

  lemma KeyBack(name: string, cb: string, ca: string, v: string)
    requires Legal(name) && Blank(cb) && Blank(ca) && v != [] && !IsBlank(v[0])
    ensures Key(NameText(name, cb, ca) + v) == Some((Decoded(name), v))
  {
    var s := NameText(name, cb, ca) + v;
    var k := ":" + (ca + v);
    NameShape(name, cb, ca, v);
    CharsLegal(name, [], cb + k);
    assert [] + Decoded(name) == Decoded(name);
    SkipBlank(cb, k);
    assert k[1..] == ca + v;
    SkipBlank(ca, v);
  }

  /** What follows the first item of an object. */
  function FieldsTail(ss: Slots, rest: string): (t: string)
    requires ss.Slot?
    ensures t != [] && (t[0] == ',' || t[0] == '}')
  {
    (if ss.more.End? then "}" else "," + FieldsText(ss.more)) + rest
  }

  lemma {:induction false} FieldsShape(ss: Slots, rest: string)
    requires ss.Slot?
    ensures var t := FieldsTail(ss, rest);
            FieldsText(ss) + rest
            == ss.before + (NameText(ss.name, ss.colonBefore, ss.colonAfter) + (Text(ss.value) + (ss.after + t)))
  {
  }

  lemma {:induction false} FieldsStart(ss: Slots, rest: string)
    requires ss.Slot? && Fine(ss.value) && Blank(ss.before) && Legal(ss.name) && Blank(ss.colonBefore) && Blank(ss.colonAfter)
    ensures var v := Text(ss.value) + (ss.after + FieldsTail(ss, rest));
            var k := NameText(ss.name, ss.colonBefore, ss.colonAfter) + v;
            Skip(FieldsText(ss) + rest) == k && k != [] && k[0] != '}' && Key(k) == Some((Decoded(ss.name), v))
  {
    var v := Text(ss.value) + (ss.after + FieldsTail(ss, rest));
    TextHead(ss.value);
    assert v[0] == Text(ss.value)[0];
    SkipBlank(ss.before, NameText(ss.name, ss.colonBefore, ss.colonAfter) + v);
    FieldsShape(ss, rest);
    KeyBack(ss.name, ss.colonBefore, ss.colonAfter, v);
  }

  lemma FieldsMore(ss: Slots, rest: string)
    requires ss.Slot? && Blank(ss.after)
    ensures var t := FieldsTail(ss, rest);
            && Follows(ss.after + t) && Skip(ss.after + t) == t
            && t[1..] == if ss.more.End? then rest else FieldsText(ss.more) + rest
  {
    TailFollows(ss.after, FieldsTail(ss, rest));
  }

  /** The fields read so far, then this one, then the others. */
  lemma {:induction false} FieldsJoin(ss: Slots, acc: seq<Field>)
    requires ss.Slot? && FineSlots(ss)
    ensures (acc + [Field(Decoded(ss.name), Meant(ss.value))]) + MeantFields(ss.more) == acc + MeantFields(ss)
    ensures ss.more.End? ==> acc + [Field(Decoded(ss.name), Meant(ss.value))] == acc + MeantFields(ss)
  {
  }

  lemma {:induction false} FieldsBack(env: Env, ss: Slots, depth: nat, hasnext: bool, acc: seq<Field>, stale: bool, rest: string)
    requires ss.Slot? && FineSlots(ss)
    ensures Fields(env, FieldsText(ss) + rest, depth, hasnext, acc, stale)
            == Back(Object(acc + MeantFields(ss)), rest, SurviveAll(env, ss, depth, stale))
    decreases ss, 1
  {
    var t, r := FieldsTail(ss, rest), Survives(env, ss.value, depth, stale);
    var f, v := Field(Decoded(ss.name), Meant(ss.value)), Text(ss.value) + (ss.after + t);
    FieldsJoin(ss, acc);
    SlotSurvives(env, ss, depth, stale);
    FieldsStart(ss, rest);
    FieldsMore(ss, rest);
    ValueBack(env, ss.value, depth, stale, ss.after + t);
    if ss.more.Slot? && r.Some? {
      FieldsBack(env, ss.more, depth, true, acc + [f], r.value, rest);
    }
    FieldsRound(env, FieldsText(ss) + rest, NameText(ss.name, ss.colonBefore, ss.colonAfter) + v, Decoded(ss.name), v, depth, hasnext, acc, stale, t);
  }

  /** Any created tree, with any white space between its tokens, parses back exactly if it survives, and then
      to what it stands for. */
  lemma {:induction false} DocumentBack(env: Env, before: string, d: Doc, after: string, stale: bool)
    requires Blank(before) && Fine(d) && Blank(after)
    ensures Parsed(env, before + Text(d) + after, stale)
            == if Survives(env, d, 0, stale).Some? then Some(Meant(d)) else None
  {
    TextHead(d);
    var v := Text(d) + after;
    assert before + Text(d) + after == before + v && v[0] == Text(d)[0];
    SkipBlank(before, v);
    SkipBlank(after, []);
    assert after + [] == after;
    assert Follows(after);
    ValueBack(env, d, 0, stale, after);
  }

  /** Within the depth limit, without the two extreme integers and doubles, every tree comes back whatever
      errno holds. */
  ghost predicate Modest(d: Doc, nesting: nat) {
    match d
    case DNumber(_) => false
    case DString(_) => true
    case DRaw(_) => true
    case DDigits(_, digits) => AllDigits(digits) && DecimalValue(digits) <= INT64_MAX
    case DInteger(n) => n >= 0 - INT64_MAX
    case DU64(u) => u < UINT64_MAX
    case DLiteral(_) => true
    case DArray(_, slots) => nesting > 0 && ModestAll(slots, nesting - 1)
    case DObject(_, slots) => nesting > 0 && ModestAll(slots, nesting - 1)
  }

  ghost predicate ModestAll(ss: Slots, nesting: nat) {
    ss.Slot? ==> Modest(ss.value, nesting) && ModestAll(ss.more, nesting)
  }

  lemma {:induction false} ModestSurvives(env: Env, d: Doc, depth: nat, stale: bool)
    requires Fine(d) && depth <= env.depthMax && Modest(d, env.depthMax - depth)
    ensures Survives(env, d, depth, stale).Some?
    decreases d
  {
    match d
    case DArray(_, slots) => ModestSlots(env, slots, depth + 1, stale);
    case DObject(_, slots) => ModestSlots(env, slots, depth + 1, stale);
    case DString(_) =>
    case DRaw(_) =>
    case DDigits(_, _) =>
    case DInteger(_) =>
    case DU64(_) =>
    case DLiteral(_) =>
    case DNumber(_) =>
  }

  lemma {:induction false} ModestSlots(env: Env, ss: Slots, depth: nat, stale: bool)
    requires FineSlots(ss) && depth <= env.depthMax && ModestAll(ss, env.depthMax - depth)
    ensures SurviveAll(env, ss, depth, stale).Some?
    decreases ss
  {
    if ss.Slot? {
      ModestSurvives(env, ss.value, depth, stale);
      ModestSlots(env, ss.more, depth, Survives(env, ss.value, depth, stale).value);
    }
  }

  function Two(a: Doc, b: Doc): (d: Doc)
    requires Fine(a) && Fine(b)
    ensures Fine(d)
  {
    assert FineSlots(Slot("", "", "", "", b, "", End));
    assert FineSlots(Slot("", "", "", "", a, "", Slot("", "", "", "", b, "", End)));
    DArray("", Slot("", "", "", "", a, "", Slot("", "", "", "", b, "", End)))
  }

  /** The smallest integer comes back alone, but not behind an unsigned one that is too large for it. */
  lemma ErrnoLeaks(env: Env)
    requires env.depthMax > 0
    ensures var (a, b) := (DU64(INT64_MAX + 1), DInteger(0 - (INT64_MAX + 1)));
            && Parsed(env, Text(b), false) == Some(Meant(b))
            && Parsed(env, Text(Two(a, b)), false) == None
            && Parsed(env, Text(Two(b, a)), false) == Some(Meant(Two(b, a)))
  {
    var (a, b) := (DU64(INT64_MAX + 1), DInteger(0 - (INT64_MAX + 1)));
    PlainBack(env, b, false);
    TwoBack(env, a, b);
    TwoBack(env, b, a);
  }

  lemma {:induction false} OneMore(env: Env, d: Doc, more: Slots, depth: nat, stale: bool)
    requires Fine(d) && FineSlots(more)
    ensures var ss := Slot("", "", "", "", d, "", more);
            && FineSlots(ss)
            && (Survives(env, d, depth, stale).Some? ==>
                  SurviveAll(env, ss, depth, stale) == SurviveAll(env, more, depth, Survives(env, d, depth, stale).value))
  {
  }

  /** With a double between them it does come back behind one. */
  lemma DoubleClears(env: Env, t: string)
    requires env.depthMax > 0 && Decimals(t) && t in env.doubles
    ensures var (a, b) := (DU64(INT64_MAX + 1), DInteger(0 - (INT64_MAX + 1)));
            var ss := Slot("", "", "", "", DNumber(t), "", Slot("", "", "", "", b, "", End));
            var d := DArray("", Slot("", "", "", "", a, "", ss));
            Fine(d) && Parsed(env, Text(d), false) == Some(Meant(d))
  {
    var (a, b) := (DU64(INT64_MAX + 1), DInteger(0 - (INT64_MAX + 1)));
    var last := Slot("", "", "", "", b, "", End);
    var ss := Slot("", "", "", "", DNumber(t), "", last);
    var all := Slot("", "", "", "", a, "", ss);
    OneMore(env, b, End, 1, false);
    OneMore(env, DNumber(t), last, 1, true);
    OneMore(env, a, ss, 1, false);
    assert FineSlots(last) && SurviveAll(env, last, 1, false) == Some(false);
    assert FineSlots(ss) && SurviveAll(env, ss, 1, true) == Some(false);
    assert FineSlots(all) && SurviveAll(env, all, 1, false) == Some(false);
    PlainBack(env, DArray("", all), false);
  }

  lemma {:induction false} TwoBack(env: Env, a: Doc, b: Doc)
    requires env.depthMax > 0 && Fine(a) && Fine(b)
    ensures Parsed(env, Text(Two(a, b)), false) ==
            match Survives(env, a, 1, false)
            case None => None
            case Some(stale) => if Survives(env, b, 1, stale).Some? then Some(Meant(Two(a, b))) else None
  {
    var ss := Slot("", "", "", "", b, "", End);
    assert FineSlots(ss);
    assert FineSlots(Slot("", "", "", "", a, "", ss));
    assert Fine(Two(a, b));
    var r := Survives(env, a, 1, false);
    if r.Some? {
      assert SurviveAll(env, ss, 1, r.value).Some? == Survives(env, b, 1, r.value).Some?;
    }
    assert Survives(env, Two(a, b), 0, false) == SurviveAll(env, Two(a, b).slots, 1, false);
    PlainBack(env, Two(a, b), false);
  }

  lemma {:induction false} PlainBack(env: Env, d: Doc, stale: bool)
    requires Fine(d)
    ensures Parsed(env, Text(d), stale) == if Survives(env, d, 0, stale).Some? then Some(Meant(d)) else None
  {
    DocumentBack(env, "", d, "", stale);
    assert "" + Text(d) + "" == Text(d);
  }

  // ---- The printer writes documents without white space ----

  /** A tree as it was created: no token is given by its text. */
  predicate Created(d: Doc) {
    match d
    case DRaw(_) => false
    case DDigits(_, _) => false
    case DArray(_, slots) => CreatedAll(slots)
    case DObject(_, slots) => CreatedAll(slots)
    case _ => true
  }

  predicate CreatedAll(ss: Slots) {
    ss.Slot? ==> Created(ss.value) && CreatedAll(ss.more)
  }

  /** The items as `kore_json_create_item` stores them. */
  function Stored(d: Doc): (item: Item)
    requires Created(d)
  {
    match d
    case DNumber(t) => Number(t)
    case DString(s) => Str(Escaped(s))
    case DInteger(n) => Integer(n)
    case DU64(u) => U64(u)
    case DLiteral(l) => Literal(l)
    case DArray(_, slots) => Array(StoredItems(slots))
    case DObject(_, slots) => Object(StoredFields(slots))
  }

  function StoredItems(ss: Slots): (items: seq<Item>)
    requires CreatedAll(ss)
  {
    match ss
    case End => []
    case Slot(_, _, _, _, value, _, more) => [Stored(value)] + StoredItems(more)
  }

  function StoredFields(ss: Slots): (fields: seq<Field>)
    requires CreatedAll(ss)
  {
    match ss
    case End => []
    case Slot(_, name, _, _, value, _, more) => [Field(name, Stored(value))] + StoredFields(more)
  }

  ghost predicate Tight(d: Doc) {
    match d
    case DArray(pad, slots) => pad == "" && TightAll(slots)
    case DObject(pad, slots) => pad == "" && TightAll(slots)
    case _ => true
  }

  ghost predicate TightAll(ss: Slots) {
    match ss
    case End => true
    case Slot(before, _, cb, ca, value, after, more) =>
      before == "" && cb == "" && ca == "" && after == "" && Tight(value) && TightAll(more)
  }

  lemma {:induction false} PrintedIs(d: Doc)
    requires Created(d) && Tight(d)
    ensures Printed(Stored(d)) == Text(d)
    decreases d
  {
    match d
    case DArray(_, slots) => ItemsPrinted(slots);
    case DObject(_, slots) => FieldsPrinted(slots);
    case DString(_) =>
    case DInteger(_) =>
    case DU64(_) =>
    case DLiteral(_) =>
    case DNumber(_) =>
  }

  lemma ItemJoined(p: string, sep: string, more: string)
    ensures p + sep + more + "]" == "" + (p + ("" + (sep + (more + "]"))))
  {
  }

  lemma {:induction false} ItemsPrinted(ss: Slots)
    requires CreatedAll(ss) && TightAll(ss)
    ensures PrintedItems(StoredItems(ss)) + "]" == if ss.End? then "]" else ItemsText(ss)
    decreases ss
  {
    if ss.Slot? {
      PrintedIs(ss.value);
      ItemsPrinted(ss.more);
      var items, more := StoredItems(ss), PrintedItems(StoredItems(ss.more));
      assert items[0] == Stored(ss.value) && items[1..] == StoredItems(ss.more);
      assert ss.more.End? <==> |items| == 1;
      ItemJoined(Text(ss.value), if ss.more.End? then "" else ",", more);
    }
  }

  lemma FieldJoined(name: string, p: string, sep: string, more: string)
    ensures "\"" + name + "\":" + p + sep + more + "}" == "" + (NameText(name, "", "") + (p + ("" + (sep + (more + "}")))))
  {
    assert "\":" == "\"" + ":";
  }

  lemma {:induction false} FieldsPrinted(ss: Slots)
    requires CreatedAll(ss) && TightAll(ss)
    ensures PrintedFields(StoredFields(ss)) + "}" == if ss.End? then "}" else FieldsText(ss)
    decreases ss
  {
    if ss.Slot? {
      PrintedIs(ss.value);
      FieldsPrinted(ss.more);
      var fields, more := StoredFields(ss), PrintedFields(StoredFields(ss.more));
      assert fields[0] == Field(ss.name, Stored(ss.value)) && fields[1..] == StoredFields(ss.more);
      assert ss.more.End? <==> |fields| == 1;
      FieldJoined(ss.name, Text(ss.value), if ss.more.End? then "" else ",", more);
    }
  }

  /** Parsing what the printer writes. */
  lemma {:induction false} PrintBack(env: Env, d: Doc, stale: bool)
    requires Created(d) && Fine(d) && Tight(d)
    ensures Parsed(env, Printed(Stored(d)), stale) == if Survives(env, d, 0, stale).Some? then Some(Meant(d)) else None
  {
    PrintedIs(d);
    PlainBack(env, d, stale);
  }
}
