/** What `json.c` accepts: exactly the documents, and nothing else. */
module JsonSound {
  import opened Bytes
  import opened Json

  /** What was skipped. */
  function Skipped(s: string): (w: string)
    ensures Blank(w) && s == w + Skip(s)
  {
    if s != [] && IsBlank(s[0]) then [s[0]] + Skipped(s[1..]) else []
  }

  lemma {:induction false} ScanSound(s: string, buf: string) returns (t: string)
    requires Scan(s, buf).Some?
    ensures Scan(s, buf).value.0 == buf + t && s == t + Scan(s, buf).value.1 && Follows(Scan(s, buf).value.1)
    ensures forall i :: 0 <= i < |t| ==> InNumber(t[i]) && (t[i] == '-' ==> i == 0 && buf == [])
    decreases |s|
  {
    if s == [] || !InNumber(s[0]) {
      t := [];
    } else {
      var u := ScanSound(s[1..], buf + [s[0]]);
      t := [s[0]] + u;
      assert (buf + [s[0]]) + u == buf + t;
    }
  }

  lemma {:induction false} CharsSound(s: string, acc: string) returns (body: string)
    requires Chars(s, acc).Some?
    ensures Legal(body) && Chars(s, acc).value.0 == acc + Decoded(body)
    ensures s == body + ("\"" + Chars(s, acc).value.1)
    decreases |s|
  {
    if s[0] == '\"' {
      body := [];
    } else if s[0] != '\\' {
      var b := CharsSound(s[1..], acc + [s[0]]);
      body := [s[0]] + b;
      assert body[1..] == b;
      assert (acc + [s[0]]) + Decoded(b) == acc + Decoded(body);
    } else {
      var c := Unescape(s[1]).value;
      var b := CharsSound(s[2..], acc + [c]);
      body := [s[0], s[1]] + b;
      assert body[2..] == b;
      assert (acc + [c]) + Decoded(b) == acc + Decoded(body);
    }
  }

  lemma {:induction false} StringSound(s: string) returns (body: string)
    requires GetString(s).Some?
    ensures Legal(body) && GetString(s).value.0 == Decoded(body)
    ensures s == "\"" + (body + ("\"" + GetString(s).value.1))
  {
    body := CharsSound(s[1..], []);
    assert [] + Decoded(body) == Decoded(body);
    assert s == "\"" + s[1..];
  }

  lemma {:induction false} KeySound(s: string) returns (name: string, cb: string, ca: string)
    requires Key(s).Some?
    ensures Legal(name) && Blank(cb) && Blank(ca) && Key(s).value.0 == Decoded(name)
    ensures s == NameText(name, cb, ca) + Key(s).value.1
  {
    name := StringSound(s);
    var rest := GetString(s).value.1;
    var k := Skip(rest);
    cb, ca := Skipped(rest), Skipped(k[1..]);
    KeyShape(s, name, rest, cb, k, ca, Key(s).value.1);
  }

  lemma {:induction false} KeyShape(s: string, name: string, rest: string, cb: string, k: string, ca: string, v: string)
    requires s == "\"" + (name + ("\"" + rest)) && rest == cb + k && k != [] && k[0] == ':' && k[1..] == ca + v
    ensures s == NameText(name, cb, ca) + v
  {
    assert k == ":" + (ca + v);
    assert s == "\"" + (name + ("\"" + (cb + (":" + (ca + v)))));
  }

  /** `s` starts with the document `d`, and `o` is what reading it gives. */
  ghost predicate Reads(env: Env, d: Doc, s: string, depth: nat, stale: bool, o: Out<Item>) {
    && Fine(d) && o.Ok? && s == Text(d) + o.rest
    && o.value == Meant(d) && Survives(env, d, depth, stale) == Some(o.stale)
  }

  lemma {:induction false} WholeSound(env: Env, t: string, rest: string, depth: nat, stale: bool) returns (d: Doc)
    requires Whole(t, rest, stale).Ok?
    ensures Fine(d) && Text(d) == t && Whole(t, rest, stale) == Back(Meant(d), rest, Survives(env, d, depth, stale))
  {
    var minus := t[0] == '-';
    var digits := if minus then t[1..] else t;
    d := DDigits(minus, digits);
    assert minus ==> t == "-" + digits;
    WholeDigits(env, minus, digits, depth, stale, rest);
  }

  lemma {:induction false} ScanAtStart(s: string) returns (t: string, rest: string)
    requires s != [] && (s[0] == '-' || IsDigit(s[0])) && Scan(s, []).Some?
    ensures Scan(s, []) == Some((t, rest)) && s == t + rest && t != [] && t[0] == s[0]
    ensures forall i :: 0 <= i < |t| ==> InNumber(t[i]) && (t[i] == '-' ==> i == 0)
  {
    t := ScanSound(s, []);
    rest := Scan(s, []).value.1;
    assert [] + t == t;
  }

  lemma {:induction false} FractionReads(env: Env, t: string, rest: string, depth: nat, stale: bool)
    requires Decimals(t) && t in env.doubles
    ensures Reads(env, DNumber(t), t + rest, depth, stale, Ok(Number(t), rest, false))
  {
  }

  lemma {:induction false} WholeReads(env: Env, t: string, rest: string, depth: nat, stale: bool) returns (d: Doc)
    requires Whole(t, rest, stale).Ok?
    ensures Reads(env, d, t + rest, depth, stale, Whole(t, rest, stale))
  {
    d := WholeSound(env, t, rest, depth, stale);
  }

  lemma {:induction false} NumeralSound(env: Env, s: string, depth: nat, stale: bool) returns (d: Doc)
    requires s != [] && (s[0] == '-' || IsDigit(s[0])) && Numeral(env, s, stale).Ok?
    ensures Reads(env, d, s, depth, stale, Numeral(env, s, stale))
  {
    var t, rest := ScanAtStart(s);
    NumeralIs(env, s, t, rest, stale);
    if Fractional(t) {
      d := DNumber(t);
      FractionReads(env, t, rest, depth, stale);
    } else {
      d := WholeReads(env, t, rest, depth, stale);
    }
  }

  lemma {:induction false} NumberSound(env: Env, s: string, depth: nat, stale: bool) returns (d: Doc)
    requires s != [] && (s[0] == '-' || IsDigit(s[0])) && Value(env, s, depth, stale).Ok?
    ensures Reads(env, d, s, depth, stale, Value(env, s, depth, stale))
  {
    Dispatch(env, s, depth, stale);
    d := NumeralSound(env, s, depth, stale);
  }

  lemma {:induction false} WordSound(s: string, stale: bool) returns (l: Lit)
    requires Word(s, stale).Ok?
    ensures Word(s, stale).value == Literal(l) && s == Spelling(l) + Word(s, stale).rest && Word(s, stale).stale == stale
  {
    if s[0] == 't' {
      l := True;
    } else if s[0] == 'n' {
      l := Null;
    } else {
      l := False;
    }
    assert s[..|Spelling(l)|] == Spelling(l);
  }

  /** One look at the first character, for the rest. */
  lemma {:induction false} DispatchRest(env: Env, s: string, depth: nat, stale: bool)
    requires Value(env, s, depth, stale).Ok? && s != [] && s[0] != '-' && !IsDigit(s[0]) && s[0] != '{' && s[0] != '['
    ensures s[0] == '\"' ==> GetString(s).Some? && Value(env, s, depth, stale) == Ok(Str(GetString(s).value.0), GetString(s).value.1, stale)
    ensures s[0] != '\"' ==> Value(env, s, depth, stale) == Word(s, stale)
  {
  }

  lemma {:induction false} TokenSound(env: Env, s: string, depth: nat, stale: bool) returns (d: Doc)
    requires Value(env, s, depth, stale).Ok? && s != [] && s[0] != '-' && !IsDigit(s[0]) && s[0] != '{' && s[0] != '['
    ensures Reads(env, d, s, depth, stale, Value(env, s, depth, stale))
  {
    DispatchRest(env, s, depth, stale);
    if s[0] == '\"' {
      var body := StringSound(s);
      d := DRaw(body);
      assert s == Text(d) + GetString(s).value.1;
    } else {
      var l := WordSound(s, stale);
      d := DLiteral(l);
    }
  }

  /** Whatever is accepted as an item is the text of one. */
  lemma {:induction false} ValueSound(env: Env, s: string, depth: nat, stale: bool) returns (d: Doc)
    requires Value(env, s, depth, stale).Ok?
    ensures Reads(env, d, s, depth, stale, Value(env, s, depth, stale))
    decreases |s|, 0
  {
    if s[0] == '-' || IsDigit(s[0]) {
      d := NumberSound(env, s, depth, stale);
    } else if s[0] == '[' {
      Dispatch(env, s, depth, stale);
      var pad, ss := ElementsSound(env, s[1..], depth + 1, false, [], stale);
      d := DArray(pad, ss);
      ArrayReads(env, s, depth, stale, pad, ss, Value(env, s, depth, stale));
    } else if s[0] == '{' {
      Dispatch(env, s, depth, stale);
      var pad, ss := FieldsSound(env, s[1..], depth + 1, false, [], stale);
      d := DObject(pad, ss);
      ObjectReads(env, s, depth, stale, pad, ss, Value(env, s, depth, stale));
    } else {
      d := TokenSound(env, s, depth, stale);
    }
  }

  /** `ss` are the items in front of what an array leaves, or there is only white space. */
  ghost predicate ReadsItems(env: Env, pad: string, ss: Slots, s: string, depth: nat, acc: seq<Item>, stale: bool, o: Out<Item>) {
    && FineSlots(ss) && Blank(pad) && o.Ok? && s == (if ss.End? then pad + "]" else ItemsText(ss)) + o.rest
    && o.value == Array(acc + MeantItems(ss)) && SurviveAll(env, ss, depth, stale) == Some(o.stale)
  }

  ghost predicate ReadsFields(env: Env, pad: string, ss: Slots, s: string, depth: nat, acc: seq<Field>, stale: bool, o: Out<Item>) {
    && FineSlots(ss) && Blank(pad) && o.Ok? && s == (if ss.End? then pad + "}" else FieldsText(ss)) + o.rest
    && o.value == Object(acc + MeantFields(ss)) && SurviveAll(env, ss, depth, stale) == Some(o.stale)
  }

  lemma {:induction false} ArrayReads(env: Env, s: string, depth: nat, stale: bool, pad: string, ss: Slots, o: Out<Item>)
    requires s != [] && s[0] == '[' && depth < env.depthMax && ReadsItems(env, pad, ss, s[1..], depth + 1, [], stale, o)
    ensures Reads(env, DArray(pad, ss), s, depth, stale, o)
  {
    assert s == "[" + s[1..];
    assert [] + MeantItems(ss) == MeantItems(ss);
  }

  lemma {:induction false} ObjectReads(env: Env, s: string, depth: nat, stale: bool, pad: string, ss: Slots, o: Out<Item>)
    requires s != [] && s[0] == '{' && depth < env.depthMax && ReadsFields(env, pad, ss, s[1..], depth + 1, [], stale, o)
    ensures Reads(env, DObject(pad, ss), s, depth, stale, o)
  {
    assert s == "{" + s[1..];
    assert [] + MeantFields(ss) == MeantFields(ss);
  }

  /** What a successful turn of the array loop has seen. */
  lemma {:induction false} ElementsTurn(env: Env, s: string, depth: nat, hasnext: bool, acc: seq<Item>, stale: bool)
    requires Elements(env, s, depth, hasnext, acc, stale).Ok?
    ensures Skip(s) != []
    ensures Skip(s)[0] == ']' ==> !hasnext && Elements(env, s, depth, hasnext, acc, stale) == Ok(Array(acc), Skip(s)[1..], stale)
    ensures Skip(s)[0] != ']' ==> Value(env, Skip(s), depth, stale).Ok?
  {
  }

  lemma {:induction false} ElementsNext(env: Env, s: string, depth: nat, hasnext: bool, acc: seq<Item>, stale: bool, e: Out<Item>, r: string)
    requires Elements(env, s, depth, hasnext, acc, stale).Ok? && Skip(s) != [] && Skip(s)[0] != ']'
    requires e == Value(env, Skip(s), depth, stale) && e.Ok? && r == Skip(e.rest)
    ensures r != [] && (r[0] == ',' || r[0] == ']')
    ensures Elements(env, s, depth, hasnext, acc, stale) ==
            if r[0] == ',' then Elements(env, r[1..], depth, true, acc + [e.value], e.stale)
            else Ok(Array(acc + [e.value]), r[1..], e.stale)
  {
  }

  lemma {:induction false} FieldsTurn(env: Env, s: string, depth: nat, hasnext: bool, acc: seq<Field>, stale: bool)
    requires Fields(env, s, depth, hasnext, acc, stale).Ok?
    ensures Skip(s) != []
    ensures Skip(s)[0] == '}' ==> !hasnext && Fields(env, s, depth, hasnext, acc, stale) == Ok(Object(acc), Skip(s)[1..], stale)
    ensures Skip(s)[0] != '}' ==> Key(Skip(s)).Some? && Value(env, Key(Skip(s)).value.1, depth, stale).Ok?
  {
  }

  lemma {:induction false} FieldsNext(env: Env, s: string, depth: nat, hasnext: bool, acc: seq<Field>, stale: bool, key: string, v: string, e: Out<Item>, r: string)
    requires Fields(env, s, depth, hasnext, acc, stale).Ok? && Skip(s) != [] && Skip(s)[0] != '}' && Key(Skip(s)) == Some((key, v))
    requires e == Value(env, v, depth, stale) && e.Ok? && r == Skip(e.rest)
    ensures r != [] && (r[0] == ',' || r[0] == '}')
    ensures Fields(env, s, depth, hasnext, acc, stale) ==
            if r[0] == ',' then Fields(env, r[1..], depth, true, acc + [Field(key, e.value)], e.stale)
            else Ok(Object(acc + [Field(key, e.value)]), r[1..], e.stale)
  {
  }

  lemma HeadBehind(s: string, w: string, v: string)
    requires s == w + v && v != []
    ensures s == (w + [v[0]]) + v[1..]
  {
  }

  /** Nothing but white space up to the bracket. */
  lemma {:induction false} NoItems(env: Env, s: string, depth: nat, acc: seq<Item>, stale: bool)
    requires Skip(s) != [] && Skip(s)[0] == ']'
    ensures ReadsItems(env, Skipped(s), End, s, depth, acc, stale, Ok(Array(acc), Skip(s)[1..], stale))
  {
    HeadBehind(s, Skipped(s), Skip(s));
    assert acc + [] == acc;
  }

  lemma {:induction false} NoFields(env: Env, s: string, depth: nat, acc: seq<Field>, stale: bool)
    requires Skip(s) != [] && Skip(s)[0] == '}'
    ensures ReadsFields(env, Skipped(s), End, s, depth, acc, stale, Ok(Object(acc), Skip(s)[1..], stale))
  {
    HeadBehind(s, Skipped(s), Skip(s));
    assert acc + [] == acc;
  }

  lemma {:induction false} ElementsSound(env: Env, s: string, depth: nat, hasnext: bool, acc: seq<Item>, stale: bool) returns (pad: string, ss: Slots)
    requires Elements(env, s, depth, hasnext, acc, stale).Ok?
    ensures ReadsItems(env, pad, ss, s, depth, acc, stale, Elements(env, s, depth, hasnext, acc, stale)) && (hasnext ==> ss.Slot?)
    decreases |s|, 1
  {
    ElementsTurn(env, s, depth, hasnext, acc, stale);
    var v := Skip(s);
    if v[0] == ']' {
      pad, ss := Skipped(s), End;
      NoItems(env, s, depth, acc, stale);
    } else {
      var e := Value(env, v, depth, stale);
      var d := ValueSound(env, v, depth, stale);
      var r := Skip(e.rest);
      ElementsNext(env, s, depth, hasnext, acc, stale, e, r);
      var more := End;
      if r[0] == ',' {
        var p;
        p, more := ElementsSound(env, r[1..], depth, true, acc + [e.value], e.stale);
      }
      pad, ss := "", Slot(Skipped(s), "", "", "", d, Skipped(e.rest), more);
      ItemReads(env, s, v, depth, acc, stale, ss, e, r, Elements(env, s, depth, hasnext, acc, stale));
    }
  }

  lemma {:induction false} ItemsTextIs(ss: Slots, s: string, r: string, rest: string)
    requires ss.Slot? && s == ss.before + (Text(ss.value) + (ss.after + r)) && r != []
    requires if ss.more.Slot? then r[0] == ',' && r[1..] == ItemsText(ss.more) + rest else r[0] == ']' && r[1..] == rest
    ensures s == ItemsText(ss) + rest
  {
    ItemsShape(ss, rest);
    assert r == [r[0]] + r[1..];
    assert ItemsTail(ss, rest) == r;
  }

  lemma {:induction false} FieldsTextIs(ss: Slots, s: string, r: string, rest: string)
    requires ss.Slot? && r != []
    requires s == ss.before + (NameText(ss.name, ss.colonBefore, ss.colonAfter) + (Text(ss.value) + (ss.after + r)))
    requires if ss.more.Slot? then r[0] == ',' && r[1..] == FieldsText(ss.more) + rest else r[0] == '}' && r[1..] == rest
    ensures s == FieldsText(ss) + rest
  {
    FieldsShape(ss, rest);
    assert r == [r[0]] + r[1..];
    assert FieldsTail(ss, rest) == r;
  }

  /** The first item `v`, and what the loop makes of the rest `r`. */
  lemma {:induction false} ItemReads(env: Env, s: string, v: string, depth: nat, acc: seq<Item>, stale: bool, ss: Slots, e: Out<Item>, r: string, o: Out<Item>)
    requires ss.Slot? && Blank(ss.before) && Legal(ss.name) && Blank(ss.colonBefore) && Blank(ss.colonAfter) && Blank(ss.after)
    requires s == ss.before + v && Reads(env, ss.value, v, depth, stale, e) && e.rest == ss.after + r && r != []
    requires if ss.more.Slot? then r[0] == ',' && ReadsItems(env, "", ss.more, r[1..], depth, acc + [e.value], e.stale, o)
             else r[0] == ']' && o == Ok(Array(acc + [e.value]), r[1..], e.stale)
    ensures ReadsItems(env, "", ss, s, depth, acc, stale, o)
  {
    ItemsTextIs(ss, s, r, o.rest);
    SlotSurvives(env, ss, depth, stale);
    ItemsJoin(ss, acc);
  }

  lemma {:induction false} FieldsSound(env: Env, s: string, depth: nat, hasnext: bool, acc: seq<Field>, stale: bool) returns (pad: string, ss: Slots)
    requires Fields(env, s, depth, hasnext, acc, stale).Ok?
    ensures ReadsFields(env, pad, ss, s, depth, acc, stale, Fields(env, s, depth, hasnext, acc, stale)) && (hasnext ==> ss.Slot?)
    decreases |s|, 1
  {
    FieldsTurn(env, s, depth, hasnext, acc, stale);
    var k := Skip(s);
    if k[0] == '}' {
      pad, ss := Skipped(s), End;
      NoFields(env, s, depth, acc, stale);
    } else {
      var name, cb, ca := KeySound(k);
      var v := Key(k).value.1;
      var e := Value(env, v, depth, stale);
      var d := ValueSound(env, v, depth, stale);
      var r := Skip(e.rest);
      FieldsNext(env, s, depth, hasnext, acc, stale, Decoded(name), v, e, r);
      var more := End;
      if r[0] == ',' {
        var p;
        p, more := FieldsSound(env, r[1..], depth, true, acc + [Field(Decoded(name), e.value)], e.stale);
      }
      pad, ss := "", Slot(Skipped(s), name, cb, ca, d, Skipped(e.rest), more);
      FieldReads(env, s, v, depth, acc, stale, ss, e, r, Fields(env, s, depth, hasnext, acc, stale));
    }
  }

  lemma {:induction false} FieldReads(env: Env, s: string, v: string, depth: nat, acc: seq<Field>, stale: bool, ss: Slots, e: Out<Item>, r: string, o: Out<Item>)
    requires ss.Slot? && Blank(ss.before) && Legal(ss.name) && Blank(ss.colonBefore) && Blank(ss.colonAfter) && Blank(ss.after)
    requires s == ss.before + (NameText(ss.name, ss.colonBefore, ss.colonAfter) + v)
    requires Reads(env, ss.value, v, depth, stale, e) && e.rest == ss.after + r && r != []
    requires var acc' := acc + [Field(Decoded(ss.name), e.value)];
             if ss.more.Slot? then r[0] == ',' && ReadsFields(env, "", ss.more, r[1..], depth, acc', e.stale, o)
             else r[0] == '}' && o == Ok(Object(acc'), r[1..], e.stale)
    ensures ReadsFields(env, "", ss, s, depth, acc, stale, o)
  {
    FieldsTextIs(ss, s, r, o.rest);
    SlotSurvives(env, ss, depth, stale);
    FieldsJoin(ss, acc);
  }

  /** The escapes of section 7 of RFC 8259, but for the four hexadecimal digits, which are refused. */
  lemma Escapes(c: char)
    ensures Legal(['\\', c]) <==> c as int in {0x22, 0x5c, 0x2f, 0x62, 0x66, 0x6e, 0x72, 0x74}
    ensures Legal(['\\', c]) ==>
      Decoded(['\\', c]) == [(if c == 'b' then 0x08 else if c == 'f' then 0x0c else if c == 'n' then 0x0a
                               else if c == 'r' then 0x0d else if c == 't' then 0x09 else c as int) as char]
  {
    assert ['\\', c][2..] == [];
  }

  /** `s` is the document `d` with white space around it, and stands for `item`. */
  ghost predicate Spells(env: Env, before: string, d: Doc, after: string, s: string, stale: bool, item: Item) {
    && Blank(before) && Fine(d) && Blank(after) && s == before + Text(d) + after
    && Survives(env, d, 0, stale).Some? && item == Meant(d)
  }

  lemma {:induction false} ParsedSpells(env: Env, s: string, stale: bool, item: Item) returns (before: string, d: Doc, after: string)
    requires Parsed(env, s, stale) == Some(item)
    ensures Spells(env, before, d, after, s, stale, item)
  {
    var v := Skip(s);
    before := Skipped(s);
    after := Value(env, v, 0, stale).rest;
    BlankTail(after);
    d := ValueSound(env, v, 0, stale);
    WholeSpells(env, before, d, v, s, stale, Value(env, v, 0, stale));
  }

  lemma BlankTail(after: string)
    requires Skip(after) == []
    ensures Blank(after)
  {
    assert after == Skipped(after) + [] == Skipped(after);
  }

  lemma {:induction false} WholeSpells(env: Env, before: string, d: Doc, v: string, s: string, stale: bool, o: Out<Item>)
    requires Blank(before) && s == before + v && Reads(env, d, v, 0, stale, o) && Blank(o.rest)
    ensures Spells(env, before, d, o.rest, s, stale, o.value)
  {
    assert before + (Text(d) + o.rest) == before + Text(d) + o.rest;
  }

  /** The parser accepts exactly the documents that survive with white space around them, each as what it stands
      for: no text in front or behind, no missing colon or quote, no comma too many or too few. */
  lemma {:induction false} ParsedExact(env: Env, s: string, stale: bool, item: Item)
    ensures Parsed(env, s, stale) == Some(item) <==> exists before, d, after :: Spells(env, before, d, after, s, stale, item)
  {
    if Parsed(env, s, stale) == Some(item) {
      var before, d, after := ParsedSpells(env, s, stale, item);
    }
    if before, d, after :| Spells(env, before, d, after, s, stale, item) {
      DocumentBack(env, before, d, after, stale);
    }
  }

  /** Anything behind a document but white space makes it refused. */
  lemma {:induction false} TrailingRefused(env: Env, before: string, d: Doc, after: string, c: char, more: string, stale: bool)
    requires Blank(before) && Fine(d) && Blank(after) && !IsBlank(c) && Follows(after + ([c] + more))
    ensures Parsed(env, before + (Text(d) + (after + ([c] + more))), stale) == None
  {
    var rest := after + ([c] + more);
    var v := Text(d) + rest;
    TextHead(d);
    assert v[0] == Text(d)[0];
    SkipBlank(before, v);
    SkipBlank(after, [c] + more);
    ValueBack(env, d, 0, stale, rest);
  }
}
