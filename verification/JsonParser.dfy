/** The parser of `json.c` as it runs: an offset into the text, a nesting depth and errno. */
module JsonParser {
  import opened Bytes
  import opened Json

  /** What a parse method leaves behind, next to what the grammar says. */
  ghost predicate Agrees(o: Out<Item>, r: Option<Item>, left: string, stale: bool) {
    if r.None? then o == Fail else o == Ok(r.value, left, stale)
  }

  lemma SkipOne(s: string, i: nat)
    requires i < |s| && IsBlank(s[i])
    ensures Skip(s[i..]) == Skip(s[i + 1..])
  {
    assert s[i..][1..] == s[i + 1..];
  }

  lemma SkipNone(s: string, i: nat)
    requires i <= |s| && (i == |s| || !IsBlank(s[i]))
    ensures Skip(s[i..]) == s[i..]
  {
  }

  lemma {:induction false} CharsStep(s: string, i: nat, acc: string)
    requires i <= |s|
    ensures i == |s| ==> Chars(s[i..], acc) == None
    ensures i < |s| && s[i] == '\"' ==> Chars(s[i..], acc) == Some((acc, s[i + 1..]))
    ensures i < |s| && s[i] as int <= 0x1f ==> Chars(s[i..], acc) == None
    ensures i < |s| && s[i] as int > 0x1f && s[i] != '\"' && s[i] != '\\' ==> Chars(s[i..], acc) == Chars(s[i + 1..], acc + [s[i]])
    ensures i < |s| && s[i] == '\\' && (i + 1 == |s| || Unescape(s[i + 1]).None?) ==> Chars(s[i..], acc) == None
    ensures i + 1 < |s| && s[i] == '\\' && Unescape(s[i + 1]).Some? ==>
              Chars(s[i..], acc) == Chars(s[i + 2..], acc + [Unescape(s[i + 1]).value])
  {
    if i < |s| {
      assert s[i..][1..] == s[i + 1..];
    }
    if i + 1 < |s| {
      assert s[i..][2..] == s[i + 2..];
    }
  }

  lemma {:induction false} ScanStep(s: string, i: nat, buf: string)
    requires i <= |s|
    ensures i == |s| || !InNumber(s[i]) ==> Scan(s[i..], buf) == Some((buf, s[i..]))
    ensures i < |s| && s[i] == '-' && buf != [] ==> Scan(s[i..], buf) == None
    ensures i < |s| && InNumber(s[i]) && !(s[i] == '-' && buf != []) ==> Scan(s[i..], buf) == Scan(s[i + 1..], buf + [s[i]])
  {
    if i < |s| {
      assert s[i..][1..] == s[i + 1..];
    }
  }

  /** A round of the array loop, case by case. */
  lemma {:induction false} ElementsCases(env: Env, s: string, depth: nat, hasnext: bool, acc: seq<Item>, stale: bool)
    ensures var (e, s1) := (Elements(env, s, depth, hasnext, acc, stale), Skip(s));
            && (s1 == [] ==> e == Fail)
            && (s1 != [] && s1[0] == ']' && hasnext ==> e == Fail)
            && (s1 != [] && s1[0] == ']' && !hasnext ==> e == Ok(Array(acc), s1[1..], stale))
  {
  }

  lemma {:induction false} ElementsNext(env: Env, s: string, depth: nat, hasnext: bool, acc: seq<Item>, stale: bool, o: Out<Item>)
    requires Skip(s) != [] && Skip(s)[0] != ']' && o == Value(env, Skip(s), depth, stale)
    ensures var e := Elements(env, s, depth, hasnext, acc, stale);
            && (o.Fail? ==> e == Fail)
            && (o.Ok? && Skip(o.rest) == [] ==> e == Fail)
            && (o.Ok? && Skip(o.rest) != [] && Skip(o.rest)[0] == ',' ==>
                  e == Elements(env, Skip(o.rest)[1..], depth, true, acc + [o.value], o.stale))
            && (o.Ok? && Skip(o.rest) != [] && Skip(o.rest)[0] == ']' ==> e == Ok(Array(acc + [o.value]), Skip(o.rest)[1..], o.stale))
            && (o.Ok? && Skip(o.rest) != [] && Skip(o.rest)[0] !in {',', ']'} ==> e == Fail)
  {
  }

  lemma {:induction false} FieldsCases(env: Env, s: string, depth: nat, hasnext: bool, acc: seq<Field>, stale: bool)
    ensures var (e, s1) := (Fields(env, s, depth, hasnext, acc, stale), Skip(s));
            && (s1 == [] ==> e == Fail)
            && (s1 != [] && s1[0] == '}' && hasnext ==> e == Fail)
            && (s1 != [] && s1[0] == '}' && !hasnext ==> e == Ok(Object(acc), s1[1..], stale))
            && (s1 != [] && s1[0] != '}' && Key(s1).None? ==> e == Fail)
  {
  }

  lemma {:induction false} FieldsNext(env: Env, s: string, depth: nat, hasnext: bool, acc: seq<Field>, stale: bool, key: string, v: string, o: Out<Item>)
    requires Skip(s) != [] && Skip(s)[0] != '}' && Key(Skip(s)) == Some((key, v)) && o == Value(env, v, depth, stale)
    ensures var e := Fields(env, s, depth, hasnext, acc, stale);
            && (o.Fail? ==> e == Fail)
            && (o.Ok? && Skip(o.rest) == [] ==> e == Fail)
            && (o.Ok? && Skip(o.rest) != [] && Skip(o.rest)[0] == ',' ==>
                  e == Fields(env, Skip(o.rest)[1..], depth, true, acc + [Field(key, o.value)], o.stale))
            && (o.Ok? && Skip(o.rest) != [] && Skip(o.rest)[0] == '}' ==>
                  e == Ok(Object(acc + [Field(key, o.value)]), Skip(o.rest)[1..], o.stale))
            && (o.Ok? && Skip(o.rest) != [] && Skip(o.rest)[0] !in {',', '}'} ==> e == Fail)
  {
  }

  class Parser {
    const env: Env
    const data: string
    var offset: nat
    var depth: nat
    var stale: bool                   // errno is ERANGE or EINVAL

    ghost predicate Valid()
      reads this
    {
      offset <= |data|
    }

    /** `kore_json_init` */
    constructor (env: Env, data: string, stale: bool)
      ensures Valid() && this.env == env && this.data == data && offset == 0 && depth == 0 && this.stale == stale
    {
      this.env, this.data, this.offset, this.depth, this.stale := env, data, 0, 0, stale;
    }

    /** `json_consume_whitespace` */
    method ConsumeWhitespace()
      requires Valid()
      modifies this`offset
      ensures Valid() && data[offset..] == Skip(data[old(offset)..]) && offset >= old(offset)
    {
      while offset < |data| && IsBlank(data[offset])
        invariant old(offset) <= offset <= |data| && Skip(data[offset..]) == Skip(data[old(offset)..])
        decreases |data| - offset
      {
        SkipOne(data, offset);
        offset := offset + 1;
      }
      SkipNone(data, offset);
    }

    /** `json_get_string` */
    method ReadString() returns (r: Option<string>)
      requires Valid()
      modifies this`offset
      ensures Valid() && offset >= old(offset)
      ensures GetString(data[old(offset)..]) == if r.None? then None else Some((r.value, data[offset..]))
    {
      if offset == |data| || data[offset] != '\"' {
        return None;
      }
      assert data[offset..][1..] == data[offset + 1..];
      offset := offset + 1;
      var tmpbuf: string := [];
      while true
        invariant old(offset) < offset <= |data|
        invariant Chars(data[offset..], tmpbuf) == GetString(data[old(offset)..])
        decreases |data| - offset
      {
        CharsStep(data, offset, tmpbuf);
        if offset == |data| {
          return None;
        }
        var ch := data[offset];
        offset := offset + 1;
        if ch == '\"' {
          return Some(tmpbuf);
        }
        if ch as int <= 0x1f {
          return None;
        }
        if ch == '\\' {
          if offset == |data| || Unescape(data[offset]).None? {
            return None;
          }
          ch := Unescape(data[offset]).value;
          offset := offset + 1;
        }
        tmpbuf := tmpbuf + [ch];
      }
    }

    /** The loop of `json_parse_number`. */
    method Collect() returns (r: Option<string>)
      requires Valid()
      modifies this`offset
      ensures Valid() && offset >= old(offset)
      ensures Scan(data[old(offset)..], []) == if r.None? then None else Some((r.value, data[offset..]))
    {
      var tmpbuf: string := [];
      while offset < |data| && InNumber(data[offset])
        invariant old(offset) <= offset <= |data|
        invariant Scan(data[offset..], tmpbuf) == Scan(data[old(offset)..], [])
        decreases |data| - offset
      {
        ScanStep(data, offset, tmpbuf);
        if data[offset] == '-' && tmpbuf != [] {
          return None;
        }
        tmpbuf := tmpbuf + [data[offset]];
        offset := offset + 1;
      }
      ScanStep(data, offset, tmpbuf);
      r := Some(tmpbuf);
    }

    /** `json_parse_number` */
    method ParseNumber() returns (r: Option<Item>)
      requires Valid()
      modifies this`offset, this`stale
      ensures Valid() && offset >= old(offset)
      ensures Agrees(Numeral(env, data[old(offset)..], old(stale)), r, data[offset..], stale)
    {
      var tmpbuf := Collect();
      if tmpbuf.None? {
        return None;
      }
      var str := tmpbuf.value;
      NumeralIs(env, data[old(offset)..], str, data[offset..], stale);
      if Fractional(str) {
        if str !in env.doubles {
          return None;
        }
        stale := false;
        return Some(Number(str));
      }
      var o := Whole(str, data[offset..], stale);
      if o.Fail? {
        return None;
      }
      stale := o.stale;
      r := Some(o.value);
    }

    /** `json_parse_literal` */
    method ParseLiteral() returns (r: Option<Item>)
      requires Valid()
      modifies this`offset
      ensures Valid() && offset >= old(offset)
      ensures Agrees(Word(data[old(offset)..], stale), r, data[offset..], stale)
    {
      var (text, lit) := ("true", True);
      if offset < |data| && data[offset] == 'f' {
        text, lit := "false", False;
      } else if offset < |data| && data[offset] == 'n' {
        text, lit := "null", Null;
      }
      ghost var s := data[offset..];
      var i := 0;
      while i < |text|
        invariant i <= |text| && offset == old(offset) + i && offset <= |data|
        invariant forall k :: 0 <= k < i ==> s[k] == text[k]
      {
        if offset == |data| || data[offset] != text[i] {
          assert i < |s| ==> s[i] == data[offset];
          return None;
        }
        assert s[i] == data[offset];
        offset, i := offset + 1, i + 1;
      }
      assert s[i..] == data[offset..];
      r := Some(Literal(lit));
    }

    /** An item, by its first character (`json_guess_type` and the parse it leads to). */
    method ParseValue() returns (r: Option<Item>)
      requires Valid()
      modifies this
      ensures Valid() && offset >= old(offset) && (r.Some? ==> offset > old(offset) && depth == old(depth))
      ensures Agrees(Value(env, data[old(offset)..], old(depth), old(stale)), r, data[offset..], stale)
      decreases |data| - offset, 1
    {
      if offset == |data| {
        return None;
      }
      var ch := data[offset];
      Dispatch(env, data[offset..], depth, stale);
      if ch == '-' || IsDigit(ch) {
        r := ParseNumber();
      } else if ch == '{' {
        r := ParseObject();
      } else if ch == '[' {
        r := ParseArray();
      } else if ch == '\"' {
        var text := ReadString();
        r := if text.None? then None else Some(Str(text.value));
      } else {
        r := ParseLiteral();
      }
    }

    /** `json_parse_array` */
    method ParseArray() returns (r: Option<Item>)
      requires Valid() && offset < |data| && data[offset] == '['
      modifies this
      ensures Valid() && offset >= old(offset) && (r.Some? ==> depth == old(depth))
      ensures Agrees(Value(env, data[old(offset)..], old(depth), old(stale)), r, data[offset..], stale)
      decreases |data| - offset, 0
    {
      Dispatch(env, data[offset..], depth, stale);
      if depth >= env.depthMax {
        return None;
      }
      assert data[offset..][1..] == data[offset + 1..];
      depth, offset := depth + 1, offset + 1;
      r := ArrayItems();
      if r.Some? {
        depth := depth - 1;
      }
    }

    /** The next character that is not white space. */
    method NextToken() returns (ch: Option<char>)
      requires Valid()
      modifies this`offset
      ensures Valid() && offset >= old(offset)
      ensures var s := Skip(data[old(offset)..]);
              if s == [] then ch == None else ch == Some(s[0]) && data[offset..] == s[1..] && offset > old(offset)
    {
      ConsumeWhitespace();
      if offset == |data| {
        return None;
      }
      ch := Some(data[offset]);
      assert data[offset..][1..] == data[offset + 1..];
      offset := offset + 1;
    }

    /** An item and what comes after it: a comma, the closing bracket, or neither. */
    method ItemAndNext() returns (item: Option<Item>, ch: Option<char>)
      requires Valid()
      modifies this
      ensures Valid() && offset >= old(offset)
      ensures var o := Value(env, data[old(offset)..], old(depth), old(stale));
              && item.Some? == o.Ok? && (item.None? ==> ch == None)
              && (o.Ok? ==> item.value == o.value && stale == o.stale && depth == old(depth))
              && (o.Ok? && Skip(o.rest) == [] ==> ch == None)
              && (o.Ok? && Skip(o.rest) != [] ==> ch == Some(Skip(o.rest)[0]) && data[offset..] == Skip(o.rest)[1..] && offset > old(offset))
      decreases |data| - offset, 2
    {
      item := ParseValue();
      ch := None;
      if item.Some? {
        ch := NextToken();
      }
    }

    method ArrayItems() returns (r: Option<Item>)
      requires Valid()
      modifies this
      ensures Valid() && offset >= old(offset) && (r.Some? ==> depth == old(depth))
      ensures Agrees(Elements(env, data[old(offset)..], old(depth), false, [], old(stale)), r, data[offset..], stale)
      decreases |data| - offset, 3
    {
      var items: seq<Item>, hasnext := [], false;
      ghost var goal := Elements(env, data[offset..], depth, false, [], stale);
      while true
        invariant old(offset) <= offset <= |data| && depth == old(depth)
        invariant Elements(env, data[offset..], depth, hasnext, items, stale) == goal
        decreases |data| - offset
      {
        ghost var s := data[offset..];
        ElementsCases(env, s, depth, hasnext, items, stale);
        ConsumeWhitespace();
        if offset == |data| {
          return None;
        }
        if data[offset] == ']' {
          if hasnext {
            return None;
          }
          offset := offset + 1;
          return Some(Array(items));
        }
        ElementsNext(env, s, depth, hasnext, items, stale, Value(env, data[offset..], depth, stale));
        var item, ch := ItemAndNext();
        if ch == Some(',') {
          items, hasnext := items + [item.value], true;
        } else if ch == Some(']') {
          return Some(Array(items + [item.value]));
        } else {
          return None;
        }
      }
    }

    /** A name and its colon. */
    method ReadKey() returns (key: Option<string>)
      requires Valid()
      modifies this`offset
      ensures Valid() && offset >= old(offset)
      ensures Key(data[old(offset)..]) == if key.None? then None else Some((key.value, data[offset..]))
    {
      key := ReadString();
      if key.Some? {
        var ch := NextToken();
        if ch != Some(':') {
          return None;
        }
        ConsumeWhitespace();
      }
    }

    /** `json_parse_object` */
    method ParseObject() returns (r: Option<Item>)
      requires Valid() && offset < |data| && data[offset] == '{'
      modifies this
      ensures Valid() && offset >= old(offset) && (r.Some? ==> depth == old(depth))
      ensures Agrees(Value(env, data[old(offset)..], old(depth), old(stale)), r, data[offset..], stale)
      decreases |data| - offset, 0
    {
      Dispatch(env, data[offset..], depth, stale);
      if depth >= env.depthMax {
        return None;
      }
      assert data[offset..][1..] == data[offset + 1..];
      depth, offset := depth + 1, offset + 1;
      r := ObjectFields();
      if r.Some? {
        depth := depth - 1;
      }
    }

    method ObjectFields() returns (r: Option<Item>)
      requires Valid()
      modifies this
      ensures Valid() && offset >= old(offset) && (r.Some? ==> depth == old(depth))
      ensures Agrees(Fields(env, data[old(offset)..], old(depth), false, [], old(stale)), r, data[offset..], stale)
      decreases |data| - offset, 3
    {
      var fields: seq<Field>, hasnext := [], false;
      ghost var goal := Fields(env, data[offset..], depth, false, [], stale);
      while true
        invariant old(offset) <= offset <= |data| && depth == old(depth)
        invariant Fields(env, data[offset..], depth, hasnext, fields, stale) == goal
        decreases |data| - offset
      {
        ghost var s := data[offset..];
        FieldsCases(env, s, depth, hasnext, fields, stale);
        ConsumeWhitespace();
        if offset == |data| {
          return None;
        }
        if data[offset] == '}' {
          if hasnext {
            return None;
          }
          offset := offset + 1;
          return Some(Object(fields));
        }
        var key := ReadKey();
        if key.None? {
          return None;
        }
        ghost var o := Value(env, data[offset..], depth, stale);
        FieldsNext(env, s, depth, hasnext, fields, stale, key.value, data[offset..], o);
        var item, ch := ItemAndNext();
        if ch != Some(',') {
          return if ch == Some('}') then Some(Object(fields + [Field(key.value, item.value)])) else None;
        }
        fields, hasnext := fields + [Field(key.value, item.value)], true;
      }
    }

    /** `kore_json_parse`, the first time it is called. */
    method Parse() returns (r: Option<Item>)
      requires offset == 0 && depth == 0
      modifies this
      ensures r == Parsed(env, data, old(stale))
    {
      assert data[0..] == data;
      ConsumeWhitespace();
      r := ParseValue();
      if r.Some? {
        ConsumeWhitespace();
        if offset != |data| {
          r := None;
        }
      }
    }
  }
}
