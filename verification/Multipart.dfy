/** The multipart/form-data reader of `http.c`: a search over a stream that is read in pieces. */
module Multipart {
  import opened Bytes
  import opened Lists
  import opened Search
  import opened Buf

  /** The in-memory body of a request and how much of it has been handed out. */
  class Request {
    const body: seq<byte>        // `http_body->data`, `content_length` octets
    var cursor: nat              // `http_body->offset`
    var bodyOffset: nat          // `http_body_offset`
    var bodyLength: nat          // `http_body_length`: octets not handed out yet

    ghost predicate Valid()
      reads this
    {
      cursor == bodyOffset && bodyOffset + bodyLength == |body|
    }

    ghost function Unread(): seq<byte>
      requires Valid()
      reads this
    {
      body[bodyOffset..]
    }

    constructor (body: seq<byte>)
      ensures Valid() && this.body == body && Unread() == body && bodyOffset == 0
    {
      this.body := body;
      cursor, bodyOffset, bodyLength := 0, 0, |body|;
    }

    /** `http_body_rewind` for an in-memory body */
    method Rewind()
      modifies this
      ensures Valid() && Unread() == body
    {
      cursor := 0;
      bodyOffset := 0;
      bodyLength := |body|;
    }

    /** `http_body_read`. An in-memory body always yields all it may; a file may yield less, so any
        non-zero amount is allowed here. */
    method BodyRead(max: nat) returns (d: seq<byte>)
      requires Valid()
      modifies this
      ensures Valid() && d + Unread() == old(Unread()) && |d| <= max
      ensures d == [] <==> max == 0 || old(Unread()) == []
      ensures bodyOffset == old(bodyOffset) + |d|
    {
      var toread := if bodyLength < max then bodyLength else max;
      if toread == 0 {
        return [];
      }
      var n :| 1 <= n <= toread;
      d := body[cursor..cursor + n];
      cursor := cursor + n;
      bodyLength := bodyLength - n;
      bodyOffset := bodyOffset + n;
    }
  }

  const READ_SIZE: nat := 4096

  /** What a search has yet to look at: what is buffered, then what is unread. */
  ghost function Stream(inb: Buffer, req: Request): seq<byte>
    requires inb.Valid() && req.Valid()
    reads inb, req
  {
    inb.Contents() + req.Unread()
  }

  /** `kore_mem_find` for a single octet, in terms of positions. */
  lemma OctetIndex(s: seq<byte>, first: byte)
    ensures IndexOf(s, [first]).None? ==> forall j :: 0 <= j < |s| ==> s[j] != first
    ensures IndexOf(s, [first]).Some? ==>
      var p := IndexOf(s, [first]).value;
      p < |s| && s[p] == first && forall j :: 0 <= j < p ==> s[j] != first
  {
    IndexOfSpec(s, [first]);
    forall j | 0 <= j < |s|
      ensures OccursAt(s, [first], j) <==> s[j] == first
    {
      assert [first][0] == first;
    }
  }

  /** How one turn of the loop of `multipart_find_data` judges the buffered octets, whatever `rest` may
      follow them: the needle starts `n` octets in, or no match starts among the first `n`. */
  method Judge(seen: seq<byte>, needle: seq<byte>, ghost rest: seq<byte>) returns (hit: bool, n: nat)
    requires 0 < |needle| <= |seen|
    ensures n + (if hit then |needle| else 0) <= |seen| && (hit || n > 0)
    ensures forall j :: j < n ==> !OccursAt(seen + rest, needle, j)
    ensures hit ==> OccursAt(seen + rest, needle, n)
  {
    var first := needle[0];
    var found := MemFind(seen, [first]);
    OctetIndex(seen, first);
    hit := false;
    if found.None? {
      n := |seen|;
    } else if |seen| - found.value < |needle| {
      n := found.value;
    } else if seen[found.value..found.value + |needle|] == needle {
      n := found.value;
      hit := true;
    } else {
      n := found.value + 1;
      assert (seen + rest)[n - 1..n - 1 + |needle|] == seen[n - 1..n - 1 + |needle|];
    }
  }

  datatype Verdict = More | Found | Exhausted

  /** `olen` octets of `total` have been passed on, and no match starts among them. */
  ghost predicate Searching(inb: Buffer, out: Buffer?, req: Request, needle: seq<byte>, total: seq<byte>, out0: seq<byte>, olen: nat)
    reads inb, out, req
  {
    && inb.Valid() && req.Valid() && out != inb && |needle| > 0
    && olen <= |total| && Stream(inb, req) == total[olen..]
    && (out != null ==> out.Valid() && out.Contents() == out0 + total[..olen])
    && forall j :: j < olen ==> !OccursAt(total, needle, j)
  }

  /** Read more of the body behind what is buffered; `got` is false at the end of the body. */
  method Refill(inb: Buffer, req: Request) returns (got: bool)
    requires inb.Valid() && req.Valid()
    modifies inb, req
    ensures inb.Valid() && req.Valid() && Stream(inb, req) == old(Stream(inb, req))
    ensures got ==> |req.Unread()| < |old(req.Unread())|
    ensures !got ==> req.Unread() == [] && inb.offset == old(inb.offset)
  {
    var d := req.BodyRead(READ_SIZE);
    Assoc(inb.Contents(), d, req.Unread());
    got := d != [];
    if got {
      inb.Append(d);
    }
  }

  /** The needle has its length in the buffer: pass on what cannot be part of a match, up to the needle. */
  method Pass(inb: Buffer, out: Buffer?, req: Request, needle: seq<byte>, ghost total: seq<byte>, ghost out0: seq<byte>, olen: nat)
    returns (hit: bool, n: nat)
    requires Searching(inb, out, req, needle, total, out0, olen) && inb.offset >= |needle|
    modifies inb, out
    ensures Searching(inb, out, req, needle, total, out0, olen + n) && req.Unread() == old(req.Unread())
    ensures inb.offset + n == old(inb.offset)
    ensures if hit then FirstAt(total, needle, olen + n) && inb.offset >= |needle| else n > 0
  {
    ghost var buffered, rest := inb.Contents(), req.Unread();
    hit, n := Judge(inb.data[..inb.offset], needle, rest);
    Advance(total, olen, n, needle, buffered, rest);
    Assoc(out0, total[..olen], buffered[..n]);
    if hit {
      Hit(total, olen, n, needle, buffered, rest);
    }
    Emit(inb, out, n);
  }

  /** No match starts among the octets passed on, and what is left is too short for one. */
  lemma NoMatchLeft(total: seq<byte>, needle: seq<byte>, n: nat)
    requires n <= |total| && |total| - n < |needle| && forall j :: j < n ==> !OccursAt(total, needle, j)
    ensures !Occurs(total, needle)
  {
    assert forall j :: OccursAt(total, needle, j) ==> j < n;
  }

  /** One turn of the loop of `multipart_find_data`. */
  method Turn(inb: Buffer, out: Buffer?, req: Request, needle: seq<byte>, ghost total: seq<byte>, ghost out0: seq<byte>, olen: nat)
    returns (v: Verdict, more: nat)
    requires Searching(inb, out, req, needle, total, out0, olen)
    modifies inb, req, out
    ensures v.More? ==> Searching(inb, out, req, needle, total, out0, olen + more)
    ensures v.More? ==> |req.Unread()| < |old(req.Unread())| || (req.Unread() == old(req.Unread()) && inb.offset < old(inb.offset))
    ensures v.Exhausted? ==> more == 0 && Searching(inb, out, req, needle, total, out0, olen)
    ensures v.Exhausted? ==> req.Unread() == [] && inb.offset < |needle| && !Occurs(total, needle)
    ensures v.Found? ==> inb.Valid() && req.Valid() && FirstAt(total, needle, olen + more) && Occurs(total, needle)
    ensures v.Found? ==> Stream(inb, req) == total[olen + more + |needle|..]
    ensures v.Found? && out != null ==> out.Valid() && out.Contents() == out0 + total[..olen + more]
  {
    if inb.offset < |needle| {
      var got := Refill(inb, req);
      if got {
        return More, 0;
      }
      NoMatchLeft(total, needle, olen);
      return Exhausted, 0;
    }
    var hit, n := Pass(inb, out, req, needle, total, out0, olen);
    if hit {
      ghost var left := total[olen + n..];
      inb.Discard(|needle|);
      assert Stream(inb, req) == left[|needle|..];
      return Found, n;
    }
    return More, n;
  }

  /** `multipart_find_data`: the streaming search. Its answer is that of a plain search of the whole
      remaining stream, whatever sizes the reads come in. */
  method FindData(inb: Buffer, out: Buffer?, req: Request, needle: seq<byte>) returns (ok: bool, olen: nat)
    requires |needle| > 0
    requires inb.Valid() && req.Valid() && out != inb && (out != null ==> out.Valid())
    modifies inb, req, out
    ensures inb.Valid() && req.Valid() && (out != null ==> out.Valid())
    ensures ok <==> Occurs(old(Stream(inb, req)), needle)
    ensures olen <= |old(Stream(inb, req))|
    ensures ok ==> FirstAt(old(Stream(inb, req)), needle, olen)
    ensures Stream(inb, req) == old(Stream(inb, req))[if ok then olen + |needle| else olen..]
    ensures out != null ==> out.Contents() == old(if out != null then out.Contents() else []) + old(Stream(inb, req))[..olen]
    ensures !ok ==> req.Unread() == [] && |inb.Contents()| < |needle|
  {
    ghost var out0 := if out != null then out.Contents() else [];
    ok, olen := Scan(inb, out, req, needle, Stream(inb, req), out0);
  }

  /** Its loop. */
  method Scan(inb: Buffer, out: Buffer?, req: Request, needle: seq<byte>, ghost total: seq<byte>, ghost out0: seq<byte>) returns (ok: bool, olen: nat)
    requires Searching(inb, out, req, needle, total, out0, 0)
    modifies inb, req, out
    ensures inb.Valid() && req.Valid() && olen <= |total|
    ensures ok <==> Occurs(total, needle)
    ensures ok ==> FirstAt(total, needle, olen)
    ensures Stream(inb, req) == total[if ok then olen + |needle| else olen..]
    ensures out != null ==> out.Valid() && out.Contents() == out0 + total[..olen]
    ensures !ok ==> req.Unread() == [] && |inb.Contents()| < |needle|
  {
    olen := 0;
    while true
      invariant Searching(inb, out, req, needle, total, out0, olen)
      decreases |req.Unread()|, inb.offset
    {
      var v, more := Turn(inb, out, req, needle, total, out0, olen);
      olen := olen + more;
      match v
      case More =>
      case Found => return true, olen;
      case Exhausted => return false, olen;
    }
  }

  /** Move the first `n` buffered octets to `out`, or drop them when there is no `out`. */
  method Emit(inb: Buffer, out: Buffer?, n: nat)
    requires inb.Valid() && n <= inb.offset && out != inb && (out != null ==> out.Valid())
    modifies inb, out
    ensures inb.Valid() && (out != null ==> out.Valid())
    ensures inb.Contents() == old(inb.Contents())[n..]
    ensures out != null ==> out.Contents() == old(if out != null then out.Contents() else []) + old(inb.Contents())[..n]
  {
    if out != null {
      assert inb.data[..n] == inb.Contents()[..n];
      out.Append(inb.data[..n]);
    }
    inb.Discard(n);
  }

  lemma Advance(total: seq<byte>, done: nat, n: nat, needle: seq<byte>, buffered: seq<byte>, rest: seq<byte>)
    requires done <= |total| && total[done..] == buffered + rest && n <= |buffered|
    requires forall j :: j < done ==> !OccursAt(total, needle, j)
    requires forall j :: j < n ==> !OccursAt(buffered + rest, needle, j)
    ensures total[..done] + buffered[..n] == total[..done + n]
    ensures buffered[n..] + rest == total[done + n..]
    ensures forall j :: j < done + n ==> !OccursAt(total, needle, j)
  {
    var u := total[done..];
    assert u[..n] == buffered[..n];
    assert u[n..] == buffered[n..] + rest;
    forall j | done <= j < done + n && j + |needle| <= |total|
      ensures !OccursAt(total, needle, j)
    {
      assert u[j - done..j - done + |needle|] == total[j..j + |needle|];
      assert !OccursAt(u, needle, j - done);
    }
  }

  lemma Hit(total: seq<byte>, done: nat, n: nat, needle: seq<byte>, buffered: seq<byte>, rest: seq<byte>)
    requires done <= |total| && total[done..] == buffered + rest && n + |needle| <= |buffered|
    requires OccursAt(buffered + rest, needle, n)
    requires forall j :: j < done + n ==> !OccursAt(total, needle, j)
    ensures FirstAt(total, needle, done + n)
    ensures buffered[n + |needle|..] + rest == total[done + n + |needle|..]
  {
    var u := total[done..];
    assert u[n + |needle|..] == buffered[n + |needle|..] + rest;
    assert u[n..n + |needle|] == total[done + n..done + n + |needle|];
  }

  // ---- Searching on from a position ----

  ghost predicate Skipped(body: seq<byte>, needle: seq<byte>, j: int) {
    !OccursAt(body, needle, j)
  }

  /** `i` is the first occurrence at or behind `from`. */
  ghost predicate NextAt(body: seq<byte>, from: nat, needle: seq<byte>, i: nat) {
    && from <= i && OccursAt(body, needle, i)
    && forall j {:trigger Skipped(body, needle, j)} :: from <= j < i ==> Skipped(body, needle, j)
  }

  ghost function Next(body: seq<byte>, from: nat, needle: seq<byte>): (r: Option<nat>)
    ensures r.Some? ==> from <= r.value && r.value + |needle| <= |body|
  {
    if i: nat :| NextAt(body, from, needle, i) then Some(i) else None
  }

  lemma NextUnique(body: seq<byte>, from: nat, needle: seq<byte>, i: nat)
    requires NextAt(body, from, needle, i)
    ensures Next(body, from, needle) == Some(i)
  {
    var j := Next(body, from, needle).value;
    assert j < i ==> Skipped(body, needle, j);
    assert i < j ==> Skipped(body, needle, i);
  }

  lemma ShiftOccurrence(body: seq<byte>, from: nat, needle: seq<byte>, j: int)
    requires from <= |body|
    ensures OccursAt(body[from..], needle, j) <==> j >= 0 && OccursAt(body, needle, from + j)
  {
    if OccursAt(body[from..], needle, j) {
      forall k | 0 <= k < |needle|
        ensures body[from + j + k] == needle[k]
      {
        assert body[from..][j + k] == needle[k];
      }
    }
  }

  /** Searching the rest of the body finds the same place. */
  lemma NextIsIndexOf(body: seq<byte>, from: nat, needle: seq<byte>)
    requires from <= |body|
    ensures var o := IndexOf(body[from..], needle);
            Next(body, from, needle) == if o.None? then None else Some(from + o.value)
  {
    var u := body[from..];
    IndexOfSpec(u, needle);
    if i: nat :| NextAt(body, from, needle, i) {
      forall j | j < i - from
        ensures !OccursAt(u, needle, j)
      {
        ShiftOccurrence(body, from, needle, j);
        assert j >= 0 ==> Skipped(body, needle, from + j);
      }
      ShiftOccurrence(body, from, needle, i - from);
      FirstIsIndexOf(u, needle, i - from);
      NextUnique(body, from, needle, i);
    } else if Occurs(u, needle) {
      var i := IndexOf(u, needle).value;
      forall j | from <= j < from + i
        ensures Skipped(body, needle, j)
      {
        ShiftOccurrence(body, from, needle, j - from);
      }
      ShiftOccurrence(body, from, needle, i);
      assert NextAt(body, from, needle, from + i);
    }
  }

  lemma NoneLater(body: seq<byte>, from: nat, later: nat, needle: seq<byte>)
    requires from <= later && Next(body, from, needle).None?
    ensures Next(body, later, needle).None?
  {
    if Next(body, later, needle).Some? {
      LeftmostFrom(body, from, needle, Next(body, later, needle).value);
    }
  }

  lemma {:induction false} LeftmostFrom(body: seq<byte>, from: nat, needle: seq<byte>, i: nat)
    requires from <= i && OccursAt(body, needle, i)
    ensures Next(body, from, needle).Some?
    decreases i
  {
    if j: nat :| from <= j < i && OccursAt(body, needle, j) {
      LeftmostFrom(body, from, needle, j);
    } else {
      NextUnique(body, from, needle, i);
    }
  }

  // ---- The form as a whole ----

  /** What one content-disposition header of a part asks for. */
  datatype Part = FieldPart(name: seq<byte>) | FilePart(name: seq<byte>, filename: seq<byte>)

  /** What `multipart_parse_headers` makes of header blocks; the blocks it finds nothing in are left out. */
  type Headers = map<seq<byte>, seq<Part>>

  function PartsOf(parse: Headers, header: seq<byte>): (parts: seq<Part>) {
    if header in parse then parse[header] else []
  }

  /** What a part leaves behind: an argument, or a file that refers to a slice of the body. */
  datatype Record =
    | Field(name: seq<byte>, value: seq<byte>)
    | File(name: seq<byte>, filename: seq<byte>, position: nat, length: nat)

  const CRLF: seq<byte> := [13, 10]
  const BLANK_LINE: seq<byte> := [13, 10, 13, 10]

  /** The record of a part whose content starts at `pos` and is followed by a boundary at `end`. */
  function RecordOf(part: Part, body: seq<byte>, pos: nat, end: nat): (r: seq<Record>)
    requires pos <= end <= |body|
  {
    if end - pos < 3 then []
    else match part
         case FieldPart(name) => [Field(name, body[pos..end - 2])]
         case FilePart(name, filename) => [File(name, filename, pos, end - pos - 2)]
  }

  /** The records of the content-disposition headers of one part, and where reading goes on if every
      boundary was there. */
  ghost function PartRecords(body: seq<byte>, pos: nat, parts: seq<Part>, boundary: seq<byte>): (r: (seq<Record>, Option<nat>))
    requires pos <= |body|
    ensures r.1.Some? ==> pos <= r.1.value <= |body|
    decreases |parts|
  {
    if parts == [] then ([], Some(pos))
    else match Next(body, pos, boundary)
         case None => ([], None)
         case Some(i) =>
           var rest := PartRecords(body, i + |boundary|, parts[1..], boundary);
           (RecordOf(parts[0], body, pos, i) + rest.0, rest.1)
  }

  /** The records of the form that starts after a boundary ending at `pos`, read off the whole body. */
  ghost function FormFrom(body: seq<byte>, pos: nat, boundary: seq<byte>, parse: Headers): (r: seq<Record>)
    requires pos <= |body|
    decreases |body| - pos
  {
    match Next(body, pos, CRLF)
    case None => []
    case Some(i) =>
      match Next(body, i + 2, BLANK_LINE)
      case None => []
      case Some(j) =>
        var rest := PartRecords(body, j + 4, PartsOf(parse, body[i + 2..j]), boundary);
        rest.0 + if rest.1.None? then [] else FormFrom(body, rest.1.value, boundary, parse)
  }

  ghost function FormOf(body: seq<byte>, boundary: seq<byte>, parse: Headers): (r: seq<Record>) {
    match Next(body, 0, boundary)
    case None => []
    case Some(i) => FormFrom(body, i + |boundary|, boundary, parse)
  }

  ghost function Onward(body: seq<byte>, next: Option<nat>, boundary: seq<byte>, parse: Headers): (r: seq<Record>)
    requires next.Some? ==> next.value <= |body|
  {
    if next.None? then [] else FormFrom(body, next.value, boundary, parse)
  }

  /** The first part of a form, and the rest. */
  lemma {:induction false} FormUnfold(body: seq<byte>, pos: nat, i: nat, j: nat, boundary: seq<byte>, parse: Headers)
    requires pos <= |body| && Next(body, pos, CRLF) == Some(i) && Next(body, i + 2, BLANK_LINE) == Some(j)
    ensures pos <= i && i + 2 <= j && j + 4 <= |body|
    ensures var rest := PartRecords(body, j + 4, PartsOf(parse, body[i + 2..j]), boundary);
            FormFrom(body, pos, boundary, parse) == rest.0 + Onward(body, rest.1, boundary, parse)
  {
  }

  /** Without another boundary there is nothing more to record. */
  lemma {:induction false} NoBoundaryNoParts(body: seq<byte>, pos: nat, parts: seq<Part>, boundary: seq<byte>)
    requires pos <= |body| && Next(body, pos, boundary).None?
    ensures PartRecords(body, pos, parts, boundary).0 == []
    ensures PartRecords(body, pos, parts, boundary).1.Some? ==> PartRecords(body, pos, parts, boundary).1 == Some(pos)
  {
  }

  lemma {:induction false} NoBoundaryNoForm(body: seq<byte>, pos: nat, boundary: seq<byte>, parse: Headers)
    requires pos <= |body| && Next(body, pos, boundary).None?
    ensures FormFrom(body, pos, boundary, parse) == []
    decreases |body| - pos
  {
    if FormFrom(body, pos, boundary, parse) != [] {
      var at, parts := FirstPart(body, pos, boundary, parse);
      NoneLater(body, pos, at, boundary);
      NoBoundaryNoParts(body, at, parts, boundary);
      NoBoundaryNoForm(body, at, boundary, parse);
    }
  }

  /** What is buffered and unread is the body from some position on; this is that position. */
  ghost function Pos(inb: Buffer, req: Request): int
    reads inb, req
  {
    req.bodyOffset - inb.offset
  }

  ghost predicate Aligned(inb: Buffer, req: Request)
    reads inb, req
  {
    inb.Valid() && req.Valid() && 0 <= Pos(inb, req) && Stream(inb, req) == req.body[Pos(inb, req)..]
  }

  /** `FindData` on a request body: it moves the position past the next needle. */
  method FindNext(inb: Buffer, out: Buffer?, req: Request, needle: seq<byte>) returns (ok: bool, olen: nat)
    requires |needle| > 0 && Aligned(inb, req) && out != inb && (out != null ==> out.Valid())
    modifies inb, req, out
    ensures Aligned(inb, req) && (out != null ==> out.Valid()) && old(Pos(inb, req)) <= Pos(inb, req)
    ensures var p := old(Pos(inb, req));
            && p + olen <= |req.body|
            && (if ok then Next(req.body, p, needle) == Some(p + olen) && Pos(inb, req) == p + olen + |needle|
                else Next(req.body, p, needle).None?)
            && (ok && out != null ==> out.Contents() == old(if out != null then out.Contents() else []) + req.body[p..p + olen])
  {
    ghost var u, p := Stream(inb, req), Pos(inb, req);
    ok, olen := FindData(inb, out, req, needle);
    NextIsIndexOf(req.body, p, needle);
    if ok {
      FirstIsIndexOf(u, needle, olen);
    } else {
      IndexOfSpec(u, needle);
    }
    ghost var from := if ok then olen + |needle| else olen;
    assert |Stream(inb, req)| == inb.offset + |req.body| - req.bodyOffset;
    assert req.body[p..][from..] == req.body[p + from..] && req.body[p..][..olen] == req.body[p..p + olen];
  }

  /** `multipart_add_field` and `multipart_file_add` */
  method AddPart(inb: Buffer, req: Request, part: Part, boundary: seq<byte>) returns (r: seq<Record>)
    requires |boundary| > 0 && Aligned(inb, req)
    modifies inb, req
    ensures Aligned(inb, req) && old(Pos(inb, req)) <= Pos(inb, req)
    ensures var p := old(Pos(inb, req));
            match Next(req.body, p, boundary)
            case None => r == []
            case Some(i) => Pos(inb, req) == i + |boundary| && r == RecordOf(part, req.body, p, i)
  {
    ghost var p := Pos(inb, req);
    r := [];
    match part
    case FieldPart(name) =>
      var data := new Buffer(128);
      var ok, olen := FindNext(inb, data, req, boundary);
      if ok && data.offset >= 3 {
        assert data.Contents() == req.body[p..p + olen];
        r := [Field(name, data.data[..data.offset - 2])];
        assert data.data[..data.offset - 2] == data.Contents()[..olen - 2] == req.body[p..p + olen - 2];
      }
    case FilePart(name, filename) =>
      var position := req.bodyOffset - inb.offset;
      var ok, len := FindNext(inb, null, req, boundary);
      if ok && len >= 3 {
        r := [File(name, filename, position, len - 2)];
      }
  }

  /** `multipart_parse_headers`, given what the header block asks for. */
  method AddParts(inb: Buffer, req: Request, parts: seq<Part>, boundary: seq<byte>) returns (r: seq<Record>)
    requires |boundary| > 0 && Aligned(inb, req)
    modifies inb, req
    ensures Aligned(inb, req) && old(Pos(inb, req)) <= Pos(inb, req)
    ensures var spec := PartRecords(req.body, old(Pos(inb, req)), parts, boundary);
            && r == spec.0
            && (if spec.1.Some? then Pos(inb, req) == spec.1.value else Next(req.body, Pos(inb, req), boundary).None?)
    decreases |parts|
  {
    if parts == [] {
      return [];
    }
    ghost var p := Pos(inb, req);
    r := AddPart(inb, req, parts[0], boundary);
    ghost var q := Pos(inb, req);
    var more := AddParts(inb, req, parts[1..], boundary);
    r := r + more;
    if Next(req.body, p, boundary).None? {
      NoneLater(req.body, p, q, boundary);
      NoneLater(req.body, p, Pos(inb, req), boundary);
      NoBoundaryNoParts(req.body, q, parts[1..], boundary);
    }
  }

  /** The header block of the next part: what lies between the end of the line and the blank line. */
  method ReadHeader(inb: Buffer, req: Request) returns (ok: bool, header: seq<byte>, ghost i: nat, ghost j: nat)
    requires Aligned(inb, req)
    modifies inb, req
    ensures Aligned(inb, req)
    ensures var p := old(Pos(inb, req));
            && (!ok ==> Next(req.body, p, CRLF).None? || (Next(req.body, p, CRLF) == Some(i) && Next(req.body, i + 2, BLANK_LINE).None?))
            && (ok ==> Next(req.body, p, CRLF) == Some(i) && Next(req.body, i + 2, BLANK_LINE) == Some(j) && Pos(inb, req) == j + 4)
            && (ok ==> p <= i && i + 2 <= j && j + 4 <= |req.body| && header == req.body[i + 2..j])
  {
    var olen;
    ghost var p := Pos(inb, req);
    ok, olen := FindNext(inb, null, req, CRLF);
    header, i, j := [], p + olen, 0;
    if !ok {
      return;
    }
    if inb.offset < 4 && req.bodyLength == 0 {
      ok := false;
      return;
    }
    var out := new Buffer(128);
    ok, olen := FindNext(inb, out, req, BLANK_LINE);
    j := i + 2 + olen;
    if ok {
      header := out.data[..out.offset];
      assert header == out.Contents() == req.body[i + 2..j];
    }
  }

  /** A part read, and reading on from wherever it left off. */
  lemma {:induction false} PartAndRest(body: seq<byte>, pos: nat, i: nat, j: nat, next: nat, boundary: seq<byte>, parse: Headers)
    requires pos <= |body| && Next(body, pos, CRLF) == Some(i) && Next(body, i + 2, BLANK_LINE) == Some(j) && next <= |body|
    requires var o := PartRecords(body, j + 4, PartsOf(parse, body[i + 2..j]), boundary).1;
             if o.Some? then next == o.value else Next(body, next, boundary).None?
    ensures PartRecords(body, j + 4, PartsOf(parse, body[i + 2..j]), boundary).0 + FormFrom(body, next, boundary, parse)
            == FormFrom(body, pos, boundary, parse)
  {
    FormUnfold(body, pos, i, j, boundary, parse);
    if Next(body, next, boundary).None? {
      NoBoundaryNoForm(body, next, boundary, parse);
    }
  }

  /** One turn of the loop of `http_populate_multipart_form`: one part, or the end of the form. */
  method ReadPart(inb: Buffer, req: Request, boundary: seq<byte>, parse: Headers) returns (last: bool, records: seq<Record>)
    requires |boundary| > 0 && Aligned(inb, req)
    modifies inb, req
    ensures Aligned(inb, req)
    ensures last ==> records == [] && FormFrom(req.body, old(Pos(inb, req)), boundary, parse) == []
    ensures !last ==> old(Pos(inb, req)) < Pos(inb, req)
    ensures !last ==> records + FormFrom(req.body, Pos(inb, req), boundary, parse) == FormFrom(req.body, old(Pos(inb, req)), boundary, parse)
  {
    var ok, header, i, j := ReadHeader(inb, req);
    if !ok {
      return true, [];
    }
    records := AddParts(inb, req, PartsOf(parse, header), boundary);
    last := false;
    PartAndRest(req.body, old(Pos(inb, req)), i, j, Pos(inb, req), boundary, parse);
  }

  /** `http_populate_multipart_form` once the boundary is known. What gets recorded is what a reader of
      the whole body would record, whatever sizes the reads come in. */
  method PopulateForm(req: Request, boundary: seq<byte>, parse: Headers) returns (records: seq<Record>)
    requires |boundary| > 0 && req.Valid() && req.bodyOffset == 0
    modifies req
    ensures records == FormOf(req.body, boundary, parse)
  {
    records := [];
    var inb := new Buffer(128);
    assert req.body[0..] == req.body;
    var ok, olen := FindNext(inb, null, req, boundary);
    var last := !ok;
    while !last
      invariant fresh(inb) && Aligned(inb, req)
      invariant last ==> records == FormOf(req.body, boundary, parse)
      invariant !last ==> records + FormFrom(req.body, Pos(inb, req), boundary, parse) == FormOf(req.body, boundary, parse)
      decreases !last, |req.body| - Pos(inb, req)
    {
      ghost var before := records;
      var more;
      last, more := ReadPart(inb, req, boundary, parse);
      records := records + more;
      RecordsAssoc(before, more, FormFrom(req.body, Pos(inb, req), boundary, parse));
    }
  }

  lemma RecordsAssoc(a: seq<Record>, b: seq<Record>, c: seq<Record>)
    ensures (a + b) + c == a + (b + c)
    ensures a + [] == a
  {
  }

  // ---- Files are slices ----

  /** A content starts behind the blank line that ends the part headers, or, for a further disposition of the
      same header block, behind the boundary that ended the content before it. */
  ghost predicate StartsAt(body: seq<byte>, boundary: seq<byte>, pos: nat) {
    OccursAt(body, BLANK_LINE, pos - 4) || OccursAt(body, boundary, pos - |boundary|)
  }

  /** A recorded file is a slice of the body that starts where a content starts, and the next boundary begins
      exactly two octets behind it. */
  ghost predicate IsSlice(body: seq<byte>, boundary: seq<byte>, r: Record) {
    r.File? ==> r.length > 0 && StartsAt(body, boundary, r.position) && Next(body, r.position, boundary) == Some(r.position + r.length + 2)
  }

  lemma {:induction false} PartFilesAreSlices(body: seq<byte>, pos: nat, parts: seq<Part>, boundary: seq<byte>, r: Record)
    requires pos <= |body| && r in PartRecords(body, pos, parts, boundary).0 && StartsAt(body, boundary, pos)
    ensures IsSlice(body, boundary, r)
    decreases |parts|
  {
    var i := Next(body, pos, boundary).value;
    if r !in RecordOf(parts[0], body, pos, i) {
      PartFilesAreSlices(body, i + |boundary|, parts[1..], boundary, r);
    }
  }

  lemma {:induction false} FilesAreSlicesFrom(body: seq<byte>, pos: nat, boundary: seq<byte>, parse: Headers, r: Record)
    requires pos <= |body| && r in FormFrom(body, pos, boundary, parse)
    ensures IsSlice(body, boundary, r)
    decreases |body| - pos
  {
    var at, parts := FirstPart(body, pos, boundary, parse);
    var rest := PartRecords(body, at, parts, boundary);
    if r in rest.0 {
      PartFilesAreSlices(body, at, parts, boundary, r);
    } else {
      FilesAreSlicesFrom(body, rest.1.value, boundary, parse, r);
    }
  }

  /** A form that leaves a record has a first part, whose content starts behind a blank line. */
  lemma FirstPart(body: seq<byte>, pos: nat, boundary: seq<byte>, parse: Headers) returns (at: nat, parts: seq<Part>)
    requires pos <= |body| && FormFrom(body, pos, boundary, parse) != []
    ensures pos < at <= |body| && StartsAt(body, boundary, at)
    ensures var rest := PartRecords(body, at, parts, boundary);
            FormFrom(body, pos, boundary, parse) == rest.0 + Onward(body, rest.1, boundary, parse)
  {
    var i := Next(body, pos, CRLF).value;
    var j := Next(body, i + 2, BLANK_LINE).value;
    at, parts := j + 4, PartsOf(parse, body[i + 2..j]);
  }

  /** Every file of every form denotes the octets from the start of its content up to the next boundary, less
      the line break before it. */
  lemma FilesAreSlices(body: seq<byte>, boundary: seq<byte>, parse: Headers)
    ensures forall r :: r in FormOf(body, boundary, parse) ==> IsSlice(body, boundary, r)
  {
    forall r | r in FormOf(body, boundary, parse)
      ensures IsSlice(body, boundary, r)
    {
      FilesAreSlicesFrom(body, Next(body, 0, boundary).value + |boundary|, boundary, parse, r);
    }
  }

  // ---- Writing a form and reading it back ----

  /** One part as a client writes it: a header block, its content, and what the header block asks for. */
  datatype Entry = Entry(header: seq<byte>, content: seq<byte>, part: Part)

  /** The body after a boundary: the entries, each closed by a boundary, then the final mark. */
  function Written(entries: seq<Entry>, boundary: seq<byte>): (s: seq<byte>) {
    if entries == [] then [45, 45] + CRLF
    else CRLF + (entries[0].header + (BLANK_LINE + (entries[0].content + CRLF + (boundary + Written(entries[1..], boundary)))))
  }

  /** The client kept the separators recognisable: neither the blank line nor the boundary shows up early. */
  ghost predicate WellWritten(e: Entry, boundary: seq<byte>) {
    && FirstAt(e.header + BLANK_LINE, BLANK_LINE, |e.header|)
    && FirstAt(e.content + CRLF + boundary, boundary, |e.content| + 2)
  }

  /** The record the client means by an entry whose content starts at `at`. */
  function Meant(e: Entry, at: nat): (r: Record) {
    match e.part
    case FieldPart(name) => Field(name, e.content)
    case FilePart(name, filename) => File(name, filename, at, |e.content|)
  }

  function ContentAt(pos: nat, e: Entry): (at: nat) {
    pos + 2 + |e.header| + 4
  }

  function Beyond(pos: nat, e: Entry, boundary: seq<byte>): (next: nat) {
    ContentAt(pos, e) + |e.content| + 2 + |boundary|
  }

  /** The record of one entry: an empty content is passed over. */
  function RecordFor(e: Entry, at: nat): (r: seq<Record>) {
    if e.content == [] then [] else [Meant(e, at)]
  }

  /** What the reader records for the entries, when the first boundary ends at `pos`. */
  function Expected(entries: seq<Entry>, pos: nat, boundary: seq<byte>): (r: seq<Record>) {
    if entries == [] then []
    else RecordFor(entries[0], ContentAt(pos, entries[0])) + Expected(entries[1..], Beyond(pos, entries[0], boundary), boundary)
  }

  /** What the client means by all of them. */
  function MeantAll(entries: seq<Entry>, pos: nat, boundary: seq<byte>): (r: seq<Record>)
    ensures |r| == |entries|
  {
    if entries == [] then []
    else [Meant(entries[0], ContentAt(pos, entries[0]))] + MeantAll(entries[1..], Beyond(pos, entries[0], boundary), boundary)
  }

  /** Everything that is meant is recorded exactly if no content is empty; what is recorded is never more. */
  lemma {:induction false} AllRecorded(entries: seq<Entry>, pos: nat, boundary: seq<byte>)
    ensures |Expected(entries, pos, boundary)| <= |entries|
    ensures Expected(entries, pos, boundary) == MeantAll(entries, pos, boundary) <==> forall e :: e in entries ==> e.content != []
    decreases |entries|
  {
    if entries != [] {
      var e, rest, next := entries[0], entries[1..], Beyond(pos, entries[0], boundary);
      AllRecorded(rest, next, boundary);
      assert entries == [e] + rest;
      if e.content == [] {
        assert |Expected(entries, pos, boundary)| < |MeantAll(entries, pos, boundary)|;
        assert e in entries;
      } else {
        assert Expected(entries, pos, boundary)[1..] == Expected(rest, next, boundary);
        assert MeantAll(entries, pos, boundary)[1..] == MeantAll(rest, next, boundary);
      }
    }
  }

  /** What follows the first occurrence of a needle does not move it. */
  lemma FirstStable(a: seq<byte>, needle: seq<byte>, rest: seq<byte>)
    requires FirstAt(a + needle, needle, |a|)
    ensures IndexOf(a + (needle + rest), needle) == Some(|a|)
  {
    var s := a + (needle + rest);
    assert OccursAt(s, needle, |a|);
    forall j | j < |a|
      ensures !OccursAt(s, needle, j)
    {
      assert OccursAt(s, needle, j) ==> OccursAt(a + needle, needle, j) by {
        assert forall k :: 0 <= k < |a + needle| ==> s[k] == (a + needle)[k];
      }
    }
    FirstIsIndexOf(s, needle, |a|);
  }

  /** The separator behind `a`, when the body goes on with `a` at `from`. */
  lemma FoundAt(body: seq<byte>, from: nat, a: seq<byte>, needle: seq<byte>, rest: seq<byte>)
    requires from <= |body| && body[from..] == a + (needle + rest) && FirstAt(a + needle, needle, |a|)
    ensures Next(body, from, needle) == Some(from + |a|)
    ensures body[from..from + |a|] == a && body[from + |a| + |needle|..] == rest
  {
    FirstStable(a, needle, rest);
    NextIsIndexOf(body, from, needle);
  }

  /** The entry lies at `pos`, its content from `at` to `end`, and the searches that read it stop there. */
  ghost predicate LiesAt(body: seq<byte>, pos: nat, at: nat, end: nat, e: Entry, boundary: seq<byte>) {
    && pos + 6 <= at <= end - 2 && end + |boundary| <= |body|
    && Next(body, pos, CRLF) == Some(pos) && Next(body, pos + 2, BLANK_LINE) == Some(at - 4) && Next(body, at, boundary) == Some(end)
    && body[pos + 2..at - 4] == e.header && body[at..end - 2] == e.content
  }

  lemma EntryFound(body: seq<byte>, pos: nat, e: Entry, boundary: seq<byte>, tail: seq<byte>)
    requires pos <= |body| && WellWritten(e, boundary)
    requires body[pos..] == CRLF + (e.header + (BLANK_LINE + (e.content + CRLF + (boundary + tail))))
    ensures Beyond(pos, e, boundary) <= |body| && body[Beyond(pos, e, boundary)..] == tail
    ensures LiesAt(body, pos, ContentAt(pos, e), ContentAt(pos, e) + |e.content| + 2, e, boundary)
  {
    var c := e.content + CRLF;
    var h := c + (boundary + tail);
    var at := ContentAt(pos, e);
    LineFound(body, pos, e.header + (BLANK_LINE + h));
    FoundAt(body, pos + 2, e.header, BLANK_LINE, h);
    FoundAt(body, at, c, boundary, tail);
    assert body[at..at + |c|][..|e.content|] == body[at..at + |e.content|];
  }

  lemma LineFound(body: seq<byte>, pos: nat, rest: seq<byte>)
    requires pos <= |body| && body[pos..] == CRLF + rest
    ensures Next(body, pos, CRLF) == Some(pos) && body[pos + 2..] == rest
  {
    assert [] + CRLF == CRLF && [] + (CRLF + rest) == CRLF + rest;
    FoundAt(body, pos, [], CRLF, rest);
  }

  lemma {:induction false} EndOfForm(body: seq<byte>, pos: nat, boundary: seq<byte>, parse: Headers)
    requires pos <= |body| && body[pos..] == [45, 45] + CRLF
    ensures FormFrom(body, pos, boundary, parse) == []
  {
    assert |body| == pos + 4 && body[pos] == body[pos..][0] && body[pos + 1] == body[pos..][1];
    assert CRLF[0] == 13 && body[pos] == 45 && body[pos + 1] == 45;
    forall j | pos <= j < pos + 2
      ensures !OccursAt(body, CRLF, j)
    {
      assert body[j + 0] != CRLF[0];
    }
    assert Next(body, pos, CRLF).Some? ==> Next(body, pos, CRLF).value >= pos + 2;
  }

  lemma {:induction false} OnePart(body: seq<byte>, at: nat, i: nat, part: Part, boundary: seq<byte>)
    requires at <= |body| && Next(body, at, boundary) == Some(i)
    ensures PartRecords(body, at, [part], boundary).0 == RecordOf(part, body, at, i)
    ensures PartRecords(body, at, [part], boundary).1 == Some(i + |boundary|)
  {
    var parts := [part];
    assert parts[1..] == [];
    assert PartRecords(body, i + |boundary|, parts[1..], boundary) == ([], Some(i + |boundary|));
    RecordsAssoc(RecordOf(part, body, at, i), [], []);
  }

  /** A part with one content-disposition header gives its record, and reading goes on behind the boundary. */
  lemma FormOne(body: seq<byte>, pos: nat, i: nat, j: nat, k: nat, part: Part, boundary: seq<byte>, parse: Headers)
    requires pos <= |body| && Next(body, pos, CRLF) == Some(i) && Next(body, i + 2, BLANK_LINE) == Some(j)
    requires Next(body, j + 4, boundary) == Some(k) && PartsOf(parse, body[i + 2..j]) == [part]
    ensures FormFrom(body, pos, boundary, parse) == RecordOf(part, body, j + 4, k) + FormFrom(body, k + |boundary|, boundary, parse)
  {
    FormUnfold(body, pos, i, j, boundary, parse);
    OnePart(body, j + 4, k, part, boundary);
  }

  lemma RecordIsMeant(body: seq<byte>, at: nat, end: nat, e: Entry)
    requires at + 2 <= end <= |body| && body[at..end - 2] == e.content
    ensures RecordOf(e.part, body, at, end) == RecordFor(e, at)
  {
  }

  /** Reading one entry yields its record and goes on behind the boundary that closes it. */
  lemma {:induction false} EntryReadBack(body: seq<byte>, pos: nat, at: nat, end: nat, e: Entry, boundary: seq<byte>, parse: Headers)
    requires LiesAt(body, pos, at, end, e, boundary) && PartsOf(parse, e.header) == [e.part]
    ensures FormFrom(body, pos, boundary, parse) == RecordFor(e, at) + FormFrom(body, end + |boundary|, boundary, parse)
  {
    RecordIsMeant(body, at, end, e);
    FormOne(body, pos, pos, at - 4, end, e.part, boundary, parse);
  }

  lemma {:induction false} OneEntry(body: seq<byte>, pos: nat, e: Entry, boundary: seq<byte>, tail: seq<byte>, parse: Headers)
    requires pos <= |body| && WellWritten(e, boundary) && PartsOf(parse, e.header) == [e.part]
    requires body[pos..] == CRLF + (e.header + (BLANK_LINE + (e.content + CRLF + (boundary + tail))))
    ensures Beyond(pos, e, boundary) <= |body| && body[Beyond(pos, e, boundary)..] == tail
    ensures FormFrom(body, pos, boundary, parse)
            == RecordFor(e, ContentAt(pos, e)) + FormFrom(body, Beyond(pos, e, boundary), boundary, parse)
  {
    EntryFound(body, pos, e, boundary, tail);
    EntryReadBack(body, pos, ContentAt(pos, e), ContentAt(pos, e) + |e.content| + 2, e, boundary, parse);
  }

  lemma {:induction false} EntriesReadBack(body: seq<byte>, pos: nat, entries: seq<Entry>, boundary: seq<byte>, parse: Headers)
    requires pos <= |body| && body[pos..] == Written(entries, boundary)
    requires forall e :: e in entries ==> WellWritten(e, boundary) && PartsOf(parse, e.header) == [e.part]
    ensures FormFrom(body, pos, boundary, parse) == Expected(entries, pos, boundary)
    decreases |entries|
  {
    if entries == [] {
      EndOfForm(body, pos, boundary, parse);
    } else {
      OneEntry(body, pos, entries[0], boundary, Written(entries[1..], boundary), parse);
      EntriesReadBack(body, Beyond(pos, entries[0], boundary), entries[1..], boundary, parse);
    }
  }

  /** The body a client writes. */
  function Body(preamble: seq<byte>, entries: seq<Entry>, boundary: seq<byte>): (s: seq<byte>) {
    preamble + (boundary + Written(entries, boundary))
  }

  /** The separators are recognisable, and the header blocks ask for what the entries say. */
  ghost predicate Readable(preamble: seq<byte>, entries: seq<Entry>, boundary: seq<byte>, parse: Headers) {
    && FirstAt(preamble + boundary, boundary, |preamble|)
    && forall e :: e in entries ==> WellWritten(e, boundary) && PartsOf(parse, e.header) == [e.part]
  }

  lemma {:induction false} FormReads(preamble: seq<byte>, entries: seq<Entry>, boundary: seq<byte>, parse: Headers)
    requires Readable(preamble, entries, boundary, parse)
    ensures FormOf(Body(preamble, entries, boundary), boundary, parse) == Expected(entries, |preamble| + |boundary|, boundary)
  {
    var body := Body(preamble, entries, boundary);
    assert body[0..] == body;
    FoundAt(body, 0, preamble, boundary, Written(entries, boundary));
    EntriesReadBack(body, |preamble| + |boundary|, entries, boundary, parse);
  }

  /** Reading a form whose separators are recognisable gives the entries that are not empty, fields with their
      content and files as the slices that hold it; it inverts writing exactly if no content is empty. */
  lemma {:induction false} FormReadsBack(preamble: seq<byte>, entries: seq<Entry>, boundary: seq<byte>, parse: Headers)
    requires Readable(preamble, entries, boundary, parse)
    ensures var (records, pos) := (FormOf(Body(preamble, entries, boundary), boundary, parse), |preamble| + |boundary|);
            && records == Expected(entries, pos, boundary)
            && (records == MeantAll(entries, pos, boundary) <==> forall e :: e in entries ==> e.content != [])
  {
    FormReads(preamble, entries, boundary, parse);
    AllRecorded(entries, |preamble| + |boundary|, boundary);
  }

  // ---- Arguments ----

  /** `struct kore_route_params`, with its validator. */
  datatype Param = Param(name: seq<byte>, inQuery: bool, verb: nat, accepts: seq<byte> -> bool)

  datatype Argument = Argument(name: seq<byte>, value: seq<byte>)

  /** The C string that starts the octets. */
  function Cut(v: seq<byte>): (t: seq<byte>) {
    if v == [] || v[0] == 0 then [] else [v[0]] + Cut(v[1..])
  }

  /** The first parameter of the route that is meant decides. */
  function Admits(params: seq<Param>, verb: nat, name: seq<byte>, value: seq<byte>): (yes: bool) {
    if params == [] then false
    else if !params[0].inQuery && params[0].verb == verb && params[0].name == name then params[0].accepts(value)
    else Admits(params[1..], verb, name, value)
  }

  /** Parameter `k` of the route is the first for this name and verb that is not for the query string. */
  ghost predicate FirstFor(params: seq<Param>, verb: nat, name: seq<byte>, k: nat) {
    && k < |params| && params[k].name == name && params[k].verb == verb && !params[k].inQuery
    && forall j :: 0 <= j < k ==> !(params[j].name == name && params[j].verb == verb && !params[j].inQuery)
  }

  /** A value is admitted exactly if there is such a parameter and its validator accepts it. */
  lemma {:induction false} AdmitsExact(params: seq<Param>, verb: nat, name: seq<byte>, value: seq<byte>)
    ensures Admits(params, verb, name, value) <==> exists k: nat :: FirstFor(params, verb, name, k) && params[k].accepts(value)
    decreases |params|
  {
    if params != [] {
      if !params[0].inQuery && params[0].verb == verb && params[0].name == name {
        assert FirstFor(params, verb, name, 0);
        assert forall k :: FirstFor(params, verb, name, k) ==> k == 0;
      } else {
        var rest := params[1..];
        AdmitsExact(rest, verb, name, value);
        forall k: nat
          ensures FirstFor(rest, verb, name, k) <==> FirstFor(params, verb, name, k + 1)
        {
          FirstForNext(params, verb, name, k);
        }
        if k: nat :| FirstFor(rest, verb, name, k) && rest[k].accepts(value) {
          assert FirstFor(params, verb, name, k + 1) && params[k + 1].accepts(value);
        }
        if k: nat :| FirstFor(params, verb, name, k) && params[k].accepts(value) {
          assert k > 0 && FirstFor(rest, verb, name, k - 1) && rest[k - 1] == params[k];
        }
      }
    }
  }

  lemma FirstForNext(params: seq<Param>, verb: nat, name: seq<byte>, k: nat)
    requires params != [] && (params[0].inQuery || params[0].verb != verb || params[0].name != name)
    ensures FirstFor(params[1..], verb, name, k) <==> FirstFor(params, verb, name, k + 1)
  {
    if FirstFor(params[1..], verb, name, k) {
      assert forall j :: 0 < j < k + 1 ==> params[j] == params[1..][j - 1];
    }
    if FirstFor(params, verb, name, k + 1) {
      assert forall j :: 0 <= j < k ==> params[1..][j] == params[j + 1];
    }
  }

  function Taken(params: seq<Param>, verb: nat, name: seq<byte>, value: seq<byte>): (r: seq<Argument>) {
    if Admits(params, verb, name, Cut(value)) then [Argument(name, Cut(value))] else []
  }

  /** `http_argument_add` for a field of a form, which is not decoded. */
  method ArgumentAdd(params: seq<Param>, verb: nat, arguments: seq<Argument>, name: seq<byte>, value: seq<byte>) returns (arguments': seq<Argument>)
    ensures arguments' == arguments + Taken(params, verb, name, value)
  {
    var v := Cut(value);
    for i := 0 to |params|
      invariant Admits(params, verb, name, v) == Admits(params[i..], verb, name, v)
    {
      var p := params[i];
      assert params[i..][1..] == params[i + 1..];
      if !p.inQuery && p.verb == verb && p.name == name {
        return if p.accepts(v) then arguments + [Argument(name, v)] else arguments + [];
      }
    }
    assert params[|params|..] == [];
    return arguments + [];
  }

  /** The arguments that the fields among the records become. */
  function Arguments(records: seq<Record>, params: seq<Param>, verb: nat): (r: seq<Argument>) {
    if records == [] then []
    else (if records[0].Field? then Taken(params, verb, records[0].name, records[0].value) else []) + Arguments(records[1..], params, verb)
  }

  lemma {:induction false} ArgumentsAppend(a: seq<Record>, b: seq<Record>, params: seq<Param>, verb: nat)
    ensures Arguments(a + b, params, verb) == Arguments(a, params, verb) + Arguments(b, params, verb)
    decreases |a|
  {
    if a == [] {
      assert a + b == b;
    } else {
      assert (a + b)[1..] == a[1..] + b;
      ArgumentsAppend(a[1..], b, params, verb);
    }
  }

  /** The arguments a client should find: the fields that are not empty and that the route takes. */
  function Wanted(entries: seq<Entry>, params: seq<Param>, verb: nat): (r: seq<Argument>) {
    if entries == [] then []
    else
      var e := entries[0];
      (if e.part.FieldPart? && e.content != [] then Taken(params, verb, e.part.name, e.content) else []) + Wanted(entries[1..], params, verb)
  }

  lemma {:induction false} ExpectedArguments(entries: seq<Entry>, pos: nat, boundary: seq<byte>, params: seq<Param>, verb: nat)
    ensures Arguments(Expected(entries, pos, boundary), params, verb) == Wanted(entries, params, verb)
    decreases |entries|
  {
    if entries != [] {
      var e := entries[0];
      var r := RecordFor(e, ContentAt(pos, e));
      ExpectedArguments(entries[1..], Beyond(pos, e, boundary), boundary, params, verb);
      ArgumentsAppend(r, Expected(entries[1..], Beyond(pos, e, boundary), boundary), params, verb);
      if e.content != [] {
        assert r[1..] == [];
      }
    }
  }

  /** A value is kept up to its first zero octet, and whole exactly if it has none. */
  lemma {:induction false} CutWhole(v: seq<byte>)
    ensures Cut(v) <= v && 0 !in Cut(v) && (Cut(v) == v <==> 0 !in v)
    ensures |Cut(v)| < |v| ==> v[|Cut(v)|] == 0
  {
    if v != [] {
      CutWhole(v[1..]);
    }
  }

  /** The arguments of a form, from the client's entries to the route's parameters. */
  lemma {:induction false} FormArguments(preamble: seq<byte>, entries: seq<Entry>, boundary: seq<byte>, parse: Headers, params: seq<Param>, verb: nat)
    requires Readable(preamble, entries, boundary, parse)
    ensures Arguments(FormOf(Body(preamble, entries, boundary), boundary, parse), params, verb) == Wanted(entries, params, verb)
  {
    FormReads(preamble, entries, boundary, parse);
    ExpectedArguments(entries, |preamble| + |boundary|, boundary, params, verb);
  }

  /** Entry `i` becomes an argument: a field that is not empty and whose value the route accepts. */
  ghost predicate Becomes(e: Entry, params: seq<Param>, verb: nat, a: Argument) {
    && e.part.FieldPart? && e.content != [] && a.name == e.part.name && a.value == Cut(e.content)
    && exists k: nat :: FirstFor(params, verb, a.name, k) && params[k].accepts(a.value)
  }

  /** The first entry becomes the first argument or none, and the rest the rest. */
  lemma WantedHead(entries: seq<Entry>, params: seq<Param>, verb: nat)
    requires entries != []
    ensures var e := entries[0];
            var a := Argument(e.part.name, Cut(e.content));
            Wanted(entries, params, verb) == (if Becomes(e, params, verb, a) then [a] else []) + Wanted(entries[1..], params, verb)
  {
    var e := entries[0];
    AdmitsExact(params, verb, e.part.name, Cut(e.content));
  }

  /** The arguments are those of the entries, of every one of them. */
  lemma {:induction false} WantedExact(entries: seq<Entry>, params: seq<Param>, verb: nat, a: Argument)
    ensures a in Wanted(entries, params, verb) <==> exists e :: e in entries && Becomes(e, params, verb, a)
    decreases |entries|
  {
    if entries != [] {
      WantedExact(entries[1..], params, verb, a);
      WantedHead(entries, params, verb);
      assert forall x :: x in entries <==> x == entries[0] || x in entries[1..];
    }
  }

  // ---- An empty field ----

  lemma LoneEmpty(e: Entry, boundary: seq<byte>, parse: Headers)
    requires Readable([], [e], boundary, parse) && e.content == []
    ensures FormOf(Body([], [e], boundary), boundary, parse) == []
  {
    FormReads([], [e], boundary, parse);
    assert [e][1..] == [] && RecordFor(e, ContentAt(|boundary|, e)) == [];
  }

  lemma PlainWritten(e: Entry, boundary: seq<byte>)
    requires 13 !in e.header && e.content == [] && boundary != [] && boundary[0] !in {13, 10}
    ensures WellWritten(e, boundary)
  {
    ShortFirst(e.header, BLANK_LINE);
    ShortFirst(CRLF, boundary);
    assert [] + CRLF + boundary == CRLF + boundary;
  }

  lemma PlainReadable(e: Entry, boundary: seq<byte>, parse: Headers)
    requires 13 !in e.header && e.content == [] && boundary != [] && boundary[0] !in {13, 10} && PartsOf(parse, e.header) == [e.part]
    ensures Readable([], [e], boundary, parse)
  {
    PlainWritten(e, boundary);
    ShortFirst([], boundary);
  }

  const LOST: Entry := Entry([104], [], FieldPart([97]))
  const LOST_BOUNDARY: seq<byte> := [45, 45, 98]
  const LOST_PARSE: Headers := map[[104] := [FieldPart([97])]]

  lemma LostBody()
    ensures Body([], [LOST], LOST_BOUNDARY) ==
            [45, 45, 98, 13, 10, 104, 13, 10, 13, 10, 13, 10, 45, 45, 98, 45, 45, 13, 10]
  {
    assert [LOST][1..] == [];
    assert Written([], LOST_BOUNDARY) == [45, 45, 13, 10];
  }

  /** A form of one empty field with boundary `--b`: it is written as it should be, and leaves no record. */
  lemma EmptyFieldLost()
    ensures Body([], [LOST], LOST_BOUNDARY) ==
            [45, 45, 98, 13, 10, 104, 13, 10, 13, 10, 13, 10, 45, 45, 98, 45, 45, 13, 10]
    ensures Readable([], [LOST], LOST_BOUNDARY, LOST_PARSE)
    ensures FormOf(Body([], [LOST], LOST_BOUNDARY), LOST_BOUNDARY, LOST_PARSE) == []
  {
    LostBody();
    PlainReadable(LOST, LOST_BOUNDARY, LOST_PARSE);
    LoneEmpty(LOST, LOST_BOUNDARY, LOST_PARSE);
  }

  /** A needle behind text that does not have its first octet. */
  lemma ShortFirst(a: seq<byte>, needle: seq<byte>)
    requires needle != [] && needle[0] !in a
    ensures FirstAt(a + needle, needle, |a|)
  {
    forall j | j < |a|
      ensures !OccursAt(a + needle, needle, j)
    {
      assert 0 <= j ==> (a + needle)[j + 0] != needle[0];
    }
  }

  // ---- Reading a file ----

  /** An open upload: `http_file` over an in-memory body. */
  class OpenFile {
    const body: seq<byte>
    const position: nat
    const length: nat
    var offset: nat

    ghost predicate Valid()
      reads this
    {
      offset <= length && position + length <= |body|
    }

    constructor (body: seq<byte>, position: nat, length: nat)
      requires position + length <= |body|
      ensures Valid() && offset == 0
      ensures this.body == body && this.position == position && this.length == length
    {
      this.body, this.position, this.length := body, position, length;
      offset := 0;
    }

    /** `http_file_read` */
    method Read(len: nat) returns (d: seq<byte>)
      requires Valid()
      modifies this
      ensures Valid() && offset == old(offset) + |d|
      ensures |d| == if len < length - old(offset) then len else length - old(offset)
      ensures d == body[position + old(offset)..position + offset]
    {
      var off := position + offset;
      var toread := if len < length - offset then len else length - offset;
      if toread == 0 {
        return [];
      }
      d := body[off..off + toread];
      offset := offset + toread;
    }

    /** Successive reads of any sizes hand out the slice in order, without gaps or repeats; they hand out
        all of it as soon as they ask for that much. */
    method ReadAll(sizes: seq<nat>) returns (d: seq<byte>)
      requires Valid() && offset == 0
      modifies this
      ensures Valid() && d == body[position..position + offset]
      ensures offset == if Sum(sizes) < length then Sum(sizes) else length
    {
      d := [];
      for i := 0 to |sizes|
        invariant Valid() && d == body[position..position + offset]
        invariant offset == if Sum(sizes[..i]) < length then Sum(sizes[..i]) else length
      {
        SumStep(sizes, i);
        var piece := Read(sizes[i]);
        d := d + piece;
      }
      assert sizes[..|sizes|] == sizes;
    }
  }

  ghost function Sum(s: seq<nat>): nat {
    if s == [] then 0 else Sum(s[..|s| - 1]) + s[|s| - 1]
  }

  lemma SumStep(s: seq<nat>, i: nat)
    requires i < |s|
    ensures Sum(s[..i + 1]) == Sum(s[..i]) + s[i]
  {
    assert s[..i + 1][..i] == s[..i];
  }
}
