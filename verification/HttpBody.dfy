/** The body half of `http.c`: a body of Content-Length octets (section 6.2 of RFC 9112) that arrives partly
    with the headers and then in reads of any sizes. */
module HttpBody {
  import opened Bytes
  import opened Lists
  import opened Blocks
  import opened HashContext
  import opened Net

  const TWO64: nat := 0x1_0000_0000_0000_0000

  /** Unsigned 64-bit subtraction. */
  function Minus64(a: nat, b: nat): (d: nat)
    requires a < TWO64 && b < TWO64
    ensures d < TWO64
    ensures b <= a ==> d == a - b
    ensures b > a ==> d == TWO64 + a - b
  {
    if b <= a then a - b else TWO64 + a - b
  }

  /** The fields of a request and of its connection's receive buffer that body framing works on. */
  datatype Progress<H> = Progress(
    contentLength: nat,      // `content_length`: counts down, then restored
    bodyLength: nat,         // `http_body_length`
    data: seq<byte>,         // `http_body->data`
    dataOffset: nat,         // `http_body->offset`
    bodyOffset: nat,         // `http_body_offset`
    complete: bool,          // HTTP_REQUEST_COMPLETE
    hash: Ctx<H>,            // `hashctx`
    digest: Option<H>,       // `http_body_digest`
    want: nat)               // what the receive buffer still has room for; 0 when nothing more is read

  /** A compression function and its initial value, the announced length, the largest read. */
  datatype Setting<!H> = Setting(compress: (H, seq<byte>) -> H, init: H, total: nat, payloadMax: nat)

  /** The body is still arriving: what is there is what came in, and as much is wanted as is missing. */
  ghost predicate Arriving<H>(t: Setting<H>, p: Progress<H>, whole: seq<byte>, tail: seq<byte>) {
    && |p.data| < t.total && p.contentLength == t.total - |p.data| && p.bodyLength == t.total
    && p.dataOffset == |p.data| && p.bodyOffset == 0 && !p.complete && p.digest.None?
    && Tracks(t.compress, SHAPE64, t.init, p.hash, whole, tail) && whole + tail == p.data
  }

  /** The body is there: exactly the announced octets, rewound for its reader, with their digest, and
      nothing more is read. */
  ghost predicate Done<H>(t: Setting<H>, p: Progress<H>) {
    && |p.data| == t.total && p.contentLength == t.total && p.bodyLength == t.total
    && p.dataOffset == 0 && p.bodyOffset == 0 && p.complete && p.want == 0
    && p.digest == Some(Hash(t.compress, SHAPE64, t.init, p.data))
  }

  ghost predicate Sound<H>(t: Setting<H>, p: Progress<H>, whole: seq<byte>, tail: seq<byte>) {
    || (Arriving(t, p, whole, tail) && p.want == Target(t, p.contentLength))
    || Done(t, p)
  }

  /** `MIN(bytes_left, NETBUF_SEND_PAYLOAD_MAX)` */
  function Target<H>(t: Setting<H>, left: nat): (n: nat) {
    if left < t.payloadMax then left else t.payloadMax
  }

  /** `http_body_update` */
  method Update<H>(t: Setting<H>, p: Progress<H>, ghost whole: seq<byte>, ghost tail: seq<byte>, d: seq<byte>)
    returns (p': Progress<H>, ghost whole': seq<byte>, ghost tail': seq<byte>)
    requires t.total < TWO64 && |d| < TWO64 && Arriving(t, p, whole, tail)
    ensures p'.data == p.data + d
    ensures |d| <= p.contentLength ==> Sound(t, p', whole', tail')
    ensures |d| > p.contentLength ==> !p'.complete && p'.contentLength == TWO64 + p.contentLength - |d|
  {
    var hash;
    hash, whole', tail' := Updated(t.compress, SHAPE64, t.init, p.hash, whole, tail, d);
    var left := Minus64(p.contentLength, |d|);
    if left == 0 {
      var digest := Padding(t.compress, SHAPE64, t.init, hash, whole', tail');
      p' := Progress(p.bodyLength, p.bodyLength, p.data + d, 0, 0, true, hash, Some(digest), 0);
    } else {
      p' := Progress(left, p.bodyLength, p.data + d, p.dataOffset + |d|, p.bodyOffset, false, hash, None, Target(t, left));
    }
  }

  /** The end of `http_header_recv`: the length is known, and `extra` was read along with the headers. The
      body is framed right exactly when that is not more than the announced length: if it is more, the
      countdown wraps around, the body holds octets that are not its own, and it is not complete. */
  method Begin<H>(t: Setting<H>, extra: seq<byte>) returns (p: Progress<H>, ghost whole: seq<byte>, ghost tail: seq<byte>)
    requires 0 < t.total < TWO64 && |extra| < TWO64
    ensures p.data == extra
    ensures Sound(t, p, whole, tail) <==> |extra| <= t.total
    ensures |extra| > t.total ==> !p.complete && p.contentLength == TWO64 + t.total - |extra|
  {
    Shapes();
    p := Progress(t.total, t.total, [], 0, 0, false, Ctx(t.init, ZeroOctets(64), Counter(0, 0)), None, 0);
    assert [] + extra == extra;
    p, whole, tail := Update(t, p, [], [], extra);
  }

  /** The connection of a request whose body arrives. */
  class Connection<H> {
    const t: Setting<H>
    var p: Progress<H>
    ghost var whole: seq<byte>
    ghost var tail: seq<byte>

    ghost predicate Valid()
      reads this
    {
      0 < t.total < TWO64 && 0 < t.payloadMax < TWO64 && Sound(t, p, whole, tail)
    }

    constructor (t: Setting<H>, extra: seq<byte>)
      requires 0 < t.total < TWO64 && 0 < t.payloadMax < TWO64 && |extra| <= t.total
      ensures Valid() && this.t == t && p.data == extra
    {
      this.t := t;
      var q; ghost var w, l;
      q, w, l := Begin(t, extra);
      p, whole, tail := q, w, l;
    }

    /** One read and the callback behind it. */
    method Arrive(d: seq<byte>)
      requires Valid() && p.want > 0 && |d| <= p.want
      modifies this
      ensures Valid() && p.data == old(p.data) + d
    {
      var q; ghost var w, l;
      q, w, l := Update(t, p, whole, tail, d);
      p, whole, tail := q, w, l;
    }

    /** `net_recv_flush` for a connection whose callback runs after every read (`http_body_recv`). Whatever
        the reads, the body is what was announced: it never takes an octet that follows it, and it is
        complete exactly when its last octet has been taken. */
    method RecvFlush(script: seq<ReadAnswer>, incoming: seq<byte>) returns (taken: nat, ok: bool)
      requires Valid()
      modifies this
      ensures Valid() && taken <= |incoming| && p.data == old(p.data) + incoming[..taken]
      ensures p.complete <==> |old(p.data)| + taken == t.total
      ensures Eager(script, |incoming|) ==> ok && (taken == |incoming| || p.complete)
    {
      taken, ok := 0, true;
      assert p.data + incoming[..0] == p.data;
      for i := 0 to |script|
        invariant Valid() && taken <= |incoming| && p.data == old(p.data) + incoming[..taken]
        invariant Eager(script, |incoming|) ==> taken == |incoming| || taken >= i
      {
        if p.want == 0 {
          return;
        }
        var r := 0;
        match script[i] {
          case ReadError => return taken, false;
          case ReadEof => return;
          case ReadWouldBlock => return;
          case ReadInterrupted =>
          case Got(n) =>
            var room := if p.want < |incoming| - taken then p.want else |incoming| - taken;
            r := if n < room then n else room;
        }
        var d := incoming[taken..taken + r];
        Assoc(old(p.data), incoming[..taken], d);
        assert incoming[..taken] + d == incoming[..taken + r];
        Arrive(d);
        taken := taken + r;
      }
    }
  }
}
