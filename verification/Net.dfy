/** `net.c`: the send queue of a connection, and its receive buffer with a re-armable target length.
    The kernel is a script of answers; every script is allowed. */
module Net {
  import opened Bytes
  import opened Lists

  // ---- Sending ----

  /** A queued buffer: `buf` is what it holds (`b_len` octets), `mLen` what it has room for. */
  datatype SendBuf = SendBuf(buf: seq<byte>, sOff: nat, mLen: nat, stream: bool) {
    ghost predicate Valid() {
      sOff <= |buf| <= mLen
    }

    function Rest(): (s: seq<byte>) {
      if sOff <= |buf| then buf[sOff..] else []
    }
  }

  /** What is still to be written. */
  function Pending(queue: seq<SendBuf>): (s: seq<byte>) {
    if queue == [] then [] else queue[0].Rest() + Pending(queue[1..])
  }

  lemma {:induction false} PendingAppend(q: seq<SendBuf>, b: SendBuf)
    ensures Pending(q + [b]) == Pending(q) + b.Rest()
  {
    if q == [] {
      assert q + [b] == [b];
    } else {
      assert (q + [b])[1..] == q[1..] + [b];
      PendingAppend(q[1..], b);
    }
  }

  lemma {:induction false} PendingFuller(q: seq<SendBuf>, b: SendBuf, d: seq<byte>)
    requires b.sOff <= |b.buf|
    ensures Pending(q + [b.(buf := b.buf + d)]) == Pending(q + [b]) + d
  {
    var fuller := b.(buf := b.buf + d);
    PendingAppend(q, b);
    PendingAppend(q, fuller);
    assert fuller.Rest() == b.Rest() + d;
    Assoc(Pending(q), b.Rest(), d);
  }

  lemma {:induction false} PendingCons(b: SendBuf, q: seq<SendBuf>)
    ensures Pending([b] + q) == b.Rest() + Pending(q)
  {
    assert ([b] + q)[1..] == q;
  }

  lemma RestSplit(first: SendBuf, r: nat)
    requires first.sOff + r <= |first.buf|
    ensures first.Rest() == first.buf[first.sOff..first.sOff + r] + first.(sOff := first.sOff + r).Rest()
  {
  }

  /** A write of `r` octets of the first buffer takes just those off the front. */
  lemma {:induction false} PendingWritten(first: SendBuf, others: seq<SendBuf>, r: nat)
    requires first.sOff + r <= |first.buf|
    ensures var first' := first.(sOff := first.sOff + r);
            var q' := if first'.sOff == |first.buf| then others else [first'] + others;
            Pending([first] + others) == first.buf[first.sOff..first.sOff + r] + Pending(q')
  {
    var first' := first.(sOff := first.sOff + r);
    var piece := first.buf[first.sOff..first.sOff + r];
    RestSplit(first, r);
    PendingCons(first, others);
    Assoc(piece, first'.Rest(), Pending(others));
    if first'.sOff == |first.buf| {
      assert first'.Rest() == [] && [] + Pending(others) == Pending(others);
    } else {
      PendingCons(first', others);
    }
  }

  datatype WriteAnswer = Sent(n: nat) | WriteInterrupted | WriteWouldBlock | WriteError

  /** How much of the first buffer a write takes. */
  function Accepted(answer: WriteAnswer, first: SendBuf, payloadMax: nat): (r: nat) {
    if first.buf == [] || !answer.Sent? || first.sOff > |first.buf| then 0
    else
      var left := |first.buf| - first.sOff;
      var len := if payloadMax < left then payloadMax else left;
      if answer.n < len then answer.n else len
  }

  /** A kernel that takes something every time, at least `n` times. */
  ghost predicate Generous(script: seq<WriteAnswer>, n: nat) {
    |script| >= n && forall i :: 0 <= i < |script| ==> script[i].Sent? && script[i].n > 0
  }

  class Sender {
    const payloadMax: nat          // NETBUF_SEND_PAYLOAD_MAX
    var queue: seq<SendBuf>        // `send_queue`
    var canWrite: bool             // KORE_EVENT_WRITE
    ghost var enqueued: seq<byte>  // everything ever queued
    var wire: seq<byte>            // everything the kernel accepted
    var closeEmpty: bool           // CONN_CLOSE_EMPTY
    var closed: bool               // disconnected

    /** Nothing is lost, repeated or reordered: what went out, then what waits, is what was queued. */
    ghost predicate Valid()
      reads this
    {
      && payloadMax > 0
      && (forall b :: b in queue ==> b.Valid())
      && wire + Pending(queue) == enqueued
    }

    constructor (payloadMax: nat)
      requires payloadMax > 0
      ensures Valid() && enqueued == [] && wire == [] && queue == [] && canWrite && !closeEmpty && !closed
      ensures this.payloadMax == payloadMax
    {
      this.payloadMax := payloadMax;
      queue, canWrite, enqueued, wire := [], true, [], [];
      closeEmpty, closed := false, false;
    }

    /** Append a buffer to the queue. */
    method Insert(b: SendBuf)
      requires Valid() && b.Valid() && b.sOff == 0
      modifies this`queue, this`enqueued
      ensures Valid() && enqueued == old(enqueued) + b.buf
    {
      PendingAppend(queue, b);
      Assoc(wire, Pending(queue), b.buf);
      queue := queue + [b];
      enqueued := enqueued + b.buf;
    }

    /** Fill up the last buffer of the queue. */
    method TopUp(d: seq<byte>)
      requires Valid() && queue != []
      requires var last := queue[|queue| - 1]; |last.buf| + |d| <= last.mLen
      modifies this`queue, this`enqueued
      ensures Valid() && enqueued == old(enqueued) + d
    {
      var n := |queue| - 1;
      var last := queue[n];
      assert queue == queue[..n] + [last] && last in queue;
      PendingFuller(queue[..n], last, d);
      Assoc(wire, Pending(queue), d);
      queue := queue[..n] + [last.(buf := last.buf + d)];
      enqueued := enqueued + d;
    }

    /** `net_send_queue` */
    method SendQueue(d: seq<byte>)
      requires Valid()
      modifies this`queue, this`enqueued
      ensures Valid() && enqueued == old(enqueued) + d
    {
      var rest := d;
      if queue != [] {
        var last := queue[|queue| - 1];
        if !last.stream && |last.buf| < last.mLen {
          var avail := last.mLen - |last.buf|;
          if |d| < avail {
            TopUp(d);
            return;
          }
          TopUp(d[..avail]);
          rest := d[avail..];
          assert d == d[..avail] + rest;
          if rest == [] {
            return;
          }
        }
      }
      Insert(SendBuf(rest, 0, if |rest| < payloadMax then payloadMax else |rest|, false));
    }

    /** `net_send_stream` */
    method SendStream(d: seq<byte>)
      requires Valid()
      modifies this`queue, this`enqueued
      ensures Valid() && enqueued == old(enqueued) + d
    {
      Insert(SendBuf(d, 0, |d|, true));
    }

    /** `r` octets of the first buffer are gone; `net_remove_netbuf` once it is empty. */
    method Consume(r: nat)
      requires Valid() && queue != [] && queue[0].sOff + r <= |queue[0].buf|
      modifies this`queue, this`wire
      ensures Valid() && wire == old(wire) + old(queue)[0].buf[old(queue)[0].sOff..old(queue)[0].sOff + r]
      ensures |queue| == |old(queue)| - if old(queue)[0].sOff + r == |old(queue)[0].buf| then 1 else 0
    {
      var first, others := queue[0], queue[1..];
      assert first in queue && queue == [first] + others;
      PendingWritten(first, others, r);
      var piece := first.buf[first.sOff..first.sOff + r];
      first := first.(sOff := first.sOff + r);
      queue := if first.sOff == |first.buf| then others else [first] + others;
      Assoc(wire, piece, Pending(queue));
      wire := wire + piece;
    }

    /** `net_send` with `net_write`: one write of the first buffer, and its removal once it is empty. */
    method Send(answer: WriteAnswer) returns (ok: bool)
      requires Valid() && queue != []
      modifies this`queue, this`canWrite, this`wire
      ensures Valid() && old(wire) <= wire && |queue| <= |old(queue)|
      ensures |wire| == |old(wire)| + Accepted(answer, old(queue)[0], payloadMax)
      ensures ok <==> !(answer.WriteError? && old(queue)[0].buf != [])
      ensures canWrite == (old(canWrite) && !(answer.WriteWouldBlock? && old(queue)[0].buf != []))
      ensures old(queue)[0].buf == [] || (answer.Sent? && old(queue)[0].Rest() == []) ==> |queue| < |old(queue)|
    {
      var first := queue[0];
      assert first in queue;
      var r := 0;
      if first.buf != [] {
        var smin := |first.buf| - first.sOff;
        var len := if payloadMax < smin then payloadMax else smin;
        match answer {
          case WriteError => return false;
          case WriteWouldBlock =>
            canWrite := false;
            return true;
          case WriteInterrupted =>
          case Sent(n) => r := if n < len then n else len;
        }
      }
      Consume(r);
      ok := true;
    }

    /** `net_send_flush`. When the script runs out the socket would block. A connection that is to close when
        empty is closed exactly then, and not before everything queued went out. */
    method SendFlush(script: seq<WriteAnswer>) returns (ok: bool)
      requires Valid()
      modifies this`queue, this`canWrite, this`wire, this`closed
      ensures Valid() && old(wire) <= wire
      ensures closed <==> old(closed) || (ok && closeEmpty && queue == [])
      ensures closed && !old(closed) ==> wire == enqueued
      ensures ok && canWrite ==> queue == [] && wire == enqueued
      ensures old(canWrite) && Generous(script, |old(Pending(queue))| + |old(queue)|) ==> ok && canWrite
    {
      var left := script;
      while queue != [] && canWrite
        invariant Valid() && old(wire) <= wire && closed == old(closed)
        invariant old(canWrite) && Generous(script, |old(Pending(queue))| + |old(queue)|) ==>
                    canWrite && Generous(left, |Pending(queue)| + |queue|)
        decreases |left|, canWrite, |queue|
      {
        ghost var first, before, n := queue[0], wire, |queue|;
        assert first in queue && Pending(queue) == first.Rest() + Pending(queue[1..]);
        var answer := if left == [] then WriteWouldBlock else left[0];
        if queue[0].buf != [] {
          left := if left == [] then [] else left[1..];
        }
        ok := Send(answer);
        if !ok {
          return;
        }
        assert |wire| + |Pending(queue)| == |enqueued|;
      }
      if closeEmpty && queue == [] {
        closed := true;
      }
      return true;
    }
  }

  // ---- Receiving ----

  /** What a receive callback does with a full buffer: ask for more behind it (`net_recv_expand`), start
      over (`net_recv_reset`), stop reading, or report an error that closes the connection. */
  datatype Reaction<S, E> =
    | Expand(len: nat, st: S, events: seq<E>)
    | Reset(len: nat, st: S, events: seq<E>)
    | Halt(events: seq<E>)
    | Fail(events: seq<E>)

  datatype Status = Reading | Halted | Failed

  /** The receive side as a value: what is buffered, how much is wanted, which callback is armed (`st`),
      what the callbacks have done so far, and whether reading goes on. */
  datatype Rx<S, E> = Rx(buf: seq<byte>, need: nat, st: S, events: seq<E>, status: Status)

  function Apply<S, E>(r: Reaction<S, E>, rx: Rx<S, E>): (rx': Rx<S, E>) {
    match r
    case Expand(len, st, events) => Rx(rx.buf, rx.need + len, st, rx.events + events, Reading)
    case Reset(len, st, events) => Rx([], len, st, rx.events + events, Reading)
    case Halt(events) => rx.(events := rx.events + events, status := Halted)
    case Fail(events) => rx.(events := rx.events + events, status := Failed)
  }

  /** One octet at a time: the reading every chunking is compared with. */
  function Take<S, E>(cb: (S, seq<byte>) -> Reaction<S, E>, rx: Rx<S, E>, b: byte): (rx': Rx<S, E>) {
    if !rx.status.Reading? || rx.need <= |rx.buf| then rx
    else
      var more := rx.(buf := rx.buf + [b]);
      if |more.buf| < rx.need then more else Apply(cb(rx.st, more.buf), more)
  }

  function Feed<S, E>(cb: (S, seq<byte>) -> Reaction<S, E>, rx: Rx<S, E>, d: seq<byte>): (rx': Rx<S, E>)
    decreases |d|
  {
    if d == [] then rx else Feed(cb, Take(cb, rx, d[0]), d[1..])
  }

  lemma {:induction false} FeedAppend<S, E>(cb: (S, seq<byte>) -> Reaction<S, E>, rx: Rx<S, E>, a: seq<byte>, b: seq<byte>)
    ensures Feed(cb, rx, a + b) == Feed(cb, Feed(cb, rx, a), b)
    decreases |a|
  {
    if a == [] {
      assert a + b == b;
    } else {
      assert (a + b)[1..] == a[1..] + b;
      FeedAppend(cb, Take(cb, rx, a[0]), a[1..], b);
    }
  }

  /** What callbacks have done is never taken back. */
  lemma {:induction false} EventsGrow<S, E>(cb: (S, seq<byte>) -> Reaction<S, E>, rx: Rx<S, E>, d: seq<byte>)
    ensures rx.events <= Feed(cb, rx, d).events
    decreases |d|
  {
    if d != [] {
      EventsGrow(cb, Take(cb, rx, d[0]), d[1..]);
    }
  }

  /** A kernel that has something to read every time, at least `n` times. */
  ghost predicate Eager(script: seq<ReadAnswer>, n: nat) {
    |script| >= n && forall i :: 0 <= i < |script| ==> script[i].Got? && script[i].n > 0
  }

  /** A read that does not fill the buffer only buffers; one that fills it runs the callback once. */
  lemma {:induction false} FeedChunk<S, E>(cb: (S, seq<byte>) -> Reaction<S, E>, rx: Rx<S, E>, d: seq<byte>)
    requires rx.status.Reading? && |rx.buf| + |d| <= rx.need
    ensures |rx.buf| + |d| < rx.need || d == [] ==> Feed(cb, rx, d) == rx.(buf := rx.buf + d)
    ensures |rx.buf| + |d| == rx.need && d != [] ==>
      Feed(cb, rx, d) == Apply(cb(rx.st, rx.buf + d), rx.(buf := rx.buf + d))
    decreases |d|
  {
    if d == [] {
      assert rx.buf + d == rx.buf;
    } else {
      var next := Take(cb, rx, d[0]);
      assert rx.buf + d == rx.buf + [d[0]] + d[1..];
      if |d| == 1 {
        assert d == [d[0]];
      } else {
        FeedChunk(cb, next, d[1..]);
      }
    }
  }

  /** Nothing more is taken once reading stopped, or the buffer is full and nothing more is asked for. */
  lemma {:induction false} FeedClosed<S, E>(cb: (S, seq<byte>) -> Reaction<S, E>, rx: Rx<S, E>, d: seq<byte>)
    requires !rx.status.Reading? || rx.need <= |rx.buf|
    ensures Feed(cb, rx, d) == rx
    decreases |d|
  {
    if d != [] {
      FeedClosed(cb, rx, d[1..]);
    }
  }

  datatype ReadAnswer = Got(n: nat) | ReadInterrupted | ReadWouldBlock | ReadEof | ReadError

  class Receiver<S, E> {
    const payloadMax: nat
    const cb: (S, seq<byte>) -> Reaction<S, E>
    var buf: seq<byte>   // the allocated storage, `m_len` octets
    var sOff: nat        // how many have arrived
    var bLen: nat        // how many are wanted
    var st: S
    var events: seq<E>
    var status: Status   // whether a callback stopped reading, or failed

    ghost predicate Valid()
      reads this
    {
      sOff <= bLen <= |buf|
    }

    ghost function Abs(): Rx<S, E>
      requires Valid()
      reads this
    {
      Rx(buf[..sOff], bLen, st, events, status)
    }

    /** `net_recv_queue` */
    constructor (payloadMax: nat, cb: (S, seq<byte>) -> Reaction<S, E>, len: nat, st: S)
      ensures Valid() && Abs() == Rx([], len, st, [], Reading) && this.cb == cb
    {
      this.payloadMax, this.cb := payloadMax, cb;
      buf, sOff, bLen := seq(len, _ => 0), 0, len;
      this.st, events, status := st, [], Reading;
    }

    /** `net_recv_reset`: small storage that is large enough is kept. */
    method RecvReset(len: nat)
      requires Valid()
      modifies this`buf, this`sOff, this`bLen
      ensures Valid() && sOff == 0 && bLen == len
    {
      sOff := 0;
      bLen := len;
      if bLen <= |buf| && |buf| < payloadMax / 2 {
        return;
      }
      buf := seq(len, _ => 0);
    }

    /** `net_recv_expand` */
    method RecvExpand(len: nat)
      requires Valid()
      modifies this`buf, this`bLen
      ensures Valid() && buf[..sOff] == old(buf[..sOff]) && bLen == old(bLen) + len
    {
      bLen := bLen + len;
      buf := (buf + seq(len, _ => 0))[..bLen];
    }

    /** The armed callback runs on a full buffer. */
    method RunCallback()
      requires Valid() && status.Reading? && sOff == bLen
      modifies this
      ensures Valid() && Abs() == Apply(cb(old(st), old(buf[..sOff])), old(Abs()))
    {
      var r := cb(st, buf[..sOff]);
      events := events + r.events;
      match r
      case Expand(len, next, _) =>
        RecvExpand(len);
        st := next;
      case Reset(len, next, _) =>
        RecvReset(len);
        st := next;
      case Halt(_) => status := Halted;
      case Fail(_) => status := Failed;
    }

    /** One successful read of `n` octets from `incoming`. */
    method Arrive(d: seq<byte>)
      requires Valid() && status.Reading? && sOff + |d| <= bLen && sOff < bLen
      modifies this
      ensures Valid() && Abs() == Feed(cb, old(Abs()), d)
    {
      FeedChunk(cb, Abs(), d);
      ghost var before := buf[..sOff];
      buf := buf[..sOff] + d + buf[sOff + |d|..];
      sOff := sOff + |d|;
      assert buf[..sOff] == before + d;
      if sOff == bLen {
        RunCallback();
      }
    }

    /** `net_recv_flush` with `net_read`. However the kernel cuts `incoming`, the outcome is that of
        feeding the octets taken one at a time. It reports a failed read, and the failure of a callback. */
    method RecvFlush(script: seq<ReadAnswer>, incoming: seq<byte>) returns (taken: nat, ok: bool)
      requires Valid()
      modifies this
      ensures Valid() && taken <= |incoming| && Abs() == Feed(cb, old(Abs()), incoming[..taken])
      ensures status.Failed? && !old(status).Failed? ==> !ok
      ensures Eager(script, |incoming|) ==> taken == |incoming| || !status.Reading? || sOff == bLen
      ensures Eager(script, |incoming|) ==> (ok <==> !status.Failed? || old(status).Failed?)
    {
      taken, ok := 0, true;
      for i := 0 to |script|
        invariant Valid() && taken <= |incoming| && Abs() == Feed(cb, old(Abs()), incoming[..taken])
        invariant Eager(script, |incoming|) ==> taken == |incoming| || taken >= i
        invariant status.Failed? <==> old(status).Failed?
      {
        if !status.Reading? || bLen - sOff == 0 {
          return;
        }
        var r := 0;
        match script[i] {
          case ReadError => return taken, false;
          case ReadEof => return;
          case ReadWouldBlock => return;
          case ReadInterrupted =>
          case Got(n) =>
            var want := if bLen - sOff < |incoming| - taken then bLen - sOff else |incoming| - taken;
            r := if n < want then n else want;
        }
        var d := incoming[taken..taken + r];
        FeedAppend(cb, old(Abs()), incoming[..taken], d);
        assert incoming[..taken] + d == incoming[..taken + r];
        Arrive(d);
        taken := taken + r;
        if status.Failed? {
          return taken, false;
        }
      }
    }
  }
}
