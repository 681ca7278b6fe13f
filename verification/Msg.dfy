/** `msg.c`: messages between the parent process and its workers, framed over one stream per worker. */
module Msg {
  import opened Bytes
  import opened Lists
  import opened Net

  /** `struct kore_msg` */
  datatype Header = Header(id: nat, src: nat, dst: nat, length: nat) {
    predicate Fits() {
      id < 0x100 && src < 0x1_0000 && dst < 0x1_0000 && length < 0x1_0000_0000_0000_0000
    }
  }

  datatype Message = Message(head: Header, data: seq<byte>) {
    ghost predicate Valid() {
      head.Fits() && head.length == |data|
    }
  }

  /** How the compiler lays out a header in memory: any layout that can be read back will do. */
  datatype Layout = Layout(size: nat, encode: Header -> seq<byte>, decode: seq<byte> -> Header) {
    ghost predicate Valid() {
      && size > 0
      && forall h: Header {:trigger encode(h)} :: h.Fits() ==> |encode(h)| == size && decode(encode(h)) == h
    }
  }

  datatype Phase = WantHeader | WantData

  /** `msg_recv_packet` and `msg_recv_data` as reactions to a full buffer. */
  function React(l: Layout, phase: Phase, buf: seq<byte>): (r: Reaction<Phase, Message>) {
    if |buf| < l.size then Fail([])
    else
      var head := l.decode(buf[..l.size]);
      if phase.WantHeader? && head.length > 0 then Expand(head.length, WantData, [])
      else Reset(l.size, WantHeader, [Message(head, buf[l.size..])])
  }

  function Callback(l: Layout): (Phase, seq<byte>) -> Reaction<Phase, Message> {
    (phase, buf) => React(l, phase, buf)
  }

  /** The receiver between two messages. */
  function Ready(l: Layout, seen: seq<Message>): (rx: Rx<Phase, Message>) {
    Rx([], l.size, WantHeader, seen, Reading)
  }

  function Wire(l: Layout, m: Message): (s: seq<byte>) {
    l.encode(m.head) + m.data
  }

  function WireAll(l: Layout, ms: seq<Message>): (s: seq<byte>) {
    if ms == [] then [] else Wire(l, ms[0]) + WireAll(l, ms[1..])
  }

  lemma {:induction false} WireAllAppend(l: Layout, a: seq<Message>, b: seq<Message>)
    ensures WireAll(l, a + b) == WireAll(l, a) + WireAll(l, b)
    decreases |a|
  {
    if a == [] {
      assert a + b == b;
    } else {
      assert (a + b)[1..] == a[1..] + b;
      WireAllAppend(l, a[1..], b);
      Assoc(Wire(l, a[0]), WireAll(l, a[1..]), WireAll(l, b));
    }
  }

  lemma {:induction false} OneMessage(l: Layout, m: Message, seen: seq<Message>)
    requires l.Valid() && m.Valid()
    ensures Feed(Callback(l), Ready(l, seen), Wire(l, m)) == Ready(l, seen + [m])
  {
    var rx := Ready(l, seen);
    var h := l.encode(m.head);
    assert l.decode(h) == m.head;
    FeedAppend(Callback(l), rx, h, m.data);
    FeedChunk(Callback(l), rx, h);
    assert [] + h == h && h[..l.size] == h;
    if m.data == [] {
      assert h[l.size..] == m.data;
    } else {
      var mid := Feed(Callback(l), rx, h);
      assert mid == Rx(h, l.size + |m.data|, WantData, seen, Reading) by {
        assert seen + [] == seen;
      }
      FeedChunk(Callback(l), mid, m.data);
      assert (h + m.data)[..l.size] == h && (h + m.data)[l.size..] == m.data;
    }
  }

  /** Whatever is sent arrives: all of it, once, in order. */
  lemma {:induction false} AllMessages(l: Layout, ms: seq<Message>, seen: seq<Message>)
    requires l.Valid() && forall m :: m in ms ==> m.Valid()
    ensures Feed(Callback(l), Ready(l, seen), WireAll(l, ms)) == Ready(l, seen + ms)
    decreases |ms|
  {
    if ms == [] {
      assert seen + ms == seen;
    } else {
      FeedAppend(Callback(l), Ready(l, seen), Wire(l, ms[0]), WireAll(l, ms[1..]));
      OneMessage(l, ms[0], seen);
      AllMessages(l, ms[1..], seen + [ms[0]]);
      assert seen + [ms[0]] + ms[1..] == seen + ms;
    }
  }

  /** At every moment of a run the receiver has seen a prefix of what was sent, and nothing else; the
      messages whose octets have all been taken are among them. */
  lemma {:induction false} PrefixDelivered(l: Layout, ms: seq<Message>, taken: seq<byte>, k: nat)
    requires l.Valid() && forall m :: m in ms ==> m.Valid()
    requires taken <= WireAll(l, ms)
    requires k <= |ms| && WireAll(l, ms[..k]) <= taken
    ensures ms[..k] <= Feed(Callback(l), Ready(l, []), taken).events <= ms
  {
    var cb, rx := Callback(l), Ready(l, []);
    var all, done := WireAll(l, ms), WireAll(l, ms[..k]);
    assert all == taken + all[|taken|..] && taken == done + taken[|done|..];
    AllMessages(l, ms, []);
    AllMessages(l, ms[..k], []);
    assert [] + ms == ms && [] + ms[..k] == ms[..k];
    FeedAppend(cb, rx, taken, all[|taken|..]);
    EventsGrow(cb, Feed(cb, rx, taken), all[|taken|..]);
    FeedAppend(cb, rx, done, taken[|done|..]);
    EventsGrow(cb, Feed(cb, rx, done), taken[|done|..]);
  }

  /** What `kore_msg_send` puts on the stream; `None` is a NULL data pointer. */
  function Framed(l: Layout, head: Header, data: Option<seq<byte>>): (s: seq<byte>) {
    l.encode(head) + (if data.Some? && head.length > 0 then data.value else [])
  }

  /** A send reaches the peer's callback exactly when the data is there or none is announced. Announcing
      data that is not there leaves the peer waiting inside the message, with nothing delivered. */
  lemma {:induction false} SendIntact(l: Layout, head: Header, data: Option<seq<byte>>, seen: seq<Message>)
    requires l.Valid() && head.Fits() && (data.Some? ==> |data.value| == head.length)
    ensures var m := Message(head, if data.Some? then data.value else []);
            var rx := Feed(Callback(l), Ready(l, seen), Framed(l, head, data));
            && (rx == Ready(l, seen + [m]) <==> data.Some? || head.length == 0)
            && (data.None? && head.length > 0 ==> rx.events == seen && rx.st == WantData && rx.need - |rx.buf| == head.length)
  {
    var m := Message(head, if data.Some? then data.value else []);
    if data.Some? || head.length == 0 {
      assert Framed(l, head, data) == Wire(l, m);
      OneMessage(l, m, seen);
    } else {
      var h := l.encode(head);
      assert l.decode(h) == head;
      assert Framed(l, head, data) == h && [] + h == h && h[..l.size] == h && seen + [] == seen;
      FeedChunk(Callback(l), Ready(l, seen), h);
    }
  }

  /** `kore_msg_send`: queue the header, then the data, then flush. */
  method Send(l: Layout, link: Sender, head: Header, data: Option<seq<byte>>, script: seq<WriteAnswer>) returns (ok: bool)
    requires l.Valid() && link.Valid()
    modifies link
    ensures link.Valid() && link.enqueued == old(link.enqueued) + Framed(l, head, data) && old(link.wire) <= link.wire
  {
    link.SendQueue(l.encode(head));
    if data.Some? && head.length > 0 {
      link.SendQueue(data.value);
      Assoc(old(link.enqueued), l.encode(head), data.value);
    } else {
      assert l.encode(head) + [] == l.encode(head);
    }
    ok := link.SendFlush(script);
  }

  /** One link, at any point of any run: what went out is `wire`, what waits is `pending`, and the peer
      has read `taken` of it. The peer's callbacks saw the first messages sent, in order and once each;
      when everything went out and was read they saw all of them. */
  lemma {:induction false} LinkDelivers(l: Layout, ms: seq<Message>, wire: seq<byte>, pending: seq<byte>, taken: seq<byte>)
    requires l.Valid() && forall m :: m in ms ==> m.Valid()
    requires wire + pending == WireAll(l, ms) && taken <= wire
    ensures Feed(Callback(l), Ready(l, []), taken).events <= ms
    ensures pending == [] && taken == wire ==> Feed(Callback(l), Ready(l, []), taken) == Ready(l, ms)
  {
    PrefixDelivered(l, ms, taken, 0);
    AllMessages(l, ms, []);
    assert [] + ms == ms;
    assert pending == [] ==> wire + pending == wire;
  }

  /** Inside a stream of messages the receiver always wants more. */
  lemma {:induction false} StaysReading(l: Layout, ms: seq<Message>, taken: seq<byte>)
    requires l.Valid() && forall m :: m in ms ==> m.Valid()
    requires taken <= WireAll(l, ms)
    ensures var rx := Feed(Callback(l), Ready(l, []), taken);
            rx.status.Reading? && |rx.buf| < rx.need
  {
    var cb, all := Callback(l), WireAll(l, ms);
    var rx := Feed(cb, Ready(l, []), taken);
    assert all == taken + all[|taken|..];
    AllMessages(l, ms, []);
    FeedAppend(cb, Ready(l, []), taken, all[|taken|..]);
    if !rx.status.Reading? || rx.need <= |rx.buf| {
      FeedClosed(cb, rx, all[|taken|..]);
    }
  }

  /** One link: the sender of one process, the receiver of its peer, and the socket between them. */
  class Link {
    const layout: Layout
    const sender: Sender
    const receiver: Receiver<Phase, Message>
    var taken: nat                 // how much of what the kernel accepted the peer has read
    ghost var sent: seq<Message>

    ghost predicate Valid()
      reads this, sender, receiver
    {
      && layout.Valid() && sender.Valid() && receiver.Valid()
      && (forall m :: m in sent ==> m.Valid())
      && sender.enqueued == WireAll(layout, sent)
      && taken <= |sender.wire| && receiver.cb == Callback(layout)
      && receiver.Abs() == Feed(Callback(layout), Ready(layout, []), sender.wire[..taken])
    }

    constructor (layout: Layout, payloadMax: nat)
      requires layout.Valid() && payloadMax > 0
      ensures Valid() && sent == [] && fresh(sender) && fresh(receiver)
    {
      this.layout := layout;
      sender := new Sender(payloadMax);
      receiver := new Receiver(payloadMax, Callback(layout), layout.size, WantHeader);
      taken, sent := 0, [];
    }

    /** `kore_msg_send`, whatever the kernel answers. */
    method SendMessage(head: Header, data: Option<seq<byte>>, script: seq<WriteAnswer>) returns (ok: bool)
      requires Valid() && head.Fits() && (if data.Some? then |data.value| == head.length else head.length == 0)
      modifies this`sent, sender
      ensures Valid() && sent == old(sent) + [Message(head, if data.Some? then data.value else [])]
    {
      ghost var m := Message(head, if data.Some? then data.value else []);
      ok := Send(layout, sender, head, data, script);
      sent := sent + [m];
      WireAllAppend(layout, old(sent), [m]);
      assert [m][1..] == [];
      assert Framed(layout, head, data) == Wire(layout, m) == WireAll(layout, [m]);
      assert sender.wire[..taken] == old(sender.wire)[..taken];
    }

    /** The socket can be written again. */
    method Flush(script: seq<WriteAnswer>) returns (ok: bool)
      requires Valid()
      modifies sender
      ensures Valid()
      ensures Generous(script, |old(Pending(sender.queue))| + |old(sender.queue)|) ==> ok && sender.queue == []
    {
      sender.canWrite := true;
      ok := sender.SendFlush(script);
      assert sender.wire[..taken] == old(sender.wire)[..taken];
    }

    /** The peer reads, however the kernel cuts what is there. */
    method Receive(script: seq<ReadAnswer>) returns (ok: bool)
      requires Valid()
      modifies this`taken, receiver
      ensures Valid() && old(taken) <= taken
      ensures Eager(script, |sender.wire| - old(taken)) ==> ok && taken == |sender.wire|
    {
      var n;
      n, ok := receiver.RecvFlush(script, sender.wire[taken..]);
      ghost var before, piece := sender.wire[..taken], sender.wire[taken..][..n];
      FeedAppend(Callback(layout), Ready(layout, []), before, piece);
      taken := taken + n;
      assert sender.wire[..taken] == before + piece;
      Delivered();
    }

    /** In every state that sending, flushing and receiving lead to, the peer's callbacks have seen the first
        messages sent, in order and once each, and all of them when everything went out and was read. */
    lemma {:induction false} Delivered()
      requires Valid()
      ensures receiver.events <= sent
      ensures sender.queue == [] && taken == |sender.wire| ==> receiver.events == sent
      ensures receiver.status.Reading? && receiver.sOff < receiver.bLen
    {
      var wire, pending := sender.wire, Pending(sender.queue);
      LinkDelivers(layout, sent, wire, pending, wire[..taken]);
      assert wire[..taken] <= wire + pending;
      StaysReading(layout, sent, wire[..taken]);
      assert taken == |wire| ==> wire[..taken] == wire;
    }

    /** With a kernel that takes and gives something every time, all that was sent is delivered. */
    method Settle(writing: seq<WriteAnswer>, reading: seq<ReadAnswer>) returns (ok: bool)
      requires Valid() && Generous(writing, |Pending(sender.queue)| + |sender.queue|)
      requires Eager(reading, |sender.enqueued| - taken)
      modifies this`taken, sender, receiver
      ensures Valid() && ok && receiver.events == sent
    {
      ok := Flush(writing);
      ok := Receive(reading);
      Delivered();
    }
  }

  // ---- The parent passes messages on ----

  /** Whether the parent passes a message for `destination` on to worker `w`. */
  predicate Passes(destination: nat, w: nat, workerAll: nat, keymgr: bool) {
    if destination == workerAll then !(keymgr && w == 0) else w == destination
  }

  /** The messages worker `w` gets out of those the parent received. */
  function Routed(ms: seq<Message>, w: nat, workerAll: nat, keymgr: bool): (r: seq<Message>) {
    if ms == [] then []
    else Share(ms[0], w, workerAll, keymgr) + Routed(ms[1..], w, workerAll, keymgr)
  }

  /** A worker is only ever given messages addressed to it, so it never stops over a wrong address; and
      every message it gets stems from one the parent received for it, with its contents unchanged. */
  lemma {:induction false} RoutedFaithful(ms: seq<Message>, w: nat, workerAll: nat, keymgr: bool)
    requires w < 0x1_0000 && forall m :: m in ms ==> m.Valid()
    ensures forall r :: r in Routed(ms, w, workerAll, keymgr) ==>
      && r.Valid() && r.head.dst == w
      && exists m :: m in ms && Passes(m.head.dst, w, workerAll, keymgr) && r == m.(head := m.head.(dst := w))
    decreases |ms|
  {
    if ms != [] {
      RoutedFaithful(ms[1..], w, workerAll, keymgr);
    }
  }

  /** What worker `w` gets of one message. */
  function Share(m: Message, w: nat, workerAll: nat, keymgr: bool): (r: seq<Message>) {
    if Passes(m.head.dst, w, workerAll, keymgr) then [m.(head := m.head.(dst := w))] else []
  }

  lemma {:induction false} RoutedStep(ms: seq<Message>, m: Message, w: nat, workerAll: nat, keymgr: bool)
    ensures Routed(ms + [m], w, workerAll, keymgr) == Routed(ms, w, workerAll, keymgr) + Share(m, w, workerAll, keymgr)
    decreases |ms|
  {
    if ms == [] {
      assert ms + [m] == [m];
      assert Routed([m], w, workerAll, keymgr) == Share(m, w, workerAll, keymgr) + [] == [] + Share(m, w, workerAll, keymgr);
    } else {
      assert (ms + [m])[1..] == ms[1..] + [m] && (ms + [m])[0] == ms[0];
      RoutedStep(ms[1..], m, w, workerAll, keymgr);
      Assoc(Share(ms[0], w, workerAll, keymgr), Routed(ms[1..], w, workerAll, keymgr), Share(m, w, workerAll, keymgr));
    }
  }

  /** `r` are the messages at the positions `at`, which are all those for worker `w` in the order received: the
      ones addressed to it, and the ones for all workers unless `w` is the key manager. */
  ghost predicate Selected(at: seq<nat>, ms: seq<Message>, w: nat, workerAll: nat, keymgr: bool, r: seq<Message>) {
    && |at| == |r| && (forall j, k :: 0 <= j < k < |at| ==> at[j] < at[k])
    && (forall k :: 0 <= k < |at| ==> at[k] < |ms| && r[k] == ms[at[k]].(head := ms[at[k]].head.(dst := w)))
    && (forall i: nat :: i in at <==>
          i < |ms| && ((ms[i].head.dst == workerAll && !(keymgr && w == 0)) || (ms[i].head.dst == w && w != workerAll)))
  }

  lemma SelectedMore(at: seq<nat>, ms: seq<Message>, m: Message, w: nat, workerAll: nat, keymgr: bool, r: seq<Message>)
    requires Selected(at, ms, w, workerAll, keymgr, r)
    requires (m.head.dst == workerAll && !(keymgr && w == 0)) || (m.head.dst == w && w != workerAll)
    ensures Selected(at + [|ms|], ms + [m], w, workerAll, keymgr, r + [m.(head := m.head.(dst := w))])
  {
    var at' := at + [|ms|];
    assert forall i: nat :: i in at' <==> i in at || i == |ms|;
  }

  lemma SelectedSame(at: seq<nat>, ms: seq<Message>, m: Message, w: nat, workerAll: nat, keymgr: bool, r: seq<Message>)
    requires Selected(at, ms, w, workerAll, keymgr, r)
    requires !((m.head.dst == workerAll && !(keymgr && w == 0)) || (m.head.dst == w && w != workerAll))
    ensures Selected(at, ms + [m], w, workerAll, keymgr, r)
  {
  }

  /** A worker gets the messages for it, every one of them, as often and in the order they came in, and no others. */
  lemma {:induction false} RoutedExact(ms: seq<Message>, w: nat, workerAll: nat, keymgr: bool)
    ensures exists at :: Selected(at, ms, w, workerAll, keymgr, Routed(ms, w, workerAll, keymgr))
    decreases |ms|
  {
    if ms == [] {
      var none: seq<nat> := [];
      assert Selected(none, ms, w, workerAll, keymgr, Routed(ms, w, workerAll, keymgr));
    } else {
      var n := |ms| - 1;
      RoutedExact(ms[..n], w, workerAll, keymgr);
      var r := Routed(ms[..n], w, workerAll, keymgr);
      var at :| Selected(at, ms[..n], w, workerAll, keymgr, r);
      assert ms == ms[..n] + [ms[n]];
      RoutedStep(ms[..n], ms[n], w, workerAll, keymgr);
      if Passes(ms[n].head.dst, w, workerAll, keymgr) {
        SelectedMore(at, ms[..n], ms[n], w, workerAll, keymgr, r);
      } else {
        SelectedSame(at, ms[..n], ms[n], w, workerAll, keymgr, r);
        assert r + [] == r;
      }
    }
  }

  /** The parent with one link per worker, numbered by `ids`. */
  class Parent {
    const layout: Layout
    const workerAll: nat           // KORE_MSG_WORKER_ALL
    const keymgr: bool             // `kore_keymgr_active`
    const ids: seq<nat>
    const links: seq<Sender>       // `conncache`
    ghost var received: seq<Message>

    /** Every link carries exactly the messages its worker should get, in the order they came in. */
    ghost predicate Valid()
      reads this, set i | 0 <= i < |links| :: links[i]
    {
      && layout.Valid() && |ids| == |links|
      && (forall m :: m in received ==> m.Valid())
      && (forall i :: 0 <= i < |ids| ==> ids[i] < 0x1_0000)
      && (forall i, j :: 0 <= i < j < |links| ==> links[i] != links[j])
      && (forall i :: 0 <= i < |links| ==> links[i].Valid() && links[i].enqueued == Carried(i, received))
    }

    constructor (layout: Layout, workerAll: nat, keymgr: bool, ids: seq<nat>, links: seq<Sender>)
      requires layout.Valid() && |ids| == |links|
      requires forall i :: 0 <= i < |ids| ==> ids[i] < 0x1_0000
      requires forall i, j :: 0 <= i < j < |links| ==> links[i] != links[j]
      requires forall i :: 0 <= i < |links| ==> links[i].Valid() && links[i].enqueued == []
      ensures Valid() && received == [] && this.links == links
    {
      this.layout, this.workerAll, this.keymgr, this.ids, this.links := layout, workerAll, keymgr, ids, links;
      received := [];
    }

    ghost function Carried(i: nat, ms: seq<Message>): seq<byte>
      requires i < |ids|
    {
      WireAll(layout, Routed(ms, ids[i], workerAll, keymgr))
    }

    lemma CarriedStep(i: nat, ms: seq<Message>, m: Message)
      requires i < |ids|
      ensures Carried(i, ms + [m]) == Carried(i, ms) +
        (if Passes(m.head.dst, ids[i], workerAll, keymgr) then Wire(layout, m.(head := m.head.(dst := ids[i]))) else [])
    {
      RoutedStep(ms, m, ids[i], workerAll, keymgr);
      if Passes(m.head.dst, ids[i], workerAll, keymgr) {
        var m' := m.(head := m.head.(dst := ids[i]));
        WireAllAppend(layout, Routed(ms, ids[i], workerAll, keymgr), [m']);
        assert [m'][1..] == [];
        assert Wire(layout, m') + [] == Wire(layout, m');
      } else {
        assert Routed(ms, ids[i], workerAll, keymgr) + [] == Routed(ms, ids[i], workerAll, keymgr);
      }
    }

    /** The forwarding loop of `msg_recv_data` for a message no callback is registered for. */
    method Forward(m: Message, scripts: seq<seq<WriteAnswer>>)
      requires Valid() && m.Valid() && |scripts| == |links|
      modifies this, set i | 0 <= i < |links| :: links[i]
      ensures Valid() && received == old(received) + [m]
      ensures forall i :: 0 <= i < |links| ==>
        if (m.head.dst == workerAll && !(keymgr && ids[i] == 0)) || (m.head.dst == ids[i] && ids[i] != workerAll)
        then links[i].enqueued == old(links[i].enqueued) + Wire(layout, m.(head := m.head.(dst := ids[i])))
        else links[i].enqueued == old(links[i].enqueued)
    {
      ghost var before := received;
      var destination := m.head.dst;
      var msg := m;
      for i := 0 to |links|
        invariant received == before && msg == m.(head := m.head.(dst := msg.head.dst))
        invariant forall j :: i <= j < |links| ==> links[j].Valid() && links[j].enqueued == Carried(j, before)
        invariant forall j :: 0 <= j < i ==> links[j].Valid() && links[j].enqueued == Carried(j, before + [m])
      {
        CarriedStep(i, before, m);
        if Passes(destination, ids[i], workerAll, keymgr) {
          msg := msg.(head := msg.head.(dst := ids[i]));
          links[i].SendQueue(layout.encode(msg.head) + msg.data);
          var ok := links[i].SendFlush(scripts[i]);
        }
      }
      received := received + [m];
      forall i | 0 <= i < |links|
        ensures links[i].enqueued == Carried(i, before + [m]) && old(links[i].enqueued) == Carried(i, before)
      {
      }
      forall i | 0 <= i < |links|
        ensures Carried(i, before + [m]) == Carried(i, before) +
          (if Passes(m.head.dst, ids[i], workerAll, keymgr) then Wire(layout, m.(head := m.head.(dst := ids[i]))) else [])
      {
        CarriedStep(i, before, m);
      }
    }
  }
}
