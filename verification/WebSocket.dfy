/** `websocket.c`: frames as in sections 5.2 and 5.3 of RFC 6455, built by the server and taken apart by
    the two receive callbacks. */
module WebSocket {
  import opened Bytes
  import opened Lists
  import opened Net

  const TWO64: nat := 0x1_0000_0000_0000_0000
  const SINGLE: nat := 125          // WEBSOCKET_PAYLOAD_SINGLE
  const OP_CONT: nat := 0
  const OP_TEXT: nat := 1
  const OP_BINARY: nat := 2
  const OP_CLOSE: nat := 8
  const OP_PING: nat := 9
  const OP_PONG: nat := 10

  // ---- Header octets ----

  function TopBit(b: byte): bool { b & 0x80 != 0 }
  function Low7(b: byte): (n: nat) { Val(b & 0x7f) }
  function Opcode(b: byte): (n: nat) { Val(b & 0x0f) }
  function Reserved(b: byte): bool { b & 0x40 != 0 || b & 0x20 != 0 || b & 0x10 != 0 }

  /** Setting the top bit of an octet leaves the rest of it readable. */
  lemma {:induction false} HeaderBits(top: bool, low: nat)
    requires low < 128
    ensures var b := if top then Octet(low) | 0x80 else Octet(low);
            && TopBit(b) == top && Low7(b) == low
            && (low < 16 ==> Opcode(b) == low && !Reserved(b))
  {
  }

  // ---- Masking ----

  function Masked(key: seq<byte>, data: seq<byte>): (s: seq<byte>)
    requires |key| == 4
    ensures |s| == |data|
  {
    seq(|data|, i requires 0 <= i < |data| => data[i] ^ key[i % 4])
  }

  /** Masking twice with the same key gives the data back. */
  lemma MaskTwice(key: seq<byte>, data: seq<byte>)
    requires |key| == 4
    ensures Masked(key, Masked(key, data)) == data
  {
    forall i | 0 <= i < |data|
      ensures (data[i] ^ key[i % 4]) ^ key[i % 4] == data[i]
    {
      XorTwice(data[i], key[i % 4]);
    }
  }

  lemma XorTwice(a: byte, k: byte)
    ensures (a ^ k) ^ k == a
  {
  }

  /** `s` with its first `i` octets behind the key unmasked. */
  ghost predicate PartUnmasked(s: seq<byte>, t: seq<byte>, moff: nat, i: nat) {
    && |t| == |s| && moff + 4 + i <= |s|
    && (forall j :: 0 <= j < |s| && !(moff + 4 <= j < moff + 4 + i) ==> t[j] == s[j])
    && (forall j :: moff + 4 <= j < moff + 4 + i ==> t[j] == s[j] ^ s[moff + (j - moff - 4) % 4])
  }

  lemma UnmaskStep(s: seq<byte>, t: seq<byte>, moff: nat, i: nat)
    requires PartUnmasked(s, t, moff, i) && moff + 4 + i < |s|
    ensures PartUnmasked(s, t[moff + 4 + i := t[moff + 4 + i] ^ t[moff + i % 4]], moff, i + 1)
  {
    assert t[moff + i % 4] == s[moff + i % 4] && t[moff + 4 + i] == s[moff + 4 + i];
  }

  lemma UnmaskDone(s: seq<byte>, t: seq<byte>, moff: nat, len: nat)
    requires PartUnmasked(s, t, moff, len)
    ensures t[..moff + 4] == s[..moff + 4] && t[moff + 4 + len..] == s[moff + 4 + len..]
    ensures t[moff + 4..moff + 4 + len] == Masked(s[moff..moff + 4], s[moff + 4..moff + 4 + len])
  {
    var key, data := s[moff..moff + 4], s[moff + 4..moff + 4 + len];
    forall j | 0 <= j < len
      ensures t[moff + 4..moff + 4 + len][j] == Masked(key, data)[j]
    {
      assert key[j % 4] == s[moff + j % 4];
      assert t[moff + 4 + j] == s[moff + 4 + j] ^ s[moff + (moff + 4 + j - moff - 4) % 4];
    }
  }

  /** The unmasking loop of `websocket_recv_frame`, in place. */
  method Unmask(buf: array<byte>, moff: nat, len: nat)
    requires moff + 4 + len <= buf.Length
    modifies buf
    ensures var s, t := old(buf[..]), buf[..];
            && t[..moff + 4] == s[..moff + 4] && t[moff + 4 + len..] == s[moff + 4 + len..]
            && t[moff + 4..moff + 4 + len] == Masked(s[moff..moff + 4], s[moff + 4..moff + 4 + len])
  {
    ghost var s := buf[..];
    for i := 0 to len
      invariant PartUnmasked(s, buf[..], moff, i)
    {
      UnmaskStep(s, buf[..], moff, i);
      buf[moff + 4 + i] := buf[moff + 4 + i] ^ buf[moff + i % 4];
    }
    UnmaskDone(s, buf[..], moff, len);
  }

  // ---- Building ----

  /** The octets of extended length behind the two header octets. */
  function Extended(n: nat, len1: nat): (e: seq<byte>) {
    if len1 == 126 then BigEndian(n, 2) else if len1 == 127 then BigEndian(n, 8) else []
  }

  /** `websocket_frame_build`: an unmasked final frame with the shortest length form. */
  function FrameBuild(op: nat, data: seq<byte>): (f: seq<byte>)
    requires op < 128
  {
    var len1 := if |data| > SINGLE then (if |data| <= 0xffff then 126 else 127) else |data|;
    [Octet(op) | 0x80, Octet(len1) & 0x7f] + Extended(|data|, len1) + data
  }

  /** How a client masks an unmasked frame: the mask bit, the key behind the length, the payload masked. */
  function MaskFrame(f: seq<byte>, ext: nat, key: seq<byte>): (s: seq<byte>)
    requires |f| >= 2 + ext && |key| == 4
  {
    [f[0], f[1] | 0x80] + f[2..2 + ext] + key + Masked(key, f[2 + ext..])
  }

  /** A masked frame on the wire: `ext` octets of extended length (0, 2 or 8), any of the forms that can
      hold the length, not only the shortest. */
  datatype Frame = Frame(fin: bool, op: nat, ext: nat, key: seq<byte>, data: seq<byte>) {
    predicate Valid() {
      && op < 16 && |key| == 4
      && (ext == 0 || ext == 2 || ext == 8)
      && (ext == 0 ==> |data| <= SINGLE) && (ext == 2 ==> |data| <= 0xffff) && (ext == 8 ==> |data| < TWO64)
    }

    function Len1(): (n: nat) {
      if ext == 0 then |data| else if ext == 2 then 126 else 127
    }
  }

  // ---- Receiving ----

  datatype Phase = WantOpcode | WantFrame

  /** What the connection does on behalf of a frame. */
  datatype Event = Message(op: nat, payload: seq<byte>) | Pong(payload: seq<byte>) | Closed | Unsupported

  /** `websocket_recv_opcode` */
  function ReactOpcode(buf: seq<byte>): (r: Reaction<Phase, Event>)
    requires |buf| >= 2
  {
    var op, len := Opcode(buf[0]), Low7(buf[1]);
    if !TopBit(buf[1]) || Reserved(buf[0]) then Fail([])
    else if !(op <= OP_BINARY || OP_CLOSE <= op <= OP_PONG) then Fail([])
    else if OP_CLOSE <= op && (len > SINGLE || !TopBit(buf[0])) then Fail([])
    else Expand((if len == 126 then len + 2 else if len == 127 then len + 8 else len) + 4, WantFrame, [])
  }

  /** `websocket_recv_frame`; `max` is `kore_websocket_maxframe`. */
  function ReactFrame(max: nat, buf: seq<byte>): (r: Reaction<Phase, Event>)
    requires |buf| >= 14 || (|buf| >= 6 && Low7(buf[1]) <= SINGLE)
  {
    var op := Opcode(buf[0]);
    var ext := if Low7(buf[1]) == 126 then 2 else if Low7(buf[1]) == 127 then 8 else 0;
    var len := if ext == 0 then Low7(buf[1]) else FromBigEndian(buf[2..2 + ext]);
    var total := len + ext + 2 + 4;
    if len > max then Fail([])
    else if total > |buf| then Expand(total - |buf|, WantFrame, [])
    else if total != |buf| then Fail([])
    else
      var payload := Masked(buf[2 + ext..6 + ext], buf[6 + ext..6 + ext + len]);
      if op == OP_PONG then Reset(2, WantOpcode, [])
      else if op == OP_CONT then Fail([Unsupported])
      else if op == OP_TEXT || op == OP_BINARY then Reset(2, WantOpcode, [Message(op, payload)])
      else if op == OP_CLOSE then Halt([Closed])
      else if op == OP_PING then Reset(2, WantOpcode, [Pong(payload)])
      else Fail([])
  }

  function React(max: nat, phase: Phase, buf: seq<byte>): (r: Reaction<Phase, Event>) {
    if phase.WantOpcode? && |buf| >= 2 then ReactOpcode(buf)
    else if phase.WantFrame? && (|buf| >= 14 || (|buf| >= 6 && Low7(buf[1]) <= SINGLE)) then ReactFrame(max, buf)
    else Fail([])
  }

  function Callback(max: nat): (Phase, seq<byte>) -> Reaction<Phase, Event> {
    (phase, buf) => React(max, phase, buf)
  }

  function Ready(events: seq<Event>): (rx: Rx<Phase, Event>) {
    Rx([], 2, WantOpcode, events, Reading)
  }

  /** The forms the callbacks accept: a 16-bit length of at least 126, a 64-bit length of at least 127,
      and no more than the configured maximum. */
  ghost predicate Acceptable(f: Frame, max: nat) {
    |f.data| <= max && (f.ext == 2 ==> |f.data| >= 126) && (f.ext == 8 ==> |f.data| >= 127)
  }

  /** Data frames may lack the final bit, which is not looked at; control frames are short and final. */
  ghost predicate Speakable(f: Frame) {
    f.op == OP_TEXT || f.op == OP_BINARY || ((f.op == OP_PING || f.op == OP_PONG || f.op == OP_CLOSE) && f.fin && f.ext == 0)
  }

  /** The frames whose first two octets pass: those, and continuations, which are refused later. */
  ghost predicate Admissible(f: Frame) {
    Speakable(f) || f.op == OP_CONT
  }

  function Effect(f: Frame): (events: seq<Event>) {
    if f.op == OP_TEXT || f.op == OP_BINARY then [Message(f.op, f.data)]
    else if f.op == OP_PING then [Pong(f.data)]
    else if f.op == OP_CLOSE then [Closed]
    else []
  }

  /** `s` starts with the header octets of `f`: everything the callbacks look at before the payload. */
  ghost predicate Shows(f: Frame, s: seq<byte>) {
    && |s| >= 6 + f.ext
    && Opcode(s[0]) == f.op && TopBit(s[0]) == f.fin && !Reserved(s[0])
    && Low7(s[1]) == f.Len1() && TopBit(s[1])
    && (f.ext > 0 ==> FromBigEndian(s[2..2 + f.ext]) == |f.data|)
    && s[2 + f.ext..6 + f.ext] == f.key
  }

  /** `s` is `f` on the wire. */
  ghost predicate IsFrame(f: Frame, s: seq<byte>) {
    f.Valid() && |s| == 6 + f.ext + |f.data| && Shows(f, s) && s[6 + f.ext..] == Masked(f.key, f.data)
  }

  /** Headers written as `websocket_frame_build` writes them, with the mask bit set, show the frame. */
  lemma {:induction false} HeaderShows(f: Frame, s: seq<byte>, e: seq<byte>)
    requires f.fin && f.op < 16 && f.Len1() < 128 && |s| >= 6 + f.ext && |e| == f.ext
    requires s[0] == Octet(f.op) | 0x80 && s[1] == (Octet(f.Len1()) & 0x7f) | 0x80
    requires s[2..2 + f.ext] == e && s[2 + f.ext..6 + f.ext] == f.key
    requires f.ext > 0 ==> FromBigEndian(e) == |f.data|
    ensures Shows(f, s)
  {
    HeaderBits(true, f.op);
    HeaderBits(true, f.Len1());
    SevenBits(f.Len1());
  }

  lemma {:induction false} LengthBack(n: nat, ext: nat)
    requires (ext == 2 && n <= 0xffff) || (ext == 8 && n < TWO64)
    ensures FromBigEndian(BigEndian(n, ext)) == n
  {
    Pow256();
    BigEndianRoundTrip(n, ext);
  }

  lemma {:induction false} MaskedIsFrame(f: Frame, b: seq<byte>, e: seq<byte>)
    requires f.Valid() && f.fin && f.op < 16 && f.Len1() < 128 && |e| == f.ext
    requires b == [Octet(f.op) | 0x80, Octet(f.Len1()) & 0x7f] + e + f.data
    requires f.ext > 0 ==> FromBigEndian(e) == |f.data|
    ensures IsFrame(f, MaskFrame(b, f.ext, f.key))
  {
    MaskLayout(b, e, f.data, f.key);
    HeaderShows(f, MaskFrame(b, f.ext, f.key), e);
  }

  lemma ExtendedBack(n: nat, len1: nat, ext: nat)
    requires (ext == 0 && n == len1 <= SINGLE) || (ext == 2 && len1 == 126 && n <= 0xffff) || (ext == 8 && len1 == 127 && n < TWO64)
    ensures |Extended(n, len1)| == ext && (ext > 0 ==> FromBigEndian(Extended(n, len1)) == n)
  {
    if ext > 0 {
      LengthBack(n, ext);
    }
  }

  /** Masking what `websocket_frame_build` produces is a frame in the shortest form that holds the data. */
  lemma BuiltIsFrame(op: nat, data: seq<byte>, key: seq<byte>)
    requires op < 16 && |key| == 4 && |data| < TWO64
    ensures var ext := if |data| <= SINGLE then 0 else if |data| <= 0xffff then 2 else 8;
            |FrameBuild(op, data)| >= 2 + ext &&
            IsFrame(Frame(true, op, ext, key, data), MaskFrame(FrameBuild(op, data), ext, key))
  {
    var ext := if |data| <= SINGLE then 0 else if |data| <= 0xffff then 2 else 8;
    var len1 := if ext == 0 then |data| else if ext == 2 then 126 else 127;
    ExtendedBack(|data|, len1, ext);
    MaskedIsFrame(Frame(true, op, ext, key, data), FrameBuild(op, data), Extended(|data|, len1));
  }

  lemma {:induction false} SevenBits(n: nat)
    requires n < 128
    ensures Octet(n) & 0x7f == Octet(n)
  {
  }

  lemma MaskLayout(f: seq<byte>, e: seq<byte>, data: seq<byte>, key: seq<byte>)
    requires |f| >= 2 && |key| == 4 && f == [f[0], f[1]] + e + data
    ensures var s := MaskFrame(f, |e|, key);
            && |s| == 6 + |e| + |data| && s[0] == f[0] && s[1] == f[1] | 0x80
            && s[2..2 + |e|] == e && s[2 + |e|..6 + |e|] == key && s[6 + |e|..] == Masked(key, data)
  {
    assert f[2..2 + |e|] == e && f[2 + |e|..] == data;
  }

  lemma ShowsPrefix(f: Frame, s: seq<byte>, t: seq<byte>)
    requires Shows(f, s) && |t| >= 6 + f.ext && s[..6 + f.ext] == t[..6 + f.ext]
    ensures Shows(f, t)
  {
    assert forall i :: 0 <= i < 6 + f.ext ==> s[i] == s[..6 + f.ext][i] == t[i];
    assert s[2..2 + f.ext] == t[2..2 + f.ext];
    assert s[2 + f.ext..6 + f.ext] == t[2 + f.ext..6 + f.ext];
  }

  lemma Pow256()
    ensures Pow(256, 2) == 0x1_0000 && Pow(256, 8) == TWO64
  {
    assert Pow(256, 3) == 256 * Pow(256, 2);
    assert Pow(256, 4) == 256 * Pow(256, 3);
    assert Pow(256, 5) == 256 * Pow(256, 4);
    assert Pow(256, 6) == 256 * Pow(256, 5);
    assert Pow(256, 7) == 256 * Pow(256, 6);
  }

  /** How many octets are wanted before the length is known: the shortest frame of that form. */
  function FirstTarget(f: Frame): (n: nat) {
    2 + f.Len1() + f.ext + 4
  }

  /** The two header octets arm the first target. */
  lemma {:induction false} HeaderTaken(f: Frame, s: seq<byte>, max: nat, events: seq<Event>)
    requires f.Valid() && Admissible(f) && Shows(f, s)
    ensures Feed(Callback(max), Ready(events), s[..2]) == Rx(s[..2], FirstTarget(f), WantFrame, events, Reading)
  {
    FeedChunk(Callback(max), Ready(events), s[..2]);
    assert [] + s[..2] == s[..2] && events + [] == events;
  }

  /** What a callback makes of a buffer that shows the header of `f`, by its length alone. */
  lemma FrameReaction(f: Frame, max: nat, buf: seq<byte>)
    requires f.Valid() && Shows(f, buf) && |buf| >= FirstTarget(f)
    ensures !Acceptable(f, max) ==> React(max, WantFrame, buf) == Fail([])
    ensures Acceptable(f, max) && |buf| < 6 + f.ext + |f.data| ==>
      React(max, WantFrame, buf) == Expand(6 + f.ext + |f.data| - |buf|, WantFrame, [])
  {
  }

  /** The whole frame in the buffer has its effect. */
  lemma FullFrame(f: Frame, max: nat, s: seq<byte>)
    requires f.Valid() && Speakable(f) && Acceptable(f, max)
    requires Shows(f, s) && |s| == 6 + f.ext + |f.data| && s[6 + f.ext..] == Masked(f.key, f.data)
    ensures React(max, WantFrame, s) ==
      if f.op == OP_CLOSE then Halt(Effect(f)) else Reset(2, WantOpcode, Effect(f))
  {
    MaskTwice(f.key, f.data);
    assert s[6 + f.ext..6 + f.ext + |f.data|] == s[6 + f.ext..];
  }

  /** The octets up to the first target leave the buffer with the header shown. */
  lemma UpToTarget(f: Frame, s: seq<byte>, max: nat, events: seq<Event>)
    requires f.Valid() && Admissible(f) && Shows(f, s) && |s| >= FirstTarget(f)
    ensures var t := s[..FirstTarget(f)];
            Shows(f, t) && Feed(Callback(max), Ready(events), t) == Apply(React(max, WantFrame, t), Rx(t, |t|, WantFrame, events, Reading))
  {
    var cb, n := Callback(max), FirstTarget(f);
    var t := s[..n];
    ShowsPrefix(f, s, t);
    HeaderTaken(f, t, max, events);
    FeedAppend(cb, Ready(events), t[..2], t[2..]);
    assert t[..2] + t[2..] == t;
    FeedChunk(cb, Rx(t[..2], n, WantFrame, events, Reading), t[2..]);
  }

  /** A frame longer than the first target: the target moves to its end. */
  lemma PartTaken(f: Frame, s: seq<byte>, max: nat, events: seq<Event>)
    requires IsFrame(f, s) && Admissible(f) && Acceptable(f, max) && |s| > FirstTarget(f)
    ensures var t := s[..FirstTarget(f)];
            Feed(Callback(max), Ready(events), t) == Rx(t, |s|, WantFrame, events, Reading)
  {
    UpToTarget(f, s, max, events);
    FrameReaction(f, max, s[..FirstTarget(f)]);
    assert events + [] == events;
  }

  lemma {:induction false} RestTaken(s: seq<byte>, n: nat, max: nat, events: seq<Event>)
    requires n < |s| && Feed(Callback(max), Ready(events), s[..n]) == Rx(s[..n], |s|, WantFrame, events, Reading)
    ensures Feed(Callback(max), Ready(events), s) == Apply(React(max, WantFrame, s), Rx(s, |s|, WantFrame, events, Reading))
  {
    FeedAppend(Callback(max), Ready(events), s[..n], s[n..]);
    assert s[..n] + s[n..] == s;
    FeedChunk(Callback(max), Rx(s[..n], |s|, WantFrame, events, Reading), s[n..]);
  }

  /** In any case the callback sees the whole frame. */
  lemma {:induction false} AllTaken(f: Frame, s: seq<byte>, max: nat, events: seq<Event>)
    requires IsFrame(f, s) && Admissible(f) && Acceptable(f, max)
    ensures Feed(Callback(max), Ready(events), s) == Apply(React(max, WantFrame, s), Rx(s, |s|, WantFrame, events, Reading))
  {
    var n := FirstTarget(f);
    if |s| == n {
      UpToTarget(f, s, max, events);
      assert s[..n] == s;
    } else {
      PartTaken(f, s, max, events);
      RestTaken(s, n, max, events);
    }
  }

  /** A frame in an acceptable form has its effect; unless it closes, the next one can follow. */
  lemma {:induction false} FrameTaken(f: Frame, s: seq<byte>, max: nat, events: seq<Event>)
    requires IsFrame(f, s) && Speakable(f) && Acceptable(f, max)
    ensures var rx := Feed(Callback(max), Ready(events), s);
            && rx.events == events + Effect(f)
            && (if f.op == OP_CLOSE then !rx.status.Reading? else rx == Ready(events + Effect(f)))
  {
    AllTaken(f, s, max, events);
    FullFrame(f, max, s);
  }

  /** What the first two octets must say: a mask, no reserved bit, a known opcode, and control frames that are
      final and short. */
  ghost predicate Opens(s: seq<byte>)
    requires |s| >= 2
  {
    && TopBit(s[1]) && !Reserved(s[0]) && Opcode(s[0]) in {OP_CONT, OP_TEXT, OP_BINARY, OP_CLOSE, OP_PING, OP_PONG}
    && (Opcode(s[0]) in {OP_CLOSE, OP_PING, OP_PONG} ==> Low7(s[1]) <= SINGLE && TopBit(s[0]))
  }

  /** Any octets that do not open like this end the connection, with no effect, whatever follows them. */
  lemma {:induction false} HeaderRefused(s: seq<byte>, max: nat, events: seq<Event>)
    requires |s| >= 2
    ensures Feed(Callback(max), Ready(events), s[..2]).status.Reading? <==> Opens(s)
    ensures !Opens(s) ==> Feed(Callback(max), Ready(events), s) == Rx(s[..2], 2, WantOpcode, events, Failed)
  {
    var cb, rx := Callback(max), Ready(events);
    FeedChunk(cb, rx, s[..2]);
    assert [] + s[..2] == s[..2] && events + [] == events;
    FeedAppend(cb, rx, s[..2], s[2..]);
    assert s[..2] + s[2..] == s;
    if !Opens(s) {
      FeedClosed(cb, Feed(cb, rx, s[..2]), s[2..]);
    }
  }

  /** A frame of any other kind or form never has an effect, whatever follows it; of a continuation it is
      logged that there is no support for it, and the connection ends. */
  lemma {:induction false} FrameRefused(f: Frame, s: seq<byte>, max: nat, events: seq<Event>, rest: seq<byte>)
    requires IsFrame(f, s) && !(Speakable(f) && Acceptable(f, max))
    ensures Feed(Callback(max), Ready(events), s + rest).events ==
      events + if f.op == OP_CONT && Acceptable(f, max) then [Unsupported] else []
  {
    var t, n := s + rest, FirstTarget(f);
    assert events + [] == events;
    if f.op == OP_CONT && Acceptable(f, max) {
      ContinuationRefused(f, s, max, events, rest);
    } else {
      assert s[..6 + f.ext] == t[..6 + f.ext];
      ShowsPrefix(f, s, t);
      if !Admissible(f) {
        HeaderRefused(t, max, events);
      } else if |t| < n {
        TooShort(f, t, max, events);
      } else {
        Refused(f, t, max, events);
      }
    }
  }

  lemma {:induction false} ContinuationRefused(f: Frame, s: seq<byte>, max: nat, events: seq<Event>, rest: seq<byte>)
    requires IsFrame(f, s) && f.op == OP_CONT && Acceptable(f, max)
    ensures Feed(Callback(max), Ready(events), s + rest).events == events + [Unsupported]
  {
    var cb := Callback(max);
    AllTaken(f, s, max, events);
    FeedAppend(cb, Ready(events), s, rest);
    FeedClosed(cb, Feed(cb, Ready(events), s), rest);
  }

  lemma {:induction false} TooShort(f: Frame, t: seq<byte>, max: nat, events: seq<Event>)
    requires f.Valid() && Admissible(f) && Shows(f, t) && |t| < FirstTarget(f)
    ensures Feed(Callback(max), Ready(events), t).events == events
  {
    var cb := Callback(max);
    HeaderTaken(f, t, max, events);
    FeedAppend(cb, Ready(events), t[..2], t[2..]);
    assert t[..2] + t[2..] == t;
    FeedChunk(cb, Rx(t[..2], FirstTarget(f), WantFrame, events, Reading), t[2..]);
  }

  lemma {:induction false} Refused(f: Frame, t: seq<byte>, max: nat, events: seq<Event>)
    requires f.Valid() && Admissible(f) && !Acceptable(f, max) && Shows(f, t) && |t| >= FirstTarget(f)
    ensures Feed(Callback(max), Ready(events), t).events == events
  {
    var cb, n := Callback(max), FirstTarget(f);
    UpToTarget(f, t, max, events);
    FrameReaction(f, max, t[..n]);
    assert events + [] == events;
    FeedAppend(cb, Ready(events), t[..n], t[n..]);
    assert t[..n] + t[n..] == t;
    FeedClosed(cb, Feed(cb, Ready(events), t[..n]), t[n..]);
  }

  // ---- In the numerals of RFC 6455 ----

  /** Frames of section 5.2 of RFC 6455 with a payload of at most 125 octets: 0x81 is a text, 0x82 is binary data,
      0x88 closes, 0x89 is a ping and 0x8a a pong; octet `i` of the payload is masked with octet `i` modulo 4 of
      the key (section 5.3). */
  lemma ShortFrame(first: byte, second: byte, key: seq<byte>, payload: seq<byte>, masked: seq<byte>, max: nat, events: seq<Event>)
    requires |key| == 4 && |payload| <= 125 && |payload| <= max && Val(second) == 128 + |payload|
    requires |masked| == |payload| && forall i :: 0 <= i < |payload| ==> masked[i] == payload[i] ^ key[i % 4]
    requires first in {0x81, 0x82, 0x88, 0x89, 0x8a}
    ensures Feed(Callback(max), Ready(events), [first, second] + key + masked).events == events +
      if first == 0x81 then [Message(1, payload)]
      else if first == 0x82 then [Message(2, payload)]
      else if first == 0x88 then [Closed]
      else if first == 0x89 then [Pong(payload)]
      else []
  {
    var s := [first, second] + key + masked;
    var f := Frame(true, Opcode(first), 0, key, payload);
    FirstOctet(first);
    SecondOctet(second, |payload|);
    assert masked == Masked(key, payload);
    assert s[2..6] == key && s[6..] == masked;
    FrameTaken(f, s, max, events);
  }

  lemma FirstOctet(b: byte)
    requires b in {0x81, 0x82, 0x88, 0x89, 0x8a}
    ensures TopBit(b) && !Reserved(b)
    ensures Opcode(b) == if b == 0x81 then 1 else if b == 0x82 then 2 else if b == 0x88 then 8 else if b == 0x89 then 9 else 10
  {
  }

  lemma SecondOctet(b: byte, n: nat)
    requires n < 128 && Val(b) == 128 + n
    ensures TopBit(b) && Low7(b) == n
  {
  }

  /** What `websocket_frame_build` writes: the final bit and the opcode, the length in its shortest form, no mask. */
  lemma BuildInNumerals(op: nat, data: seq<byte>)
    requires op < 16 && |data| < TWO64
    ensures var f := FrameBuild(op, data);
            && |f| >= 2 && Val(f[0]) == 128 + op
            && (|data| <= 125 ==> Val(f[1]) == |data| && f[2..] == data)
            && (125 < |data| <= 65535 ==> |f| >= 4 && Val(f[1]) == 126 && FromBigEndian(f[2..4]) == |data| && f[4..] == data)
            && (65535 < |data| ==> |f| >= 10 && Val(f[1]) == 127 && FromBigEndian(f[2..10]) == |data| && f[10..] == data)
  {
    var len1 := if |data| > 125 then (if |data| <= 0xffff then 126 else 127) else |data|;
    var ext := if |data| > 125 then (if |data| <= 0xffff then 2 else 8) else 0;
    var e := Extended(|data|, len1);
    FinalBit(op);
    SevenBits(len1);
    ExtendedBack(|data|, len1, ext);
    BuiltParts(FrameBuild(op, data), e, data);
  }

  lemma BuiltParts(f: seq<byte>, e: seq<byte>, data: seq<byte>)
    requires |f| >= 2 && f == [f[0], f[1]] + e + data
    ensures f[2..2 + |e|] == e && f[2 + |e|..] == data
  {
  }

  lemma FinalBit(op: nat)
    requires op < 16
    ensures Val(Octet(op) | 0x80) == 128 + op
  {
    HeaderBits(true, op);
  }

  function Effects(fs: seq<Frame>): (events: seq<Event>) {
    if fs == [] then [] else Effect(fs[0]) + Effects(fs[1..])
  }

  ghost predicate Turn(f: Frame, s: seq<byte>, max: nat) {
    IsFrame(f, s) && Speakable(f) && Acceptable(f, max) && f.op != OP_CLOSE
  }

  /** The octets `ss` are the frames `fs`, and every one of them is of a kind and form that is accepted. */
  ghost predicate Talk(fs: seq<Frame>, ss: seq<seq<byte>>, max: nat) {
    |fs| == |ss| && forall i {:trigger Turn(fs[i], ss[i], max)} :: 0 <= i < |fs| ==> Turn(fs[i], ss[i], max)
  }

  lemma TalkSplit(fs: seq<Frame>, ss: seq<seq<byte>>, max: nat)
    requires Talk(fs, ss, max) && fs != []
    ensures Turn(fs[0], ss[0], max) && Talk(fs[1..], ss[1..], max)
  {
    assert Turn(fs[0], ss[0], max);
    forall i | 0 <= i < |fs[1..]|
      ensures Turn(fs[1..][i], ss[1..][i], max)
    {
      assert Turn(fs[i + 1], ss[i + 1], max);
    }
  }

  /** One frame, and then the rest. */
  lemma {:induction false} TurnTaken(f: Frame, s: seq<byte>, max: nat, events: seq<Event>, rest: seq<byte>)
    requires Turn(f, s, max)
    ensures Feed(Callback(max), Ready(events), s + rest) == Feed(Callback(max), Ready(events + Effect(f)), rest)
  {
    FeedAppend(Callback(max), Ready(events), s, rest);
    FrameTaken(f, s, max, events);
  }

  /** Any conversation: the handler gets the payloads unmasked and in order, pings are answered, and
      nothing else happens. With `Receiver.RecvFlush` this holds however the octets are cut into reads. */
  lemma {:induction false} Conversation(fs: seq<Frame>, ss: seq<seq<byte>>, max: nat, events: seq<Event>)
    requires Talk(fs, ss, max)
    ensures Feed(Callback(max), Ready(events), Flatten(ss)) == Ready(events + Effects(fs))
    decreases |fs|
  {
    if fs == [] {
      assert events + [] == events;
    } else {
      Assoc(events, Effect(fs[0]), Effects(fs[1..]));
      TalkSplit(fs, ss, max);
      Conversation(fs[1..], ss[1..], max, events + Effect(fs[0]));
      TurnTaken(fs[0], ss[0], max, events, Flatten(ss[1..]));
    }
  }

  lemma TalkPart(fs: seq<Frame>, ss: seq<seq<byte>>, max: nat, k: nat)
    requires Talk(fs, ss, max) && k <= |fs|
    ensures Talk(fs[..k], ss[..k], max)
  {
    forall i | 0 <= i < k
      ensures Turn(fs[..k][i], ss[..k][i], max)
    {
      assert Turn(fs[i], ss[i], max);
    }
  }

  /** A conversation cut off anywhere: the effects so far are the first ones, in order, and those of every frame
      that was read in full are among them. */
  lemma {:induction false} ConversationSoFar(fs: seq<Frame>, ss: seq<seq<byte>>, max: nat, taken: seq<byte>, k: nat)
    requires Talk(fs, ss, max) && taken <= Flatten(ss)
    requires k <= |fs| && Flatten(ss[..k]) <= taken
    ensures Effects(fs[..k]) <= Feed(Callback(max), Ready([]), taken).events <= Effects(fs)
  {
    var cb, rx, all, done := Callback(max), Ready([]), Flatten(ss), Flatten(ss[..k]);
    TalkPart(fs, ss, max, k);
    Conversation(fs, ss, max, []);
    Conversation(fs[..k], ss[..k], max, []);
    assert [] + Effects(fs) == Effects(fs) && [] + Effects(fs[..k]) == Effects(fs[..k]);
    assert all == taken + all[|taken|..] && taken == done + taken[|done|..];
    FeedAppend(cb, rx, taken, all[|taken|..]);
    EventsGrow(cb, Feed(cb, rx, taken), all[|taken|..]);
    FeedAppend(cb, rx, done, taken[|done|..]);
    EventsGrow(cb, Feed(cb, rx, done), taken[|done|..]);
  }

  /** A close frame ends it: what the peer sends afterwards is not read. */
  lemma {:induction false} NothingAfterClose(fs: seq<Frame>, ss: seq<seq<byte>>, close: Frame, s: seq<byte>, max: nat, rest: seq<byte>)
    requires Talk(fs, ss, max)
    requires IsFrame(close, s) && Speakable(close) && Acceptable(close, max) && close.op == OP_CLOSE
    ensures Feed(Callback(max), Ready([]), Flatten(ss) + (s + rest)).events == Effects(fs) + [Closed]
  {
    var cb := Callback(max);
    Conversation(fs, ss, max, []);
    assert [] + Effects(fs) == Effects(fs);
    FeedAppend(cb, Ready([]), Flatten(ss), s + rest);
    FeedAppend(cb, Ready(Effects(fs)), s, rest);
    FrameTaken(close, s, max, Effects(fs));
    FeedClosed(cb, Feed(cb, Ready(Effects(fs)), s), rest);
  }
}
