/** SHA1Transform of `sha1.c`, for any arithmetic on words: its eighty rounds in place against the compression
    function of section 6.1.2 of FIPS 180-4. */
module Sha1Rounds {
  import opened Bytes

  datatype Ops<!W(!new)> = Ops(
    add: (W, W) -> W,
    rol5: W -> W,
    rol30: W -> W,
    mix: (W, W, W, W) -> W,        // exclusive or of four words, rotated by one
    f: (nat, W, W, W) -> W,        // the function of the standard for round `t`
    form: (nat, W, W, W) -> W,     // and as R0 to R4 write it
    k: nat -> W,
    load: seq<byte> -> W,          // most significant octet first
    raw: seq<byte> -> W,           // as the machine has it
    swap: W -> W)                  // blk0

  /** All that is needed of the arithmetic. */
  ghost predicate Lawful<W(!new)>(o: Ops<W>) {
    && (forall x, y :: Commutes(o, x, y))
    && (forall x, y, z :: Associates(o, x, y, z))
    && (forall t, x, y, z :: Agrees(o, t, x, y, z))
    && (forall s :: Swaps(o, s))
  }

  ghost predicate Commutes<W(!new)>(o: Ops<W>, x: W, y: W) {
    o.add(x, y) == o.add(y, x)
  }

  ghost predicate Associates<W(!new)>(o: Ops<W>, x: W, y: W, z: W) {
    o.add(o.add(x, y), z) == o.add(x, o.add(y, z))
  }

  ghost predicate Agrees<W(!new)>(o: Ops<W>, t: nat, x: W, y: W, z: W) {
    o.form(t, x, y, z) == o.f(t, x, y, z)
  }

  ghost predicate Swaps<W(!new)>(o: Ops<W>, s: seq<byte>) {
    |s| == 4 ==> o.swap(o.raw(s)) == o.load(s)
  }

  datatype Regs<W> = Regs(a: W, b: W, c: W, d: W, e: W)

  // ---- The standard ----

  function Schedule<W(!new)>(o: Ops<W>, m: seq<W>, t: nat): (w: W)
    requires |m| == 16
  {
    if t < 16 then m[t]
    else o.mix(Schedule(o, m, t - 3), Schedule(o, m, t - 8), Schedule(o, m, t - 14), Schedule(o, m, t - 16))
  }

  function Round<W(!new)>(o: Ops<W>, r: Regs<W>, t: nat, w: W): (r': Regs<W>) {
    Regs(o.add(o.add(o.add(o.add(o.rol5(r.a), o.f(t, r.b, r.c, r.d)), r.e), o.k(t)), w), r.a, o.rol30(r.b), r.c, r.d)
  }

  function Rounds<W(!new)>(o: Ops<W>, m: seq<W>, r: Regs<W>, t: nat): (r': Regs<W>)
    requires |m| == 16
  {
    if t == 0 then r else Round(o, Rounds(o, m, r, t - 1), t - 1, Schedule(o, m, t - 1))
  }

  function WordAt(block: seq<byte>, j: nat): (s: seq<byte>)
    requires |block| == 64 && j < 16
    ensures |s| == 4
  {
    block[4 * j..4 * j + 4]
  }

  function Words<W>(load: seq<byte> -> W, block: seq<byte>): (m: seq<W>)
    requires |block| == 64
    ensures |m| == 16
  {
    seq(16, j requires 0 <= j < 16 => load(WordAt(block, j)))
  }

  function Compress<W(!new)>(o: Ops<W>, s: seq<W>, block: seq<byte>): (s': seq<W>)
    requires |s| == 5 && |block| == 64
    ensures |s'| == 5
  {
    var r := Rounds(o, Words(o.load, block), Regs(s[0], s[1], s[2], s[3], s[4]), 80);
    [o.add(s[0], r.a), o.add(s[1], r.b), o.add(s[2], r.c), o.add(s[3], r.d), o.add(s[4], r.e)]
  }

  // ---- The schedule in the copy of the block ----

  /** Before round `j` the copy holds the last sixteen words of the schedule, and of a block that is still being
      read the words to come as the machine has them. */
  ghost predicate Workspace<W(!new)>(o: Ops<W>, block: seq<byte>, w: seq<W>, j: nat) {
    && |block| == 64 && |w| == 16
    && (forall i: nat :: j - 16 <= i < j ==> w[i % 16] == Schedule(o, Words(o.load, block), i))
    && (forall i: nat :: j <= i < 16 ==> w[i] == o.raw(WordAt(block, i)))
  }

  /** `blk0` and `blk` */
  function Block<W(!new)>(o: Ops<W>, w: seq<W>, j: nat): (x: W)
    requires |w| == 16
  {
    if j < 16 then o.swap(w[j]) else o.mix(w[(j + 13) % 16], w[(j + 8) % 16], w[(j + 2) % 16], w[j % 16])
  }

  lemma {:induction false} BlockIsScheduled<W(!new)>(o: Ops<W>, block: seq<byte>, w: seq<W>, j: nat)
    requires Lawful(o) && Workspace(o, block, w, j)
    ensures Block(o, w, j) == Schedule(o, Words(o.load, block), j)
  {
    if j < 16 {
      assert Swaps(o, WordAt(block, j));
    } else {
      var m := Words(o.load, block);
      assert (j - 3) % 16 == (j + 13) % 16 && (j - 8) % 16 == (j + 8) % 16 && (j - 14) % 16 == (j + 2) % 16 && (j - 16) % 16 == j % 16;
      assert w[(j - 3) % 16] == Schedule(o, m, j - 3) && w[(j - 8) % 16] == Schedule(o, m, j - 8);
      assert w[(j - 14) % 16] == Schedule(o, m, j - 14) && w[(j - 16) % 16] == Schedule(o, m, j - 16);
    }
  }

  lemma {:induction false} WorkspaceStep<W(!new)>(o: Ops<W>, block: seq<byte>, w: seq<W>, j: nat)
    requires Workspace(o, block, w, j)
    ensures Workspace(o, block, w[j % 16 := Schedule(o, Words(o.load, block), j)], j + 1)
  {
    var w' := w[j % 16 := Schedule(o, Words(o.load, block), j)];
    forall i: nat | j + 1 - 16 <= i < j + 1
      ensures w'[i % 16] == Schedule(o, Words(o.load, block), i)
    {
      if i < j {
        assert i % 16 != j % 16;
      }
    }
  }

  // ---- The rounds ----

  /** R0 to R4 change two of the registers they are given, the last and the second. */
  function Macro<W(!new)>(o: Ops<W>, v: W, w: W, x: W, y: W, z: W, t: nat, word: W): (zw: (W, W)) {
    (o.add(z, o.add(o.add(o.add(o.form(t, w, x, y), word), o.k(t)), o.rol5(v))), o.rol30(w))
  }

  lemma Exchange<W(!new)>(o: Ops<W>, x: W, y: W, z: W)
    requires Lawful(o)
    ensures o.add(x, o.add(y, z)) == o.add(y, o.add(x, z))
  {
    assert Associates(o, x, y, z) && Commutes(o, x, y) && Associates(o, y, x, z);
  }

  /** The two ways of adding up the five summands. */
  lemma SameSum<W(!new)>(o: Ops<W>, v: W, f: W, z: W, k: W, word: W)
    requires Lawful(o)
    ensures o.add(z, o.add(o.add(o.add(f, word), k), v)) == o.add(o.add(o.add(o.add(v, f), z), k), word)
  {
    var x := o.add(o.add(f, word), k);
    var kw := o.add(k, word);
    assert Commutes(o, x, v);
    Exchange(o, z, v, x);
    assert Associates(o, f, word, k) && Commutes(o, word, k);
    assert x == o.add(f, kw);
    Exchange(o, z, f, kw);
    assert Associates(o, o.add(o.add(v, f), z), k, word);
    assert Associates(o, o.add(v, f), z, kw);
    assert Associates(o, v, f, o.add(z, kw));
  }

  /** Using a macro is a round, with every register named one position further. */
  lemma MacroIsRound<W(!new)>(o: Ops<W>, r: Regs<W>, t: nat, word: W)
    requires Lawful(o)
    ensures var zw := Macro(o, r.a, r.b, r.c, r.d, r.e, t, word);
            Regs(zw.0, r.a, zw.1, r.c, r.d) == Round(o, r, t, word)
  {
    assert Agrees(o, t, r.b, r.c, r.d);
    SameSum(o, o.rol5(r.a), o.f(t, r.b, r.c, r.d), r.e, o.k(t), word);
  }

  /** Before round `j`: the registers are those of the standard, and so is the schedule. */
  ghost predicate At<W(!new)>(o: Ops<W>, block: seq<byte>, init: Regs<W>, w: seq<W>, j: nat, r: Regs<W>) {
    Workspace(o, block, w, j) && r == Rounds(o, Words(o.load, block), init, j)
  }

  /** One use of a macro, seen from the registers as they are then named. */
  lemma StepAt<W(!new)>(o: Ops<W>, block: seq<byte>, init: Regs<W>, w: seq<W>, j: nat, r: Regs<W>)
    requires Lawful(o) && At(o, block, init, w, j, r)
    ensures var word := Block(o, w, j);
            var zw := Macro(o, r.a, r.b, r.c, r.d, r.e, j, word);
            At(o, block, init, w[j % 16 := word], j + 1, Regs(zw.0, r.a, zw.1, r.c, r.d))
  {
    BlockIsScheduled(o, block, w, j);
    WorkspaceStep(o, block, w, j);
    MacroIsRound(o, r, j, Block(o, w, j));
  }

  /** Five uses in a row; every register is back at its own name. */
  function FiveRounds<W(!new)>(o: Ops<W>, w: seq<W>, j: nat, r: Regs<W>): (wr: (seq<W>, Regs<W>))
    requires |w| == 16
    ensures |wr.0| == 16
  {
    var Regs(a, b, c, d, e) := r;
    var w := w[j % 16 := Block(o, w, j)];
    var (e, b) := Macro(o, a, b, c, d, e, j, w[j % 16]);
    var w := w[(j + 1) % 16 := Block(o, w, j + 1)];
    var (d, a) := Macro(o, e, a, b, c, d, j + 1, w[(j + 1) % 16]);
    var w := w[(j + 2) % 16 := Block(o, w, j + 2)];
    var (c, e) := Macro(o, d, e, a, b, c, j + 2, w[(j + 2) % 16]);
    var w := w[(j + 3) % 16 := Block(o, w, j + 3)];
    var (b, d) := Macro(o, c, d, e, a, b, j + 3, w[(j + 3) % 16]);
    var w := w[(j + 4) % 16 := Block(o, w, j + 4)];
    var (a, c) := Macro(o, b, c, d, e, a, j + 4, w[(j + 4) % 16]);
    (w, Regs(a, b, c, d, e))
  }

  lemma FiveRoundsAt<W(!new)>(o: Ops<W>, block: seq<byte>, init: Regs<W>, w: seq<W>, j: nat, r: Regs<W>)
    requires Lawful(o) && At(o, block, init, w, j, r)
    ensures var wr := FiveRounds(o, w, j, r);
            At(o, block, init, wr.0, j + 5, wr.1)
  {
    var Regs(a, b, c, d, e) := r;
    StepAt(o, block, init, w, j, r);
    var w1 := w[j % 16 := Block(o, w, j)];
    var (e1, b1) := Macro(o, a, b, c, d, e, j, w1[j % 16]);
    StepAt(o, block, init, w1, j + 1, Regs(e1, a, b1, c, d));
    var w2 := w1[(j + 1) % 16 := Block(o, w1, j + 1)];
    var (d1, a1) := Macro(o, e1, a, b1, c, d, j + 1, w2[(j + 1) % 16]);
    StepAt(o, block, init, w2, j + 2, Regs(d1, e1, a1, b1, c));
    var w3 := w2[(j + 2) % 16 := Block(o, w2, j + 2)];
    var (c1, e2) := Macro(o, d1, e1, a1, b1, c, j + 2, w3[(j + 2) % 16]);
    StepAt(o, block, init, w3, j + 3, Regs(c1, d1, e2, a1, b1));
    var w4 := w3[(j + 3) % 16 := Block(o, w3, j + 3)];
    var (b2, d2) := Macro(o, c1, d1, e2, a1, b1, j + 3, w4[(j + 3) % 16]);
    StepAt(o, block, init, w4, j + 4, Regs(b2, c1, d2, e2, a1));
  }

  method Turn<W(!new)>(o: Ops<W>, ghost block: seq<byte>, ghost init: Regs<W>, w: seq<W>, j: nat, r: Regs<W>) returns (w': seq<W>, r': Regs<W>)
    requires Lawful(o) && At(o, block, init, w, j, r)
    ensures At(o, block, init, w', j + 5, r')
  {
    FiveRoundsAt(o, block, init, w, j, r);
    var wr := FiveRounds(o, w, j, r);
    w', r' := wr.0, wr.1;
  }

  /** The uses of the macros, five at a time, compute the rounds of the standard. */
  method AllRounds<W(!new)>(o: Ops<W>, block: seq<byte>, init: Regs<W>, turns: nat) returns (r: Regs<W>)
    requires Lawful(o) && |block| == 64
    ensures r == Rounds(o, Words(o.load, block), init, 5 * turns)
  {
    var w := Words(o.raw, block);
    r := init;
    for i := 0 to turns
      invariant At(o, block, init, w, 5 * i, r)
    {
      w, r := Turn(o, block, init, w, 5 * i, r);
    }
  }

  /** SHA1Transform */
  method Transform<W(!new)>(o: Ops<W>, state: seq<W>, block: seq<byte>) returns (state': seq<W>)
    requires Lawful(o) && |state| == 5 && |block| == 64
    ensures state' == Compress(o, state, block)
  {
    var r := AllRounds(o, block, Regs(state[0], state[1], state[2], state[3], state[4]), 16);
    state' := [o.add(state[0], r.a), o.add(state[1], r.b), o.add(state[2], r.c), o.add(state[3], r.d), o.add(state[4], r.e)];
  }
}
