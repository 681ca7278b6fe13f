/** `sha2.c`, once for every word size: the rolled and the unrolled transform, both against the compression
    function of sections 6.2.2 and 6.4.2 of FIPS 180-4, and the incremental interface around them. */
module Sha2 {
  import opened Bytes
  import opened Blocks

  /** What the SHA-256 and SHA-512 macros differ in. */
  datatype Arith<!W(!new)> = Arith(
    size: nat,                                // octets in a word
    add: (W, W) -> W,
    bigSigma0: W -> W,
    bigSigma1: W -> W,
    smallSigma0: W -> W,
    smallSigma1: W -> W,
    ch: (W, W, W) -> W,
    maj: (W, W, W) -> W,
    load: seq<byte> -> W,                     // BE_8_TO_32, BE_8_TO_64
    store: W -> seq<byte>,                    // BE_32_TO_8, BE_64_TO_8
    k: seq<W>)                                // K256, K512

  /** All that is needed of the arithmetic: addition wraps around like addition modulo a power of two. */
  ghost predicate Lawful<W(!new)>(ar: Arith<W>) {
    && ar.size > 0 && |ar.k| >= 16 && |ar.k| % 8 == 0
    && (forall x, y :: Commutes(ar, x, y))
    && (forall x, y, z :: Associates(ar, x, y, z))
    && (forall x {:trigger ar.store(x)} :: |ar.store(x)| == ar.size)
  }

  ghost predicate Commutes<W(!new)>(ar: Arith<W>, x: W, y: W) {
    ar.add(x, y) == ar.add(y, x)
  }

  ghost predicate Associates<W(!new)>(ar: Arith<W>, x: W, y: W, z: W) {
    ar.add(ar.add(x, y), z) == ar.add(x, ar.add(y, z))
  }

  /** The eight working variables. */
  datatype Regs<W> = Regs(a: W, b: W, c: W, d: W, e: W, f: W, g: W, h: W)

  // ---- The standard ----

  /** The message schedule, in full. */
  function Schedule<W(!new)>(ar: Arith<W>, m: seq<W>, t: nat): (w: W)
    requires |m| == 16
  {
    if t < 16 then m[t]
    else ar.add(ar.add(ar.add(ar.smallSigma1(Schedule(ar, m, t - 2)), Schedule(ar, m, t - 7)),
                       ar.smallSigma0(Schedule(ar, m, t - 15))), Schedule(ar, m, t - 16))
  }

  function T1<W(!new)>(ar: Arith<W>, r: Regs<W>, k: W, w: W): (t: W) {
    ar.add(ar.add(ar.add(ar.add(r.h, ar.bigSigma1(r.e)), ar.ch(r.e, r.f, r.g)), k), w)
  }

  function T2<W(!new)>(ar: Arith<W>, r: Regs<W>): (t: W) {
    ar.add(ar.bigSigma0(r.a), ar.maj(r.a, r.b, r.c))
  }

  function Round<W(!new)>(ar: Arith<W>, r: Regs<W>, k: W, w: W): (r': Regs<W>) {
    Regs(ar.add(T1(ar, r, k, w), T2(ar, r)), r.a, r.b, r.c, ar.add(r.d, T1(ar, r, k, w)), r.e, r.f, r.g)
  }

  function Rounds<W(!new)>(ar: Arith<W>, m: seq<W>, r: Regs<W>, t: nat): (r': Regs<W>)
    requires |m| == 16 && t <= |ar.k|
  {
    if t == 0 then r else Round(ar, Rounds(ar, m, r, t - 1), ar.k[t - 1], Schedule(ar, m, t - 1))
  }

  function Working<W>(s: seq<W>): (r: Regs<W>)
    requires |s| == 8
  {
    Regs(s[0], s[1], s[2], s[3], s[4], s[5], s[6], s[7])
  }

  function AddInto<W(!new)>(ar: Arith<W>, s: seq<W>, r: Regs<W>): (s': seq<W>)
    requires |s| == 8
    ensures |s'| == 8
  {
    [ar.add(s[0], r.a), ar.add(s[1], r.b), ar.add(s[2], r.c), ar.add(s[3], r.d),
     ar.add(s[4], r.e), ar.add(s[5], r.f), ar.add(s[6], r.g), ar.add(s[7], r.h)]
  }

  /** The words of a block. */
  function Words<W(!new)>(ar: Arith<W>, block: seq<byte>): (m: seq<W>)
    requires |block| == 16 * ar.size
    ensures |m| == 16
  {
    seq(16, j requires 0 <= j < 16 => ar.load(WordAt(block, ar.size, j)))
  }

  function WordAt(block: seq<byte>, size: nat, j: nat): (s: seq<byte>)
    requires |block| == 16 * size && j < 16
  {
    MulBound(size, j);
    block[j * size..(j + 1) * size]
  }

  lemma MulBound(size: nat, j: nat)
    requires j < 16
    ensures 0 <= j * size <= (j + 1) * size <= 16 * size
  {
  }

  function Compress<W(!new)>(ar: Arith<W>, s: seq<W>, block: seq<byte>): (s': seq<W>)
    requires |s| == 8 && |block| == 16 * ar.size
    ensures |s'| == 8
  {
    AddInto(ar, s, Rounds(ar, Words(ar, block), Working(s), |ar.k|))
  }

  // ---- The circular schedule ----

  /** The last sixteen words of the schedule before `j`, each at its index modulo 16. */
  ghost predicate Circular<W(!new)>(ar: Arith<W>, m: seq<W>, w: seq<W>, j: nat)
    requires |m| == 16
  {
    |w| == 16 && forall i: nat :: j - 16 <= i < j ==> w[i % 16] == Schedule(ar, m, i)
  }

  /** `W[j & 15] += s1 + W[(j + 9) & 15] + s0` is the next word of the full schedule. */
  function NextWord<W(!new)>(ar: Arith<W>, w: seq<W>, j: nat): (x: W)
    requires |w| == 16
  {
    ar.add(w[j % 16], ar.add(ar.add(ar.smallSigma1(w[(j + 14) % 16]), w[(j + 9) % 16]), ar.smallSigma0(w[(j + 1) % 16])))
  }

  lemma {:induction false} NextWordIsScheduled<W(!new)>(ar: Arith<W>, m: seq<W>, w: seq<W>, j: nat)
    requires Lawful(ar) && |m| == 16 && j >= 16 && Circular(ar, m, w, j)
    ensures NextWord(ar, w, j) == Schedule(ar, m, j)
    ensures Circular(ar, m, w[j % 16 := Schedule(ar, m, j)], j + 1)
  {
    assert (j - 2) % 16 == (j + 14) % 16 && (j - 7) % 16 == (j + 9) % 16 && (j - 15) % 16 == (j + 1) % 16 && (j - 16) % 16 == j % 16;
    assert w[(j - 2) % 16] == Schedule(ar, m, j - 2) && w[(j - 7) % 16] == Schedule(ar, m, j - 7);
    assert w[(j - 15) % 16] == Schedule(ar, m, j - 15) && w[(j - 16) % 16] == Schedule(ar, m, j - 16);
    var rest := ar.add(ar.add(ar.smallSigma1(w[(j + 14) % 16]), w[(j + 9) % 16]), ar.smallSigma0(w[(j + 1) % 16]));
    assert Commutes(ar, w[j % 16], rest);
    CircularStep(ar, m, w, j);
  }

  lemma {:induction false} CircularStep<W(!new)>(ar: Arith<W>, m: seq<W>, w: seq<W>, j: nat)
    requires |m| == 16 && Circular(ar, m, w, j)
    ensures Circular(ar, m, w[j % 16 := Schedule(ar, m, j)], j + 1)
  {
    var w' := w[j % 16 := Schedule(ar, m, j)];
    forall i: nat | j + 1 - 16 <= i < j + 1
      ensures w'[i % 16] == Schedule(ar, m, i)
    {
      if i < j {
        assert i % 16 != j % 16;
      }
    }
  }

  /** One word of the schedule: loaded from the block for the first sixteen rounds, computed in place after. */
  function Expand<W(!new)>(ar: Arith<W>, block: seq<byte>, w: seq<W>, j: nat): (w': seq<W>)
    requires |block| == 16 * ar.size && |w| == 16
    ensures |w'| == 16
  {
    w[j % 16 := if j < 16 then ar.load(WordAt(block, ar.size, j)) else NextWord(ar, w, j)]
  }

  lemma {:induction false} ExpandIsScheduled<W(!new)>(ar: Arith<W>, block: seq<byte>, w: seq<W>, j: nat)
    requires Lawful(ar) && |block| == 16 * ar.size && Circular(ar, Words(ar, block), w, j)
    ensures Circular(ar, Words(ar, block), Expand(ar, block, w, j), j + 1)
    ensures Expand(ar, block, w, j)[j % 16] == Schedule(ar, Words(ar, block), j)
  {
    if j < 16 {
      CircularStep(ar, Words(ar, block), w, j);
    } else {
      NextWordIsScheduled(ar, Words(ar, block), w, j);
    }
  }

  // ---- The transforms ----

  /** The registers before every round up to `n`, as the standard has them. */
  ghost function Trace<W(!new)>(ar: Arith<W>, m: seq<W>, init: Regs<W>, n: nat): (t: seq<Regs<W>>)
    requires |m| == 16 && n <= |ar.k|
    ensures |t| == n + 1
  {
    if n == 0 then [init] else Trace(ar, m, init, n - 1) + [Rounds(ar, m, init, n)]
  }

  lemma {:induction false} TraceIsRounds<W(!new)>(ar: Arith<W>, m: seq<W>, init: Regs<W>, n: nat, t: nat)
    requires |m| == 16 && t <= n <= |ar.k|
    ensures Trace(ar, m, init, n)[t] == Rounds(ar, m, init, t)
    decreases n
  {
    if t < n {
      TraceIsRounds(ar, m, init, n - 1, t);
    }
  }

  /** Before round `j`: the registers are those of the standard, and so are the last words of the schedule. */
  ghost predicate At<W(!new)>(ar: Arith<W>, block: seq<byte>, init: Regs<W>, w: seq<W>, j: nat, r: Regs<W>) {
    && |block| == 16 * ar.size && j <= |ar.k|
    && Circular(ar, Words(ar, block), w, j) && r == Trace(ar, Words(ar, block), init, |ar.k|)[j]
  }

  /** The body of the rolled loop: the registers shift by one position. */
  function Shift<W(!new)>(ar: Arith<W>, r: Regs<W>, k: W, w: W): (r': Regs<W>) {
    var t1 := ar.add(ar.add(ar.add(ar.add(r.h, ar.bigSigma1(r.e)), ar.ch(r.e, r.f, r.g)), k), w);
    var t2 := ar.add(ar.bigSigma0(r.a), ar.maj(r.a, r.b, r.c));
    Regs(ar.add(t1, t2), r.a, r.b, r.c, ar.add(r.d, t1), r.e, r.f, r.g)
  }

  /** The ROUND macros change two of the registers they are given, the fourth and the last. */
  function Macro<W(!new)>(ar: Arith<W>, a: W, b: W, c: W, d: W, e: W, f: W, g: W, h: W, k: W, w: W): (dh: (W, W)) {
    var t1 := ar.add(ar.add(ar.add(ar.add(h, ar.bigSigma1(e)), ar.ch(e, f, g)), k), w);
    (ar.add(d, t1), ar.add(ar.add(t1, ar.bigSigma0(a)), ar.maj(a, b, c)))
  }

  /** Using the macro is a round, with every register named one position further. */
  lemma MacroIsRound<W(!new)>(ar: Arith<W>, r: Regs<W>, k: W, w: W)
    requires Lawful(ar)
    ensures var dh := Macro(ar, r.a, r.b, r.c, r.d, r.e, r.f, r.g, r.h, k, w);
            Regs(dh.1, r.a, r.b, r.c, dh.0, r.e, r.f, r.g) == Round(ar, r, k, w)
  {
    assert Associates(ar, T1(ar, r, k, w), ar.bigSigma0(r.a), ar.maj(r.a, r.b, r.c));
  }

  /** One step of either transform, seen from the registers as they are then named. */
  lemma StepAt<W(!new)>(ar: Arith<W>, block: seq<byte>, init: Regs<W>, w: seq<W>, j: nat, r: Regs<W>)
    requires Lawful(ar) && j < |ar.k| && At(ar, block, init, w, j, r)
    ensures var w' := Expand(ar, block, w, j);
            var dh := Macro(ar, r.a, r.b, r.c, r.d, r.e, r.f, r.g, r.h, ar.k[j], w'[j % 16]);
            && At(ar, block, init, w', j + 1, Shift(ar, r, ar.k[j], w'[j % 16]))
            && At(ar, block, init, w', j + 1, Regs(dh.1, r.a, r.b, r.c, dh.0, r.e, r.f, r.g))
  {
    ExpandIsScheduled(ar, block, w, j);
    TraceIsRounds(ar, Words(ar, block), init, |ar.k|, j);
    TraceIsRounds(ar, Words(ar, block), init, |ar.k|, j + 1);
    MacroIsRound(ar, r, ar.k[j], Schedule(ar, Words(ar, block), j));
  }

  /** The rounds of the rolled transform compute those of the standard. */
  method RolledRounds<W(!new)>(ar: Arith<W>, block: seq<byte>, init: Regs<W>) returns (r: Regs<W>)
    requires Lawful(ar) && |block| == 16 * ar.size
    ensures r == Rounds(ar, Words(ar, block), init, |ar.k|)
  {
    r := init;
    var w := seq(16, _ => init.a);
    var j := 0;
    TraceIsRounds(ar, Words(ar, block), init, |ar.k|, 0);
    while j < |ar.k|
      invariant At(ar, block, init, w, j, r)
    {
      StepAt(ar, block, init, w, j, r);
      w := Expand(ar, block, w, j);
      r := Shift(ar, r, ar.k[j], w[j % 16]);
      j := j + 1;
    }
    TraceIsRounds(ar, Words(ar, block), init, |ar.k|, |ar.k|);
  }

  /** Four uses of the macro in a row; afterwards the registers are named four positions further. */
  function FourRounds<W(!new)>(ar: Arith<W>, block: seq<byte>, w: seq<W>, j: nat, r: Regs<W>): (wr: (seq<W>, Regs<W>))
    requires |block| == 16 * ar.size && |w| == 16 && j + 4 <= |ar.k|
    ensures |wr.0| == 16
  {
    var Regs(a, b, c, d, e, f, g, h) := r;
    var w := Expand(ar, block, w, j);
    var (d, h) := Macro(ar, a, b, c, d, e, f, g, h, ar.k[j], w[j % 16]);
    var w := Expand(ar, block, w, j + 1);
    var (c, g) := Macro(ar, h, a, b, c, d, e, f, g, ar.k[j + 1], w[(j + 1) % 16]);
    var w := Expand(ar, block, w, j + 2);
    var (b, f) := Macro(ar, g, h, a, b, c, d, e, f, ar.k[j + 2], w[(j + 2) % 16]);
    var w := Expand(ar, block, w, j + 3);
    var (a, e) := Macro(ar, f, g, h, a, b, c, d, e, ar.k[j + 3], w[(j + 3) % 16]);
    (w, Regs(a, b, c, d, e, f, g, h))
  }

  function Renamed<W>(r: Regs<W>): (r': Regs<W>) {
    Regs(r.e, r.f, r.g, r.h, r.a, r.b, r.c, r.d)
  }

  lemma FourRoundsAt<W(!new)>(ar: Arith<W>, block: seq<byte>, init: Regs<W>, w: seq<W>, j: nat, r: Regs<W>)
    requires Lawful(ar) && j + 4 <= |ar.k| && At(ar, block, init, w, j, r)
    ensures var wr := FourRounds(ar, block, w, j, r);
            At(ar, block, init, wr.0, j + 4, Renamed(wr.1))
  {
    var Regs(a, b, c, d, e, f, g, h) := r;
    StepAt(ar, block, init, w, j, r);
    var w1 := Expand(ar, block, w, j);
    var (d1, h1) := Macro(ar, a, b, c, d, e, f, g, h, ar.k[j], w1[j % 16]);
    StepAt(ar, block, init, w1, j + 1, Regs(h1, a, b, c, d1, e, f, g));
    var w2 := Expand(ar, block, w1, j + 1);
    var (c1, g1) := Macro(ar, h1, a, b, c, d1, e, f, g, ar.k[j + 1], w2[(j + 1) % 16]);
    StepAt(ar, block, init, w2, j + 2, Regs(g1, h1, a, b, c1, d1, e, f));
    var w3 := Expand(ar, block, w2, j + 2);
    var (b1, f1) := Macro(ar, g1, h1, a, b, c1, d1, e, f, ar.k[j + 2], w3[(j + 2) % 16]);
    StepAt(ar, block, init, w3, j + 3, Regs(f1, g1, h1, a, b1, c1, d1, e));
  }

  /** Half a turn of the unrolled loop, with the registers named for the other half. */
  method HalfTurn<W(!new)>(ar: Arith<W>, block: seq<byte>, w: seq<W>, j: nat, r: Regs<W>, ghost init: Regs<W>) returns (w': seq<W>, r': Regs<W>)
    requires Lawful(ar) && j + 4 <= |ar.k| && At(ar, block, init, w, j, r)
    ensures At(ar, block, init, w', j + 4, r')
  {
    FourRoundsAt(ar, block, init, w, j, r);
    var wr := FourRounds(ar, block, w, j, r);
    w', r' := wr.0, Renamed(wr.1);
  }

  /** A whole turn of the unrolled loop. */
  method FullTurn<W(!new)>(ar: Arith<W>, block: seq<byte>, w: seq<W>, j: nat, r: Regs<W>, ghost init: Regs<W>) returns (w': seq<W>, r': Regs<W>)
    requires Lawful(ar) && j + 8 <= |ar.k| && At(ar, block, init, w, j, r)
    ensures At(ar, block, init, w', j + 8, r')
  {
    w', r' := HalfTurn(ar, block, w, j, r, init);
    w', r' := HalfTurn(ar, block, w', j + 4, r', init);
  }

  /** The rounds of the unrolled transform, eight a turn, compute those of the standard. No register is
      ever moved: after eight uses of the macro every one is back at its own name. */
  method UnrolledRounds<W(!new)>(ar: Arith<W>, block: seq<byte>, init: Regs<W>) returns (r: Regs<W>)
    requires Lawful(ar) && |block| == 16 * ar.size
    ensures r == Rounds(ar, Words(ar, block), init, |ar.k|)
  {
    r := init;
    var w := seq(16, _ => init.a);
    var j := 0;
    ghost var left := |ar.k| / 8;
    TraceIsRounds(ar, Words(ar, block), init, |ar.k|, 0);
    while j < |ar.k|
      invariant |ar.k| == j + 8 * left && At(ar, block, init, w, j, r)
    {
      w, r := FullTurn(ar, block, w, j, r, init);
      j := j + 8;
      left := left - 1;
    }
    TraceIsRounds(ar, Words(ar, block), init, |ar.k|, |ar.k|);
  }

  /** SHA256Transform and SHA512Transform, in either variant. */
  method Transform<W(!new)>(ar: Arith<W>, unrolled: bool, state: seq<W>, block: seq<byte>) returns (state': seq<W>)
    requires Lawful(ar) && |state| == 8 && |block| == 16 * ar.size
    ensures state' == Compress(ar, state, block)
  {
    var r: Regs<W>;
    if unrolled {
      r := UnrolledRounds(ar, block, Working(state));
    } else {
      r := RolledRounds(ar, block, Working(state));
    }
    state' := AddInto(ar, state, r);
  }
}
