/** The words and constants of SHA-1, and its digest. */
module Sha1Digest {
  import opened Bytes
  import opened Blocks
  import opened HashContext
  import opened Sha1Rounds
  import opened Sha2Family
  import opened Sha2Words
  import Sha1

  function Rol1(x: bv32): bv32 { (x << 1) | (x >> 31) }
  function Rol5(x: bv32): bv32 { (x << 5) | (x >> 27) }
  function Rol8(x: bv32): bv32 { (x << 8) | (x >> 24) }
  function Rol24(x: bv32): bv32 { (x << 24) | (x >> 8) }
  function Rol30(x: bv32): bv32 { (x << 30) | (x >> 2) }

  function Parity(x: bv32, y: bv32, z: bv32): bv32 { x ^ y ^ z }

  /** Section 4.1.1 of FIPS 180-4. */
  function F(t: nat, x: bv32, y: bv32, z: bv32): bv32 {
    if t < 20 then Ch32(x, y, z) else if t < 40 then Parity(x, y, z) else if t < 60 then Maj32(x, y, z) else Parity(x, y, z)
  }

  /** The same functions as R0 to R4 write them. */
  function Form(t: nat, w: bv32, x: bv32, y: bv32): bv32 {
    if t < 20 then Choose(w, x, y) else if t < 40 then Parity(w, x, y) else if t < 60 then Majority(w, x, y) else Parity(w, x, y)
  }

  function Choose(w: bv32, x: bv32, y: bv32): bv32 { (w & (x ^ y)) ^ y }
  function Majority(w: bv32, x: bv32, y: bv32): bv32 { ((w | x) & y) | (w & x) }

  lemma ChForm(x: bv32, y: bv32, z: bv32)
    ensures (x & (y ^ z)) ^ z == (x & y) ^ ((!x) & z)
  {
  }

  lemma MajForm(x: bv32, y: bv32, z: bv32)
    ensures ((x | y) & z) | (x & y) == (x & y) ^ (x & z) ^ (y & z)
  {
  }

  lemma ChooseIsCh(x: bv32, y: bv32, z: bv32)
    ensures Choose(x, y, z) == Ch32(x, y, z)
  {
    ChForm(x, y, z);
  }

  lemma MajorityIsMaj(x: bv32, y: bv32, z: bv32)
    ensures Majority(x, y, z) == Maj32(x, y, z)
  {
    MajForm(x, y, z);
  }

  lemma FormIsF(t: nat, x: bv32, y: bv32, z: bv32)
    ensures Form(t, x, y, z) == F(t, x, y, z)
  {
    if t < 20 {
      ChooseIsCh(x, y, z);
    } else if 40 <= t < 60 {
      MajorityIsMaj(x, y, z);
    }
  }

  function K(t: nat): u32 {
    if t < 20 then 0x5A827999 else if t < 40 then 0x6ED9EBA1 else if t < 60 then 0x8F1BBCDC else 0xCA62C1D6
  }

  /** A word as a little-endian machine reads it. */
  function Raw32(s: seq<byte>): bv32 {
    if |s| != 4 then 0
    else ((s[3] as bv32) << 24) | ((s[2] as bv32) << 16) | ((s[1] as bv32) << 8) | (s[0] as bv32)
  }

  /** blk0 on such a machine. */
  function Swap(x: bv32): bv32 { (Rol24(x) & 0xFF00FF00) | (Rol8(x) & 0x00FF00FF) }

  lemma SwapOctets(a: bv8, b: bv8, c: bv8, d: bv8)
    ensures Swap(((d as bv32) << 24) | ((c as bv32) << 16) | ((b as bv32) << 8) | (a as bv32))
            == ((a as bv32) << 24) | ((b as bv32) << 16) | ((c as bv32) << 8) | (d as bv32)
  {
  }

  lemma {:induction false} SwapIsLoad(s: seq<byte>)
    requires |s| == 4
    ensures Swap(Raw32(s)) == Load32(s)
  {
    SwapOctets(s[0], s[1], s[2], s[3]);
  }

  function Left5(x: u32): u32 { Rol5(x as bv32) as u32 }
  function Left30(x: u32): u32 { Rol30(x as bv32) as u32 }

  function Mix(a: u32, b: u32, c: u32, d: u32): u32 {
    Rol1((a as bv32) ^ (b as bv32) ^ (c as bv32) ^ (d as bv32)) as u32
  }

  function WordF(t: nat, x: u32, y: u32, z: u32): u32 { F(t, x as bv32, y as bv32, z as bv32) as u32 }
  function WordForm(t: nat, x: u32, y: u32, z: u32): u32 { Form(t, x as bv32, y as bv32, z as bv32) as u32 }

  function Sha1Ops(): Ops<u32> {
    Ops(Add32, Left5, Left30, Mix, WordF, WordForm, K,
        s => Load32(s) as u32, s => Raw32(s) as u32, x => Swap(x as bv32) as u32)
  }

  /** One round, as section 6.1.2 of FIPS 180-4 writes it. */
  lemma RoundIs(r: Regs<u32>, t: nat, w: u32)
    ensures Round(Sha1Ops(), r, t, w) ==
            Regs(Add32(Add32(Add32(Add32(Left5(r.a), WordF(t, r.b, r.c, r.d)), r.e), K(t)), w), r.a, Left30(r.b), r.c, r.d)
  {
  }

  /** And its message schedule. */
  lemma ScheduleIs(m: seq<u32>, t: nat)
    requires |m| == 16
    ensures var w := (i: nat) => Schedule(Sha1Ops(), m, i);
            if t < 16 then w(t) == m[t] else w(t) == Mix(w(t - 3), w(t - 8), w(t - 14), w(t - 16))
  {
  }

  // A word rotated to the left has a bit where the word has it that many places below, going round.
  lemma Rol1Bits(x: bv32, m: bv32) ensures Set32(Rol1(x), m) == Set32(x, (m >> 1) | (m << 31)) {}
  lemma Rol5Bits(x: bv32, m: bv32) ensures Set32(Rol5(x), m) == Set32(x, (m >> 5) | (m << 27)) {}
  lemma Rol30Bits(x: bv32, m: bv32) ensures Set32(Rol30(x), m) == Set32(x, (m >> 30) | (m << 2)) {}

  lemma {:induction false} LawfulSha1()
    ensures Lawful(Sha1Ops())
  {
    var o := Sha1Ops();
    forall x, y ensures Commutes(o, x, y) {
    }
    forall x, y, z ensures Associates(o, x, y, z) {
      AddAssociates32(x, y, z);
    }
    forall t, x, y, z ensures Agrees(o, t, x, y, z) {
      FormIsF(t, x as bv32, y as bv32, z as bv32);
    }
    forall s ensures Swaps(o, s) {
      if |s| == 4 {
        SwapIsLoad(s);
      }
    }
  }

  const INIT: seq<u32> := [0x67452301, 0xEFCDAB89, 0x98BADCFE, 0x10325476, 0xC3D2E1F0]

  /** The compression function as a value; this is what SHA1Transform computes. */
  function Compressor(): (seq<u32>, seq<byte>) -> seq<u32> {
    (s, block) => if |s| == 5 && |block| == 64 then Compress(Sha1Ops(), s, block) else s
  }

  /** SHA1Transform */
  method Transformed(state: seq<u32>, block: seq<byte>) returns (state': seq<u32>)
    requires |state| == 5 && |block| == 64
    ensures state' == Compressor()(state, block)
  {
    LawfulSha1();
    state' := Transform(Sha1Ops(), state, block);
  }

  /** Section 4.2.1 of FIPS 180-4: the square roots of 2, 3, 5 and 10 to 30 bits behind the point. */
  lemma ConstantsAre(t: nat)
    ensures var (n, p) := (K(t) as nat, if t < 20 then 2 else if t < 40 then 3 else if t < 60 then 5 else 10);
            n * n <= p * 0x1000_0000_0000_0000 < (n + 1) * (n + 1)
  {
  }

  /** The hash value after the blocks of `data`: each block goes through eighty rounds, and the outcome is added to
      the value before it. */
  function Standard(h: seq<u32>, data: seq<byte>): (r: seq<u32>)
    requires |h| == 5
    ensures |r| == 5
    decreases |data|
  {
    if |data| < 64 then h
    else
      var w := Rounds(Sha1Ops(), Words(Sha1Ops().load, data[..64]), Regs(h[0], h[1], h[2], h[3], h[4]), 80);
      Standard([Add32(h[0], w.a), Add32(h[1], w.b), Add32(h[2], w.c), Add32(h[3], w.d), Add32(h[4], w.e)], data[64..])
  }

  lemma {:induction false} FoldIsStandard(h: seq<u32>, data: seq<byte>)
    requires |h| == 5
    ensures Fold(Compressor(), 64, h, data) == Standard(h, data)
    decreases |data|
  {
    if |data| >= 64 {
      FoldIsStandard(Compressor()(h, data[..64]), data[64..]);
    }
  }

  /** `(state[i >> 2] >> ((3 - (i & 3)) * 8)) & 255`: shifting an unsigned word to the right divides it. */
  method NextOctet(x: u32, i: nat, ghost width: nat) returns (b: byte)
    requires i < 4 == width
    ensures b == Shifted(x as nat, width)[i]
  {
    b := Octet(x as nat / Power256(3 - i) % 256);
  }

  lemma {:induction false} StoredAt(store: u32 -> seq<byte>, state: seq<u32>, n: nat, i: nat)
    requires n <= |state| && i < 4 * n && forall x {:trigger store(x)} :: |store(x)| == 4
    ensures |Stored(store, state, n)| == 4 * n && Stored(store, state, n)[i] == store(state[i / 4])[i % 4]
    decreases n
  {
    if n > 1 {
      StoredAt(store, state, n - 1, if i < 4 * (n - 1) then i else 0);
    }
  }

  /** SHA1Final: the digest octet by octet. */
  method StoreOctets(state: seq<u32>) returns (digest: seq<byte>)
    requires |state| == 5
    ensures digest == Stored(StoreWord32, state, 5) && |digest| == 20
  {
    digest := [];
    for i := 0 to 20
      invariant |digest| == i && forall j :: 0 <= j < i ==> digest[j] == StoreWord32(state[j / 4])[j % 4]
    {
      var b := NextOctet(state[i / 4], i % 4, 4);
      digest := digest + [b];
    }
    forall j | 0 <= j < 20
      ensures |Stored(StoreWord32, state, 5)| == 20 && Stored(StoreWord32, state, 5)[j] == digest[j]
    {
      StoredAt(StoreWord32, state, 5, j);
    }
    StoredAt(StoreWord32, state, 5, 0);
  }

  /** SHA1Init, any number of SHA1Update, SHA1Final. */
  method Digest(parts: seq<seq<byte>>) returns (digest: seq<byte>)
    ensures digest == Octets32(Standard(INIT, Padded(Flatten(parts), 64, 8))) && |digest| == 20
  {
    var state := Sha1.HashParts(Compressor(), INIT, parts);
    FoldIsStandard(INIT, Padded(Flatten(parts), 64, 8));
    digest := StoreOctets(state);
    Stored32Is(state, 5);
    assert state[..5] == state;
  }
}
