/** The logical functions on words of SHA-256 and SHA-512, and words as octets (sections 3.2 and 4.1 of FIPS 180-4). */
module Sha2Words {
  import opened Bytes
  import opened Blocks
  import opened HashContext

  // ---- Words of 32 bits ----

  function Ch32(x: bv32, y: bv32, z: bv32): bv32 { (x & y) ^ ((!x) & z) }
  function Maj32(x: bv32, y: bv32, z: bv32): bv32 { (x & y) ^ (x & z) ^ (y & z) }
  function BigSigma032(x: bv32): bv32 { ((x >> 2) | (x << 30)) ^ ((x >> 13) | (x << 19)) ^ ((x >> 22) | (x << 10)) }
  function BigSigma132(x: bv32): bv32 { ((x >> 6) | (x << 26)) ^ ((x >> 11) | (x << 21)) ^ ((x >> 25) | (x << 7)) }
  function SmallSigma032(x: bv32): bv32 { ((x >> 7) | (x << 25)) ^ ((x >> 18) | (x << 14)) ^ (x >> 3) }
  function SmallSigma132(x: bv32): bv32 { ((x >> 17) | (x << 15)) ^ ((x >> 19) | (x << 13)) ^ (x >> 10) }

  /** Where `x` has a bit the choice is that of `y`, elsewhere that of `z`. */
  lemma Ch32Chooses(x: bv32, y: bv32, z: bv32)
    ensures Ch32(x, y, z) & x == y & x && Ch32(x, y, z) & !x == z & !x
  {
  }

  /** Where two words agree they are the majority, elsewhere the third decides. */
  lemma Maj32Decides(x: bv32, y: bv32, z: bv32)
    ensures Maj32(x, y, z) & !(x ^ y) == x & !(x ^ y) && Maj32(x, y, z) & (x ^ y) == z & (x ^ y)
  {
  }

  /** `m` is a single bit. */
  predicate OneBit32(m: bv32) { m != 0 && m & (m - 1) == 0 }

  predicate Set32(x: bv32, m: bv32) { x & m != 0 }

  // A rotated word has a bit where the word has it that many places above, going round.
  lemma Turn32By2(x: bv32, m: bv32) ensures Set32((x >> 2) | (x << 30), m) == Set32(x, (m << 2) | (m >> 30)) {}
  lemma Turn32By6(x: bv32, m: bv32) ensures Set32((x >> 6) | (x << 26), m) == Set32(x, (m << 6) | (m >> 26)) {}
  lemma Turn32By7(x: bv32, m: bv32) ensures Set32((x >> 7) | (x << 25), m) == Set32(x, (m << 7) | (m >> 25)) {}
  lemma Turn32By11(x: bv32, m: bv32) ensures Set32((x >> 11) | (x << 21), m) == Set32(x, (m << 11) | (m >> 21)) {}
  lemma Turn32By13(x: bv32, m: bv32) ensures Set32((x >> 13) | (x << 19), m) == Set32(x, (m << 13) | (m >> 19)) {}
  lemma Turn32By17(x: bv32, m: bv32) ensures Set32((x >> 17) | (x << 15), m) == Set32(x, (m << 17) | (m >> 15)) {}
  lemma Turn32By18(x: bv32, m: bv32) ensures Set32((x >> 18) | (x << 14), m) == Set32(x, (m << 18) | (m >> 14)) {}
  lemma Turn32By19(x: bv32, m: bv32) ensures Set32((x >> 19) | (x << 13), m) == Set32(x, (m << 19) | (m >> 13)) {}
  lemma Turn32By22(x: bv32, m: bv32) ensures Set32((x >> 22) | (x << 10), m) == Set32(x, (m << 22) | (m >> 10)) {}
  lemma Turn32By25(x: bv32, m: bv32) ensures Set32((x >> 25) | (x << 7), m) == Set32(x, (m << 25) | (m >> 7)) {}
  lemma Shift32By3(x: bv32, m: bv32) ensures Set32(x >> 3, m) == Set32(x, m << 3) {}
  lemma Shift32By10(x: bv32, m: bv32) ensures Set32(x >> 10, m) == Set32(x, m << 10) {}

  /** An odd number of these bits of `x` is set. */
  predicate Parity32(x: bv32, p: bv32, q: bv32, r: bv32) { (Set32(x, p) != Set32(x, q)) != Set32(x, r) }

  lemma Odd32(a: bv32, b: bv32, c: bv32, m: bv32)
    requires OneBit32(m)
    ensures Set32(a ^ b ^ c, m) == ((Set32(a, m) != Set32(b, m)) != Set32(c, m))
  {
  }

  /** A bit of it is the parity of the bits 2, 13 and 22 places above, going round. */
  lemma BigSigma032Bits(x: bv32, m: bv32)
    requires OneBit32(m)
    ensures Set32(BigSigma032(x), m) == Parity32(x, (m << 2) | (m >> 30), (m << 13) | (m >> 19), (m << 22) | (m >> 10))
  {
    Turn32By2(x, m);
    Turn32By13(x, m);
    Turn32By22(x, m);
    Odd32((x >> 2) | (x << 30), (x >> 13) | (x << 19), (x >> 22) | (x << 10), m);
  }

  /** A bit of it is the parity of the bits 6, 11 and 25 places above, going round. */
  lemma BigSigma132Bits(x: bv32, m: bv32)
    requires OneBit32(m)
    ensures Set32(BigSigma132(x), m) == Parity32(x, (m << 6) | (m >> 26), (m << 11) | (m >> 21), (m << 25) | (m >> 7))
  {
    Turn32By6(x, m);
    Turn32By11(x, m);
    Turn32By25(x, m);
    Odd32((x >> 6) | (x << 26), (x >> 11) | (x << 21), (x >> 25) | (x << 7), m);
  }

  /** The same, but nothing comes round from 3 places above. */
  lemma SmallSigma032Bits(x: bv32, m: bv32)
    requires OneBit32(m)
    ensures Set32(SmallSigma032(x), m) == Parity32(x, (m << 7) | (m >> 25), (m << 18) | (m >> 14), m << 3)
  {
    Turn32By7(x, m);
    Turn32By18(x, m);
    Shift32By3(x, m);
    Odd32((x >> 7) | (x << 25), (x >> 18) | (x << 14), x >> 3, m);
  }

  /** The same, but nothing comes round from 10 places above. */
  lemma SmallSigma132Bits(x: bv32, m: bv32)
    requires OneBit32(m)
    ensures Set32(SmallSigma132(x), m) == Parity32(x, (m << 17) | (m >> 15), (m << 19) | (m >> 13), m << 10)
  {
    Turn32By17(x, m);
    Turn32By19(x, m);
    Shift32By10(x, m);
    Odd32((x >> 17) | (x << 15), (x >> 19) | (x << 13), x >> 10, m);
  }

  /** BE_8_TO_32 */
  function Load32(s: seq<byte>): bv32 {
    if |s| != 4 then 0
    else ((s[0] as bv32) << 24) | ((s[1] as bv32) << 16) | ((s[2] as bv32) << 8) | (s[3] as bv32)
  }

  // ---- Words of 64 bits ----

  function Ch64(x: bv64, y: bv64, z: bv64): bv64 { (x & y) ^ ((!x) & z) }
  function Maj64(x: bv64, y: bv64, z: bv64): bv64 { (x & y) ^ (x & z) ^ (y & z) }
  function BigSigma064(x: bv64): bv64 { ((x >> 28) | (x << 36)) ^ ((x >> 34) | (x << 30)) ^ ((x >> 39) | (x << 25)) }
  function BigSigma164(x: bv64): bv64 { ((x >> 14) | (x << 50)) ^ ((x >> 18) | (x << 46)) ^ ((x >> 41) | (x << 23)) }
  function SmallSigma064(x: bv64): bv64 { ((x >> 1) | (x << 63)) ^ ((x >> 8) | (x << 56)) ^ (x >> 7) }
  function SmallSigma164(x: bv64): bv64 { ((x >> 19) | (x << 45)) ^ ((x >> 61) | (x << 3)) ^ (x >> 6) }

  /** Where `x` has a bit the choice is that of `y`, elsewhere that of `z`. */
  lemma Ch64Chooses(x: bv64, y: bv64, z: bv64)
    ensures Ch64(x, y, z) & x == y & x && Ch64(x, y, z) & !x == z & !x
  {
  }

  /** Where two words agree they are the majority, elsewhere the third decides. */
  lemma Maj64Decides(x: bv64, y: bv64, z: bv64)
    ensures Maj64(x, y, z) & !(x ^ y) == x & !(x ^ y) && Maj64(x, y, z) & (x ^ y) == z & (x ^ y)
  {
  }

  /** `m` is a single bit. */
  predicate OneBit64(m: bv64) { m != 0 && m & (m - 1) == 0 }

  predicate Set64(x: bv64, m: bv64) { x & m != 0 }

  // A rotated word has a bit where the word has it that many places above, going round.
  lemma Turn64By1(x: bv64, m: bv64) ensures Set64((x >> 1) | (x << 63), m) == Set64(x, (m << 1) | (m >> 63)) {}
  lemma Turn64By8(x: bv64, m: bv64) ensures Set64((x >> 8) | (x << 56), m) == Set64(x, (m << 8) | (m >> 56)) {}
  lemma Turn64By14(x: bv64, m: bv64) ensures Set64((x >> 14) | (x << 50), m) == Set64(x, (m << 14) | (m >> 50)) {}
  lemma Turn64By18(x: bv64, m: bv64) ensures Set64((x >> 18) | (x << 46), m) == Set64(x, (m << 18) | (m >> 46)) {}
  lemma Turn64By19(x: bv64, m: bv64) ensures Set64((x >> 19) | (x << 45), m) == Set64(x, (m << 19) | (m >> 45)) {}
  lemma Turn64By28(x: bv64, m: bv64) ensures Set64((x >> 28) | (x << 36), m) == Set64(x, (m << 28) | (m >> 36)) {}
  lemma Turn64By34(x: bv64, m: bv64) ensures Set64((x >> 34) | (x << 30), m) == Set64(x, (m << 34) | (m >> 30)) {}
  lemma Turn64By39(x: bv64, m: bv64) ensures Set64((x >> 39) | (x << 25), m) == Set64(x, (m << 39) | (m >> 25)) {}
  lemma Turn64By41(x: bv64, m: bv64) ensures Set64((x >> 41) | (x << 23), m) == Set64(x, (m << 41) | (m >> 23)) {}
  lemma Turn64By61(x: bv64, m: bv64) ensures Set64((x >> 61) | (x << 3), m) == Set64(x, (m << 61) | (m >> 3)) {}
  lemma Shift64By6(x: bv64, m: bv64) ensures Set64(x >> 6, m) == Set64(x, m << 6) {}
  lemma Shift64By7(x: bv64, m: bv64) ensures Set64(x >> 7, m) == Set64(x, m << 7) {}

  /** An odd number of these bits of `x` is set. */
  predicate Parity64(x: bv64, p: bv64, q: bv64, r: bv64) { (Set64(x, p) != Set64(x, q)) != Set64(x, r) }

  lemma Odd64(a: bv64, b: bv64, c: bv64, m: bv64)
    requires OneBit64(m)
    ensures Set64(a ^ b ^ c, m) == ((Set64(a, m) != Set64(b, m)) != Set64(c, m))
  {
  }

  /** A bit of it is the parity of the bits 28, 34 and 39 places above, going round. */
  lemma BigSigma064Bits(x: bv64, m: bv64)
    requires OneBit64(m)
    ensures Set64(BigSigma064(x), m) == Parity64(x, (m << 28) | (m >> 36), (m << 34) | (m >> 30), (m << 39) | (m >> 25))
  {
    Turn64By28(x, m);
    Turn64By34(x, m);
    Turn64By39(x, m);
    Odd64((x >> 28) | (x << 36), (x >> 34) | (x << 30), (x >> 39) | (x << 25), m);
  }

  /** A bit of it is the parity of the bits 14, 18 and 41 places above, going round. */
  lemma BigSigma164Bits(x: bv64, m: bv64)
    requires OneBit64(m)
    ensures Set64(BigSigma164(x), m) == Parity64(x, (m << 14) | (m >> 50), (m << 18) | (m >> 46), (m << 41) | (m >> 23))
  {
    Turn64By14(x, m);
    Turn64By18(x, m);
    Turn64By41(x, m);
    Odd64((x >> 14) | (x << 50), (x >> 18) | (x << 46), (x >> 41) | (x << 23), m);
  }

  /** The same, but nothing comes round from 7 places above. */
  lemma SmallSigma064Bits(x: bv64, m: bv64)
    requires OneBit64(m)
    ensures Set64(SmallSigma064(x), m) == Parity64(x, (m << 1) | (m >> 63), (m << 8) | (m >> 56), m << 7)
  {
    Turn64By1(x, m);
    Turn64By8(x, m);
    Shift64By7(x, m);
    Odd64((x >> 1) | (x << 63), (x >> 8) | (x << 56), x >> 7, m);
  }

  /** The same, but nothing comes round from 6 places above. */
  lemma SmallSigma164Bits(x: bv64, m: bv64)
    requires OneBit64(m)
    ensures Set64(SmallSigma164(x), m) == Parity64(x, (m << 19) | (m >> 45), (m << 61) | (m >> 3), m << 6)
  {
    Turn64By19(x, m);
    Turn64By61(x, m);
    Shift64By6(x, m);
    Odd64((x >> 19) | (x << 45), (x >> 61) | (x << 3), x >> 6, m);
  }

  /** BE_8_TO_64 */
  function Load64(s: seq<byte>): bv64 {
    if |s| != 8 then 0
    else ((s[0] as bv64) << 56) | ((s[1] as bv64) << 48) | ((s[2] as bv64) << 40) | ((s[3] as bv64) << 32)
         | ((s[4] as bv64) << 24) | ((s[5] as bv64) << 16) | ((s[6] as bv64) << 8) | (s[7] as bv64)
  }

  // ---- Octets ----

  lemma Four(s: seq<byte>)
    requires |s| == 4
    ensures FromBigEndian(s) == ((Val(s[0]) * 256 + Val(s[1])) * 256 + Val(s[2])) * 256 + Val(s[3])
  {
    assert s[..3][..2] == s[..2] && s[..2][..1] == s[..1] && s[..1][..0] == [];
    assert FromBigEndian(s[..1]) == Val(s[0]);
    assert FromBigEndian(s[..2]) == Val(s[0]) * 256 + Val(s[1]);
  }

  lemma FourOctets(a: byte, b: byte, c: byte, d: byte)
    ensures (((a as bv32) << 24) | ((b as bv32) << 16) | ((c as bv32) << 8) | (d as bv32)) as nat
            == ((a as nat * 256 + b as nat) * 256 + c as nat) * 256 + d as nat
  {
  }

  /** Words are read and written with the most significant octet first. */
  lemma Load32Is(s: seq<byte>)
    requires |s| == 4
    ensures Load32(s) as nat == FromBigEndian(s)
  {
    Four(s);
    FourOctets(s[0], s[1], s[2], s[3]);
  }

  lemma Eight(s: seq<byte>)
    requires |s| == 8
    ensures FromBigEndian(s) ==
            (((Val(s[0]) * 256 + Val(s[1])) * 256 + Val(s[2])) * 256 + Val(s[3])) * 0x1_0000_0000
            + (((Val(s[4]) * 256 + Val(s[5])) * 256 + Val(s[6])) * 256 + Val(s[7]))
  {
    Four(s[..4]);
    assert s[..7][..6] == s[..6] && s[..6][..5] == s[..5] && s[..5][..4] == s[..4];
    assert FromBigEndian(s[..5]) == FromBigEndian(s[..4]) * 256 + Val(s[4]);
    assert FromBigEndian(s[..6]) == FromBigEndian(s[..5]) * 256 + Val(s[5]);
    assert FromBigEndian(s[..7]) == FromBigEndian(s[..6]) * 256 + Val(s[6]);
  }

  lemma EightOctets(a: byte, b: byte, c: byte, d: byte, e: byte, f: byte, g: byte, h: byte)
    ensures (((a as bv64) << 56) | ((b as bv64) << 48) | ((c as bv64) << 40) | ((d as bv64) << 32)
             | ((e as bv64) << 24) | ((f as bv64) << 16) | ((g as bv64) << 8) | (h as bv64)) as nat
            == (((a as nat * 256 + b as nat) * 256 + c as nat) * 256 + d as nat) * 0x1_0000_0000
               + (((e as nat * 256 + f as nat) * 256 + g as nat) * 256 + h as nat)
  {
  }

  lemma LoadEight(a: byte, b: byte, c: byte, d: byte, e: byte, f: byte, g: byte, h: byte)
    ensures Load64([a, b, c, d, e, f, g, h]) as nat
            == (((Val(a) * 256 + Val(b)) * 256 + Val(c)) * 256 + Val(d)) * 0x1_0000_0000
               + (((Val(e) * 256 + Val(f)) * 256 + Val(g)) * 256 + Val(h))
  {
    EightOctets(a, b, c, d, e, f, g, h);
  }

  lemma LoadListed(s: seq<byte>, n: nat)
    requires |s| == 8
    requires n == (((Val(s[0]) * 256 + Val(s[1])) * 256 + Val(s[2])) * 256 + Val(s[3])) * 0x1_0000_0000
                  + (((Val(s[4]) * 256 + Val(s[5])) * 256 + Val(s[6])) * 256 + Val(s[7]))
    ensures Load64(s) as nat == n
  {
    LoadEight(s[0], s[1], s[2], s[3], s[4], s[5], s[6], s[7]);
    assert s == [s[0], s[1], s[2], s[3], s[4], s[5], s[6], s[7]];
  }

  lemma Load64Is(s: seq<byte>)
    requires |s| == 8
    ensures Load64(s) as nat == FromBigEndian(s)
  {
    Eight(s);
    LoadListed(s, FromBigEndian(s));
  }

  function Power256(k: nat): (p: nat)
    ensures p > 0
  {
    if k == 0 then 1 else 256 * Power256(k - 1)
  }

  /** Octet `i` of a word in `width` octets. */
  lemma {:induction false} BigEndianAt(n: nat, width: nat, i: nat)
    requires i < width
    ensures BigEndian(n, width)[i] == Octet(n / Power256(width - 1 - i) % 256)
    decreases width
  {
    if i < width - 1 {
      BigEndianAt(n / 256, width - 1, i);
      DivDiv(n, Power256(width - 2 - i));
    } else {
      assert n / 1 == n;
    }
  }

  lemma DivDiv(n: nat, p: nat)
    requires p > 0
    ensures n / 256 / p == n / (256 * p)
  {
    var q, r := n / (256 * p), n % (256 * p);
    DivMod(n, 256 * p);
    DivMod(r, 256);
    Mul3(256, p, q);
    assert n == 256 * (p * q + r / 256) + r % 256;
    ModUnique(n, 256, p * q + r / 256, r % 256);
    QuotientBelow(r, p);
    ModUnique(n / 256, p, q, r / 256);
  }

  /** BE_32_TO_8 and BE_64_TO_8: octet by octet, the word shifted to the right and cut off. Shifting an unsigned word
      to the right divides it. */
  function Shifted(n: nat, width: nat): (s: seq<byte>)
    ensures |s| == width
  {
    seq(width, i requires 0 <= i < width => Octet(n / Power256(width - 1 - i) % 256))
  }

  /** That is the word with the most significant octet first. */
  lemma ShiftedIs(n: nat, width: nat)
    ensures Shifted(n, width) == BigEndian(n, width)
  {
    forall i | 0 <= i < width
      ensures Shifted(n, width)[i] == BigEndian(n, width)[i]
    {
      BigEndianAt(n, width, i);
    }
  }
}
