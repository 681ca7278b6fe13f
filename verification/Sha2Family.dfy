/** The words, constants and sizes of SHA-256, SHA-384 and SHA-512, and their digests. */
module Sha2Family {
  import opened Bytes
  import opened Blocks
  import opened Sha2
  import opened HashContext
  import opened Sha2Words

  const K256_0: seq<u32> := [
    0x428a2f98, 0x71374491, 0xb5c0fbcf, 0xe9b5dba5, 0x3956c25b, 0x59f111f1, 0x923f82a4, 0xab1c5ed5]
  const K256_1: seq<u32> := [
    0xd807aa98, 0x12835b01, 0x243185be, 0x550c7dc3, 0x72be5d74, 0x80deb1fe, 0x9bdc06a7, 0xc19bf174]
  const K256_2: seq<u32> := [
    0xe49b69c1, 0xefbe4786, 0x0fc19dc6, 0x240ca1cc, 0x2de92c6f, 0x4a7484aa, 0x5cb0a9dc, 0x76f988da]
  const K256_3: seq<u32> := [
    0x983e5152, 0xa831c66d, 0xb00327c8, 0xbf597fc7, 0xc6e00bf3, 0xd5a79147, 0x06ca6351, 0x14292967]
  const K256_4: seq<u32> := [
    0x27b70a85, 0x2e1b2138, 0x4d2c6dfc, 0x53380d13, 0x650a7354, 0x766a0abb, 0x81c2c92e, 0x92722c85]
  const K256_5: seq<u32> := [
    0xa2bfe8a1, 0xa81a664b, 0xc24b8b70, 0xc76c51a3, 0xd192e819, 0xd6990624, 0xf40e3585, 0x106aa070]
  const K256_6: seq<u32> := [
    0x19a4c116, 0x1e376c08, 0x2748774c, 0x34b0bcb5, 0x391c0cb3, 0x4ed8aa4a, 0x5b9cca4f, 0x682e6ff3]
  const K256_7: seq<u32> := [
    0x748f82ee, 0x78a5636f, 0x84c87814, 0x8cc70208, 0x90befffa, 0xa4506ceb, 0xbef9a3f7, 0xc67178f2]

  const K256: seq<u32> :=
    K256_0 + K256_1 + K256_2 + K256_3 + K256_4 + K256_5 + K256_6 + K256_7

  const INIT256: seq<u32> := [
    0x6a09e667, 0xbb67ae85, 0x3c6ef372, 0xa54ff53a, 0x510e527f, 0x9b05688c, 0x1f83d9ab, 0x5be0cd19]

  const K512_0: seq<u64> := [
    0x428a2f98d728ae22, 0x7137449123ef65cd, 0xb5c0fbcfec4d3b2f, 0xe9b5dba58189dbbc,
    0x3956c25bf348b538, 0x59f111f1b605d019, 0x923f82a4af194f9b, 0xab1c5ed5da6d8118]
  const K512_1: seq<u64> := [
    0xd807aa98a3030242, 0x12835b0145706fbe, 0x243185be4ee4b28c, 0x550c7dc3d5ffb4e2,
    0x72be5d74f27b896f, 0x80deb1fe3b1696b1, 0x9bdc06a725c71235, 0xc19bf174cf692694]
  const K512_2: seq<u64> := [
    0xe49b69c19ef14ad2, 0xefbe4786384f25e3, 0x0fc19dc68b8cd5b5, 0x240ca1cc77ac9c65,
    0x2de92c6f592b0275, 0x4a7484aa6ea6e483, 0x5cb0a9dcbd41fbd4, 0x76f988da831153b5]
  const K512_3: seq<u64> := [
    0x983e5152ee66dfab, 0xa831c66d2db43210, 0xb00327c898fb213f, 0xbf597fc7beef0ee4,
    0xc6e00bf33da88fc2, 0xd5a79147930aa725, 0x06ca6351e003826f, 0x142929670a0e6e70]
  const K512_4: seq<u64> := [
    0x27b70a8546d22ffc, 0x2e1b21385c26c926, 0x4d2c6dfc5ac42aed, 0x53380d139d95b3df,
    0x650a73548baf63de, 0x766a0abb3c77b2a8, 0x81c2c92e47edaee6, 0x92722c851482353b]
  const K512_5: seq<u64> := [
    0xa2bfe8a14cf10364, 0xa81a664bbc423001, 0xc24b8b70d0f89791, 0xc76c51a30654be30,
    0xd192e819d6ef5218, 0xd69906245565a910, 0xf40e35855771202a, 0x106aa07032bbd1b8]
  const K512_6: seq<u64> := [
    0x19a4c116b8d2d0c8, 0x1e376c085141ab53, 0x2748774cdf8eeb99, 0x34b0bcb5e19b48a8,
    0x391c0cb3c5c95a63, 0x4ed8aa4ae3418acb, 0x5b9cca4f7763e373, 0x682e6ff3d6b2b8a3]
  const K512_7: seq<u64> := [
    0x748f82ee5defb2fc, 0x78a5636f43172f60, 0x84c87814a1f0ab72, 0x8cc702081a6439ec,
    0x90befffa23631e28, 0xa4506cebde82bde9, 0xbef9a3f7b2c67915, 0xc67178f2e372532b]
  const K512_8: seq<u64> := [
    0xca273eceea26619c, 0xd186b8c721c0c207, 0xeada7dd6cde0eb1e, 0xf57d4f7fee6ed178,
    0x06f067aa72176fba, 0x0a637dc5a2c898a6, 0x113f9804bef90dae, 0x1b710b35131c471b]
  const K512_9: seq<u64> := [
    0x28db77f523047d84, 0x32caab7b40c72493, 0x3c9ebe0a15c9bebc, 0x431d67c49c100d4c,
    0x4cc5d4becb3e42b6, 0x597f299cfc657e2a, 0x5fcb6fab3ad6faec, 0x6c44198c4a475817]

  const K512: seq<u64> :=
    K512_0 + K512_1 + K512_2 + K512_3 + K512_4 + K512_5 + K512_6 + K512_7 + K512_8 + K512_9

  const INIT512: seq<u64> := [
    0x6a09e667f3bcc908, 0xbb67ae8584caa73b, 0x3c6ef372fe94f82b, 0xa54ff53a5f1d36f1,
    0x510e527fade682d1, 0x9b05688c2b3e6c1f, 0x1f83d9abfb41bd6b, 0x5be0cd19137e2179]

  const INIT384: seq<u64> := [
    0xcbbb9d5dc1059ed8, 0x629a292a367cd507, 0x9159015a3070dd17, 0x152fecd8f70e5939,
    0x67332667ffc00b31, 0x8eb44a8768581511, 0xdb0c2e0d64f98fa7, 0x47b5481dbefa4fa4]

  newtype u32 = x: int | 0 <= x < 0x1_0000_0000

  /** Addition wraps around. */
  function Add32(x: u32, y: u32): u32 { ((x as int + y as int) % 0x1_0000_0000) as u32 }

  function Upper032(x: u32): u32 { BigSigma032(x as bv32) as u32 }
  function Upper132(x: u32): u32 { BigSigma132(x as bv32) as u32 }
  function Lower032(x: u32): u32 { SmallSigma032(x as bv32) as u32 }
  function Lower132(x: u32): u32 { SmallSigma132(x as bv32) as u32 }
  function Choice32(x: u32, y: u32, z: u32): u32 { Ch32(x as bv32, y as bv32, z as bv32) as u32 }
  function Majority32(x: u32, y: u32, z: u32): u32 { Maj32(x as bv32, y as bv32, z as bv32) as u32 }

  function Arith256(): Arith<u32> {
    Arith(4, Add32, Upper032, Upper132, Lower032, Lower132, Choice32, Majority32, s => Load32(s) as u32, StoreWord32, K256)
  }

  /** BE_32_TO_8 */
  function StoreWord32(x: u32): (s: seq<byte>)
    ensures |s| == 4
  {
    Shifted(x as nat, 4)
  }

  /** Reducing a summand does not change the reduced sum. */
  lemma Reduced32(s: nat, z: nat)
    ensures (s % 0x1_0000_0000 + z) % 0x1_0000_0000 == (s + z) % 0x1_0000_0000
  {
    var q := s / 0x1_0000_0000;
    assert s + z == (s % 0x1_0000_0000 + z) + q * 0x1_0000_0000;
  }

  lemma {:induction false} AddAssociates32(x: u32, y: u32, z: u32)
    ensures Add32(Add32(x, y), z) == Add32(x, Add32(y, z))
  {
    Reduced32(x as nat + y as nat, z as nat);
    Reduced32(y as nat + z as nat, x as nat);
  }

  lemma {:induction false} Lawful256()
    ensures Lawful(Arith256())
  {
    var ar := Arith256();
    forall x, y ensures Commutes(ar, x, y) {
    }
    forall x, y, z ensures Associates(ar, x, y, z) {
      AddAssociates32(x, y, z);
    }
  }

  newtype u64 = x: int | 0 <= x < 0x1_0000_0000_0000_0000

  /** Addition wraps around. */
  function Add64(x: u64, y: u64): u64 { ((x as int + y as int) % 0x1_0000_0000_0000_0000) as u64 }

  function Upper064(x: u64): u64 { BigSigma064(x as bv64) as u64 }
  function Upper164(x: u64): u64 { BigSigma164(x as bv64) as u64 }
  function Lower064(x: u64): u64 { SmallSigma064(x as bv64) as u64 }
  function Lower164(x: u64): u64 { SmallSigma164(x as bv64) as u64 }
  function Choice64(x: u64, y: u64, z: u64): u64 { Ch64(x as bv64, y as bv64, z as bv64) as u64 }
  function Majority64(x: u64, y: u64, z: u64): u64 { Maj64(x as bv64, y as bv64, z as bv64) as u64 }

  function Arith512(): Arith<u64> {
    Arith(8, Add64, Upper064, Upper164, Lower064, Lower164, Choice64, Majority64, s => Load64(s) as u64, StoreWord64, K512)
  }

  /** BE_64_TO_8 */
  function StoreWord64(x: u64): (s: seq<byte>)
    ensures |s| == 8
  {
    Shifted(x as nat, 8)
  }

  lemma Reduced64(s: nat, z: nat)
    ensures (s % 0x1_0000_0000_0000_0000 + z) % 0x1_0000_0000_0000_0000 == (s + z) % 0x1_0000_0000_0000_0000
  {
    var q := s / 0x1_0000_0000_0000_0000;
    assert s + z == (s % 0x1_0000_0000_0000_0000 + z) + q * 0x1_0000_0000_0000_0000;
  }

  lemma AddAssociates64(x: u64, y: u64, z: u64)
    ensures Add64(Add64(x, y), z) == Add64(x, Add64(y, z))
  {
    Reduced64(x as nat + y as nat, z as nat);
    Reduced64(y as nat + z as nat, x as nat);
  }

  lemma {:induction false} Lawful512()
    ensures Lawful(Arith512())
  {
    var ar := Arith512();
    forall x, y ensures Commutes(ar, x, y) {
    }
    forall x, y, z ensures Associates(ar, x, y, z) {
      AddAssociates64(x, y, z);
    }
  }

  // ---- The constants ----

  /** `x` is the fraction of the cube root of `p`, whose whole part is `c`, to as many bits as `unit` has. */
  predicate CubeRoot(x: nat, c: nat, p: nat, unit: nat) {
    var n := c * unit + x;
    n * n * n <= p * unit * unit * unit < (n + 1) * (n + 1) * (n + 1)
  }

  predicate SquareRoot(x: nat, c: nat, p: nat, unit: nat) {
    var n := c * unit + x;
    n * n <= p * unit * unit < (n + 1) * (n + 1)
  }

  predicate Cube32(x: u32, c: nat, p: nat) { CubeRoot(x as nat, c, p, 0x1_0000_0000) }
  predicate Cube64(x: u64, c: nat, p: nat) { CubeRoot(x as nat, c, p, 0x1_0000_0000_0000_0000) }
  predicate Square32(x: u32, c: nat, p: nat) { SquareRoot(x as nat, c, p, 0x1_0000_0000) }
  predicate Square64(x: u64, c: nat, p: nat) { SquareRoot(x as nat, c, p, 0x1_0000_0000_0000_0000) }

  /** Section 4.2.2 of FIPS 180-4: the cube roots of the first 64 primes. */
  lemma K256Row0()
    ensures Cube32(K256_0[0], 1, 2) && Cube32(K256_0[1], 1, 3) && Cube32(K256_0[2], 1, 5) && Cube32(K256_0[3], 1, 7)
    ensures Cube32(K256_0[4], 2, 11) && Cube32(K256_0[5], 2, 13) && Cube32(K256_0[6], 2, 17) && Cube32(K256_0[7], 2, 19)
  {
  }

  lemma K256Row1()
    ensures Cube32(K256_1[0], 2, 23) && Cube32(K256_1[1], 3, 29) && Cube32(K256_1[2], 3, 31) && Cube32(K256_1[3], 3, 37)
    ensures Cube32(K256_1[4], 3, 41) && Cube32(K256_1[5], 3, 43) && Cube32(K256_1[6], 3, 47) && Cube32(K256_1[7], 3, 53)
  {
  }

  lemma K256Row2()
    ensures Cube32(K256_2[0], 3, 59) && Cube32(K256_2[1], 3, 61) && Cube32(K256_2[2], 4, 67) && Cube32(K256_2[3], 4, 71)
    ensures Cube32(K256_2[4], 4, 73) && Cube32(K256_2[5], 4, 79) && Cube32(K256_2[6], 4, 83) && Cube32(K256_2[7], 4, 89)
  {
  }

  lemma K256Row3()
    ensures Cube32(K256_3[0], 4, 97) && Cube32(K256_3[1], 4, 101) && Cube32(K256_3[2], 4, 103)
    ensures Cube32(K256_3[3], 4, 107) && Cube32(K256_3[4], 4, 109) && Cube32(K256_3[5], 4, 113)
    ensures Cube32(K256_3[6], 5, 127) && Cube32(K256_3[7], 5, 131)
  {
  }

  lemma K256Row4()
    ensures Cube32(K256_4[0], 5, 137) && Cube32(K256_4[1], 5, 139) && Cube32(K256_4[2], 5, 149)
    ensures Cube32(K256_4[3], 5, 151) && Cube32(K256_4[4], 5, 157) && Cube32(K256_4[5], 5, 163)
    ensures Cube32(K256_4[6], 5, 167) && Cube32(K256_4[7], 5, 173)
  {
  }

  lemma K256Row5()
    ensures Cube32(K256_5[0], 5, 179) && Cube32(K256_5[1], 5, 181) && Cube32(K256_5[2], 5, 191)
    ensures Cube32(K256_5[3], 5, 193) && Cube32(K256_5[4], 5, 197) && Cube32(K256_5[5], 5, 199)
    ensures Cube32(K256_5[6], 5, 211) && Cube32(K256_5[7], 6, 223)
  {
  }

  lemma K256Row6()
    ensures Cube32(K256_6[0], 6, 227) && Cube32(K256_6[1], 6, 229) && Cube32(K256_6[2], 6, 233)
    ensures Cube32(K256_6[3], 6, 239) && Cube32(K256_6[4], 6, 241) && Cube32(K256_6[5], 6, 251)
    ensures Cube32(K256_6[6], 6, 257) && Cube32(K256_6[7], 6, 263)
  {
  }

  lemma K256Row7()
    ensures Cube32(K256_7[0], 6, 269) && Cube32(K256_7[1], 6, 271) && Cube32(K256_7[2], 6, 277)
    ensures Cube32(K256_7[3], 6, 281) && Cube32(K256_7[4], 6, 283) && Cube32(K256_7[5], 6, 293)
    ensures Cube32(K256_7[6], 6, 307) && Cube32(K256_7[7], 6, 311)
  {
  }

  /** Section 4.2.3: the cube roots of the first 80 primes. */
  lemma K512Row0()
    ensures Cube64(K512_0[0], 1, 2) && Cube64(K512_0[1], 1, 3) && Cube64(K512_0[2], 1, 5) && Cube64(K512_0[3], 1, 7)
    ensures Cube64(K512_0[4], 2, 11) && Cube64(K512_0[5], 2, 13) && Cube64(K512_0[6], 2, 17) && Cube64(K512_0[7], 2, 19)
  {
  }

  lemma K512Row1()
    ensures Cube64(K512_1[0], 2, 23) && Cube64(K512_1[1], 3, 29) && Cube64(K512_1[2], 3, 31) && Cube64(K512_1[3], 3, 37)
    ensures Cube64(K512_1[4], 3, 41) && Cube64(K512_1[5], 3, 43) && Cube64(K512_1[6], 3, 47) && Cube64(K512_1[7], 3, 53)
  {
  }

  lemma K512Row2()
    ensures Cube64(K512_2[0], 3, 59) && Cube64(K512_2[1], 3, 61) && Cube64(K512_2[2], 4, 67) && Cube64(K512_2[3], 4, 71)
    ensures Cube64(K512_2[4], 4, 73) && Cube64(K512_2[5], 4, 79) && Cube64(K512_2[6], 4, 83) && Cube64(K512_2[7], 4, 89)
  {
  }

  lemma K512Row3()
    ensures Cube64(K512_3[0], 4, 97) && Cube64(K512_3[1], 4, 101) && Cube64(K512_3[2], 4, 103)
    ensures Cube64(K512_3[3], 4, 107) && Cube64(K512_3[4], 4, 109) && Cube64(K512_3[5], 4, 113)
    ensures Cube64(K512_3[6], 5, 127) && Cube64(K512_3[7], 5, 131)
  {
  }

  lemma K512Row4()
    ensures Cube64(K512_4[0], 5, 137) && Cube64(K512_4[1], 5, 139) && Cube64(K512_4[2], 5, 149)
    ensures Cube64(K512_4[3], 5, 151) && Cube64(K512_4[4], 5, 157) && Cube64(K512_4[5], 5, 163)
    ensures Cube64(K512_4[6], 5, 167) && Cube64(K512_4[7], 5, 173)
  {
  }

  lemma K512Row5()
    ensures Cube64(K512_5[0], 5, 179) && Cube64(K512_5[1], 5, 181) && Cube64(K512_5[2], 5, 191)
    ensures Cube64(K512_5[3], 5, 193) && Cube64(K512_5[4], 5, 197) && Cube64(K512_5[5], 5, 199)
    ensures Cube64(K512_5[6], 5, 211) && Cube64(K512_5[7], 6, 223)
  {
  }

  lemma K512Row6()
    ensures Cube64(K512_6[0], 6, 227) && Cube64(K512_6[1], 6, 229) && Cube64(K512_6[2], 6, 233)
    ensures Cube64(K512_6[3], 6, 239) && Cube64(K512_6[4], 6, 241) && Cube64(K512_6[5], 6, 251)
    ensures Cube64(K512_6[6], 6, 257) && Cube64(K512_6[7], 6, 263)
  {
  }

  lemma K512Row7()
    ensures Cube64(K512_7[0], 6, 269) && Cube64(K512_7[1], 6, 271) && Cube64(K512_7[2], 6, 277)
    ensures Cube64(K512_7[3], 6, 281) && Cube64(K512_7[4], 6, 283) && Cube64(K512_7[5], 6, 293)
    ensures Cube64(K512_7[6], 6, 307) && Cube64(K512_7[7], 6, 311)
  {
  }

  lemma K512Row8()
    ensures Cube64(K512_8[0], 6, 313) && Cube64(K512_8[1], 6, 317) && Cube64(K512_8[2], 6, 331)
    ensures Cube64(K512_8[3], 6, 337) && Cube64(K512_8[4], 7, 347) && Cube64(K512_8[5], 7, 349)
    ensures Cube64(K512_8[6], 7, 353) && Cube64(K512_8[7], 7, 359)
  {
  }

  lemma K512Row9()
    ensures Cube64(K512_9[0], 7, 367) && Cube64(K512_9[1], 7, 373) && Cube64(K512_9[2], 7, 379)
    ensures Cube64(K512_9[3], 7, 383) && Cube64(K512_9[4], 7, 389) && Cube64(K512_9[5], 7, 397)
    ensures Cube64(K512_9[6], 7, 401) && Cube64(K512_9[7], 7, 409)
  {
  }

  /** Section 5.3.3: the square roots of the first eight primes. */
  lemma Initial256()
    ensures Square32(INIT256[0], 1, 2) && Square32(INIT256[1], 1, 3) && Square32(INIT256[2], 2, 5)
    ensures Square32(INIT256[3], 2, 7) && Square32(INIT256[4], 3, 11) && Square32(INIT256[5], 3, 13)
    ensures Square32(INIT256[6], 4, 17) && Square32(INIT256[7], 4, 19)
  {
  }

  /** Section 5.3.5: the same to 64 bits. */
  lemma Initial512()
    ensures Square64(INIT512[0], 1, 2) && Square64(INIT512[1], 1, 3) && Square64(INIT512[2], 2, 5)
    ensures Square64(INIT512[3], 2, 7) && Square64(INIT512[4], 3, 11) && Square64(INIT512[5], 3, 13)
    ensures Square64(INIT512[6], 4, 17) && Square64(INIT512[7], 4, 19)
  {
  }

  /** Section 5.3.4: the square roots of the next eight. */
  lemma Initial384()
    ensures Square64(INIT384[0], 4, 23) && Square64(INIT384[1], 5, 29) && Square64(INIT384[2], 5, 31)
    ensures Square64(INIT384[3], 6, 37) && Square64(INIT384[4], 6, 41) && Square64(INIT384[5], 6, 43)
    ensures Square64(INIT384[6], 6, 47) && Square64(INIT384[7], 7, 53)
  {
  }

  // ---- The standard ----

  /** One round, as section 6.2.2 of FIPS 180-4 writes it. */
  lemma Round256Is(r: Regs<u32>, k: u32, w: u32)
    ensures var t1 := Add32(Add32(Add32(Add32(r.h, Upper132(r.e)), Choice32(r.e, r.f, r.g)), k), w);
            var t2 := Add32(Upper032(r.a), Majority32(r.a, r.b, r.c));
            Round(Arith256(), r, k, w) == Regs(Add32(t1, t2), r.a, r.b, r.c, Add32(r.d, t1), r.e, r.f, r.g)
  {
  }

  /** And its message schedule. */
  lemma Schedule256Is(m: seq<u32>, t: nat)
    requires |m| == 16
    ensures var w := (i: nat) => Schedule(Arith256(), m, i);
            if t < 16 then w(t) == m[t]
            else w(t) == Add32(Add32(Add32(Lower132(w(t - 2)), w(t - 7)), Lower032(w(t - 15))), w(t - 16))
  {
  }

  lemma Back32(x: bv32)
    ensures (x as u32) as bv32 == x
  {
  }

  /** The functions on words are those on their bits. */
  lemma Upper032Is(x: bv32)
    ensures Upper032(x as u32) == BigSigma032(x) as u32
  {
    Back32(x);
    assert Upper032(x as u32) == BigSigma032((x as u32) as bv32) as u32;
  }

  lemma Upper132Is(x: bv32)
    ensures Upper132(x as u32) == BigSigma132(x) as u32
  {
    Back32(x);
    assert Upper132(x as u32) == BigSigma132((x as u32) as bv32) as u32;
  }

  lemma Lower032Is(x: bv32)
    ensures Lower032(x as u32) == SmallSigma032(x) as u32
  {
    Back32(x);
    assert Lower032(x as u32) == SmallSigma032((x as u32) as bv32) as u32;
  }

  lemma Lower132Is(x: bv32)
    ensures Lower132(x as u32) == SmallSigma132(x) as u32
  {
    Back32(x);
    assert Lower132(x as u32) == SmallSigma132((x as u32) as bv32) as u32;
  }

  lemma Choice32Is(x: bv32, y: bv32, z: bv32)
    ensures Choice32(x as u32, y as u32, z as u32) == Ch32(x, y, z) as u32
  {
    Back32(x);
    Back32(y);
    Back32(z);
    assert Choice32(x as u32, y as u32, z as u32) == Ch32((x as u32) as bv32, (y as u32) as bv32, (z as u32) as bv32) as u32;
  }

  lemma Majority32Is(x: bv32, y: bv32, z: bv32)
    ensures Majority32(x as u32, y as u32, z as u32) == Maj32(x, y, z) as u32
  {
    Back32(x);
    Back32(y);
    Back32(z);
    assert Majority32(x as u32, y as u32, z as u32) == Maj32((x as u32) as bv32, (y as u32) as bv32, (z as u32) as bv32) as u32;
  }

  lemma LoadWord32Is(s: seq<byte>)
    requires |s| == 4
    ensures Arith256().load(s) as nat == FromBigEndian(s)
  {
    Load32Is(s);
  }

  /** The words of a block are its octets, most significant first. */
  lemma Words256Are(block: seq<byte>, j: nat)
    requires |block| == 64 && j < 16
    ensures Words(Arith256(), block)[j] as nat == FromBigEndian(block[4 * j..4 * j + 4])
  {
    var ar := Arith256();
    assert WordAt(block, ar.size, j) == block[4 * j..4 * j + 4];
    assert Words(ar, block)[j] == ar.load(WordAt(block, ar.size, j));
    LoadWord32Is(block[4 * j..4 * j + 4]);
  }

  /** One round, as section 6.4.2 of FIPS 180-4 writes it. */
  lemma Round512Is(r: Regs<u64>, k: u64, w: u64)
    ensures var t1 := Add64(Add64(Add64(Add64(r.h, Upper164(r.e)), Choice64(r.e, r.f, r.g)), k), w);
            var t2 := Add64(Upper064(r.a), Majority64(r.a, r.b, r.c));
            Round(Arith512(), r, k, w) == Regs(Add64(t1, t2), r.a, r.b, r.c, Add64(r.d, t1), r.e, r.f, r.g)
  {
  }

  /** And its message schedule. */
  lemma Schedule512Is(m: seq<u64>, t: nat)
    requires |m| == 16
    ensures var w := (i: nat) => Schedule(Arith512(), m, i);
            if t < 16 then w(t) == m[t]
            else w(t) == Add64(Add64(Add64(Lower164(w(t - 2)), w(t - 7)), Lower064(w(t - 15))), w(t - 16))
  {
  }

  lemma Back64(x: bv64)
    ensures (x as u64) as bv64 == x
  {
  }

  /** The functions on words are those on their bits. */
  lemma Upper064Is(x: bv64)
    ensures Upper064(x as u64) == BigSigma064(x) as u64
  {
    Back64(x);
    assert Upper064(x as u64) == BigSigma064((x as u64) as bv64) as u64;
  }

  lemma Upper164Is(x: bv64)
    ensures Upper164(x as u64) == BigSigma164(x) as u64
  {
    Back64(x);
    assert Upper164(x as u64) == BigSigma164((x as u64) as bv64) as u64;
  }

  lemma Lower064Is(x: bv64)
    ensures Lower064(x as u64) == SmallSigma064(x) as u64
  {
    Back64(x);
    assert Lower064(x as u64) == SmallSigma064((x as u64) as bv64) as u64;
  }

  lemma Lower164Is(x: bv64)
    ensures Lower164(x as u64) == SmallSigma164(x) as u64
  {
    Back64(x);
    assert Lower164(x as u64) == SmallSigma164((x as u64) as bv64) as u64;
  }

  lemma Choice64Is(x: bv64, y: bv64, z: bv64)
    ensures Choice64(x as u64, y as u64, z as u64) == Ch64(x, y, z) as u64
  {
    Back64(x);
    Back64(y);
    Back64(z);
    assert Choice64(x as u64, y as u64, z as u64) == Ch64((x as u64) as bv64, (y as u64) as bv64, (z as u64) as bv64) as u64;
  }

  lemma Majority64Is(x: bv64, y: bv64, z: bv64)
    ensures Majority64(x as u64, y as u64, z as u64) == Maj64(x, y, z) as u64
  {
    Back64(x);
    Back64(y);
    Back64(z);
    assert Majority64(x as u64, y as u64, z as u64) == Maj64((x as u64) as bv64, (y as u64) as bv64, (z as u64) as bv64) as u64;
  }

  lemma LoadWord64Is(s: seq<byte>)
    requires |s| == 8
    ensures Arith512().load(s) as nat == FromBigEndian(s)
  {
    Load64Is(s);
  }

  /** The words of a block are its octets, most significant first. */
  lemma Words512Are(block: seq<byte>, j: nat)
    requires |block| == 128 && j < 16
    ensures Words(Arith512(), block)[j] as nat == FromBigEndian(block[8 * j..8 * j + 8])
  {
    var ar := Arith512();
    assert WordAt(block, ar.size, j) == block[8 * j..8 * j + 8];
    assert Words(ar, block)[j] == ar.load(WordAt(block, ar.size, j));
    LoadWord64Is(block[8 * j..8 * j + 8]);
  }

  /** The hash value after the blocks of `data`: each block goes through all rounds, and the outcome is added to the
      value before it. */
  function Standard<W(!new)>(ar: Arith<W>, h: seq<W>, data: seq<byte>): (r: seq<W>)
    requires ar.size > 0 && |h| == 8
    ensures |r| == 8
    decreases |data|
  {
    var size := 16 * ar.size;
    if |data| < size then h
    else
      var w := Rounds(ar, Words(ar, data[..size]), Regs(h[0], h[1], h[2], h[3], h[4], h[5], h[6], h[7]), |ar.k|);
      Standard(ar, [ar.add(h[0], w.a), ar.add(h[1], w.b), ar.add(h[2], w.c), ar.add(h[3], w.d),
                    ar.add(h[4], w.e), ar.add(h[5], w.f), ar.add(h[6], w.g), ar.add(h[7], w.h)], data[size..])
  }

  function Octets32(words: seq<u32>): (s: seq<byte>)
    ensures |s| == 4 * |words|
  {
    if words == [] then [] else Octets32(words[..|words| - 1]) + BigEndian(words[|words| - 1] as nat, 4)
  }

  function Octets64(words: seq<u64>): (s: seq<byte>)
    ensures |s| == 8 * |words|
  {
    if words == [] then [] else Octets64(words[..|words| - 1]) + BigEndian(words[|words| - 1] as nat, 8)
  }

  // ---- The code ----

  /** The compression function as a value. */
  function Compressor<W(!new)>(ar: Arith<W>): (seq<W>, seq<byte>) -> seq<W> {
    (s, block) => if |s| == 8 && |block| == 16 * ar.size then Compress(ar, s, block) else s
  }

  /** It is what SHA256Transform and SHA512Transform compute, in either variant. */
  method Transformed<W(!new)>(ar: Arith<W>, unrolled: bool, state: seq<W>, block: seq<byte>) returns (state': seq<W>)
    requires Lawful(ar) && |state| == 8 && |block| == 16 * ar.size
    ensures state' == Compressor(ar)(state, block) == Standard(ar, state, block)
  {
    state' := Transform(ar, unrolled, state, block);
    OneMore(ar, state, block);
  }

  lemma OneMore<W(!new)>(ar: Arith<W>, state: seq<W>, block: seq<byte>)
    requires ar.size > 0 && |state| == 8 && |block| == 16 * ar.size
    ensures Standard(ar, state, block) == Compress(ar, state, block)
  {
    assert block[..16 * ar.size] == block && block[16 * ar.size..] == [];
  }

  lemma {:induction false} FoldIsStandard<W(!new)>(ar: Arith<W>, h: seq<W>, data: seq<byte>)
    requires ar.size > 0 && |h| == 8
    ensures Fold(Compressor(ar), 16 * ar.size, h, data) == Standard(ar, h, data)
    decreases |data|
  {
    var size := 16 * ar.size;
    if |data| >= size {
      FoldIsStandard(ar, Compressor(ar)(h, data[..size]), data[size..]);
    }
  }

  /** The first `n` words of the state, one after the other. */
  function Stored<W>(store: W -> seq<byte>, state: seq<W>, n: nat): (d: seq<byte>)
    requires n <= |state|
  {
    if n == 0 then [] else Stored(store, state, n - 1) + store(state[n - 1])
  }

  /** The storing loops of SHA256Final, SHA384Final and SHA512Final. */
  method StoreWords<W>(store: W -> seq<byte>, state: seq<W>, n: nat) returns (digest: seq<byte>)
    requires n <= |state|
    ensures digest == Stored(store, state, n)
  {
    digest := [];
    for i := 0 to n
      invariant digest == Stored(store, state, i)
    {
      digest := digest + store(state[i]);
    }
  }

  lemma {:induction false} Stored32Is(state: seq<u32>, n: nat)
    requires n <= |state|
    ensures Stored(StoreWord32, state, n) == Octets32(state[..n])
    decreases n
  {
    if n > 0 {
      Stored32Is(state, n - 1);
      ShiftedIs(state[n - 1] as nat, 4);
      assert state[..n][..n - 1] == state[..n - 1];
    }
  }

  lemma {:induction false} Stored64Is(state: seq<u64>, n: nat)
    requires n <= |state|
    ensures Stored(StoreWord64, state, n) == Octets64(state[..n])
    decreases n
  {
    if n > 0 {
      Stored64Is(state, n - 1);
      ShiftedIs(state[n - 1] as nat, 8);
      assert state[..n][..n - 1] == state[..n - 1];
    }
  }

  /** SHA256Init, any number of SHA256Update, SHA256Final. */
  method Digest256(parts: seq<seq<byte>>) returns (digest: seq<byte>)
    ensures digest == Octets32(Standard(Arith256(), INIT256, Padded(Flatten(parts), 64, 8))) && |digest| == 32
  {
    Shapes();
    var state := HashParts(Compressor(Arith256()), SHAPE64, INIT256, parts);
    FoldIsStandard(Arith256(), INIT256, Padded(Flatten(parts), 64, 8));
    digest := StoreWords(StoreWord32, state, 8);
    Stored32Is(state, 8);
    assert state[..8] == state;
  }

  /** SHA-512 stores eight words of the hash value, SHA-384 six of its own. */
  method DigestFrom(init: seq<u64>, words: nat, parts: seq<seq<byte>>) returns (digest: seq<byte>)
    requires |init| == 8 && words <= 8
    ensures digest == Octets64(Standard(Arith512(), init, Padded(Flatten(parts), 128, 16))[..words])
  {
    Shapes();
    var state := HashParts(Compressor(Arith512()), SHAPE128, init, parts);
    FoldIsStandard(Arith512(), init, Padded(Flatten(parts), 128, 16));
    digest := StoreWords(StoreWord64, state, words);
    Stored64Is(state, words);
  }

  /** SHA512Init, any number of SHA512Update, SHA512Final. */
  method Digest512(parts: seq<seq<byte>>) returns (digest: seq<byte>)
    ensures digest == Octets64(Standard(Arith512(), INIT512, Padded(Flatten(parts), 128, 16))) && |digest| == 64
  {
    digest := DigestFrom(INIT512, 8, parts);
    ghost var h := Standard(Arith512(), INIT512, Padded(Flatten(parts), 128, 16));
    assert h[..8] == h;
  }

  /** SHA384Init, any number of SHA384Update, SHA384Final. */
  method Digest384(parts: seq<seq<byte>>) returns (digest: seq<byte>)
    ensures digest == Octets64(Standard(Arith512(), INIT384, Padded(Flatten(parts), 128, 16))[..6]) && |digest| == 48
  {
    digest := DigestFrom(INIT384, 6, parts);
  }
}
