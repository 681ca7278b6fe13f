/** Hashing a message block by block: the part of FIPS 180-4 the incremental interfaces share. */
module Blocks {
  import opened Bytes

  /** The compression function folded over the whole blocks of `data` (section 6 of FIPS 180-4). */
  function Fold<H>(compress: (H, seq<byte>) -> H, size: nat, h: H, data: seq<byte>): (r: H)
    requires size > 0
    decreases |data|
  {
    if |data| < size then h else Fold(compress, size, compress(h, data[..size]), data[size..])
  }

  /** `n` octets are whole blocks. */
  ghost predicate Aligned(n: nat, size: nat) {
    n == 0 || (n >= size > 0 && Aligned(n - size, size))
  }

  lemma {:induction false} AlignedIsMod(n: nat, size: nat)
    requires size > 0 && Aligned(n, size)
    ensures n % size == 0
    decreases n
  {
    if n > 0 {
      AlignedIsMod(n - size, size);
      ModDrop(n, size);
    } else {
      ModSmall(0, size);
    }
  }

  /** Whole blocks first, then the rest. */
  lemma {:induction false} FoldAppend<H>(compress: (H, seq<byte>) -> H, size: nat, h: H, a: seq<byte>, b: seq<byte>)
    requires size > 0 && Aligned(|a|, size)
    ensures Fold(compress, size, h, a + b) == Fold(compress, size, Fold(compress, size, h, a), b)
    decreases |a|
  {
    if |a| < size {
      assert a + b == b;
    } else {
      assert (a + b)[..size] == a[..size] && (a + b)[size..] == a[size..] + b;
      FoldAppend(compress, size, compress(h, a[..size]), a[size..], b);
    }
  }

  lemma ModSmall(n: nat, size: nat)
    requires n < size
    ensures n % size == n
  {
  }

  lemma ModDrop(n: nat, size: nat)
    requires 0 < size <= n
    ensures (n - size) % size == n % size
  {
    var q := n / size;
    assert n - size == size * (q - 1) + n % size;
    ModUnique(n - size, size, q - 1, n % size);
  }

  lemma ModUnique(n: int, size: int, q: int, r: int)
    requires size > 0 && n == size * q + r && 0 <= r < size
    ensures n % size == r && n / size == q
  {
    var q', r' := n / size, n % size;
    DivMod(n, size);
    var d := q' - q;
    assert size * d == size * q' - size * q == r - r';
    if d >= 1 {
      MulAtLeast(size, d);
    } else if d <= -1 {
      MulAtLeast(size, -d);
    }
  }

  lemma DivMod(n: int, size: int)
    requires size > 0
    ensures n == size * (n / size) + n % size && 0 <= n % size < size
  {
  }

  lemma MulAtLeast(size: int, d: int)
    requires size > 0 && d >= 1
    ensures size * d >= size
  {
  }

  /** One more block. */
  lemma {:induction false} FoldBlock<H>(compress: (H, seq<byte>) -> H, size: nat, h: H, a: seq<byte>, block: seq<byte>)
    requires size > 0 && Aligned(|a|, size) && |block| == size
    ensures Aligned(|a + block|, size)
    ensures Fold(compress, size, h, a + block) == compress(Fold(compress, size, h, a), block)
  {
    FoldAppend(compress, size, h, a, block);
    assert block[..size] == block && block[size..] == [];
    AlignedMore(|a|, size);
  }

  lemma AlignedMore(n: nat, size: nat)
    requires size > 0 && Aligned(n, size)
    ensures Aligned(n + size, size)
  {
  }

  /** How many zero octets sections 5.1.1 and 5.1.2 of FIPS 180-4 put between the 1 bit and the length:
      the smallest number that completes a block. */
  function Zeros(n: nat, size: nat, lenSize: nat): (k: nat)
    requires size > lenSize
    ensures k < size
  {
    (size - 1 - (n + lenSize) % size)
  }

  function ZeroOctets(n: nat): (s: seq<byte>)
    ensures |s| == n && forall i :: 0 <= i < n ==> s[i] == 0
  {
    seq(n, _ => 0)
  }

  /** The padded message. */
  function Padded(m: seq<byte>, size: nat, lenSize: nat): (s: seq<byte>)
    requires size > lenSize
  {
    m + [0x80] + ZeroOctets(Zeros(|m|, size, lenSize)) + BigEndian(8 * |m|, lenSize)
  }

  lemma ZerosComplete(n: nat, size: nat, lenSize: nat)
    requires size > lenSize
    ensures (n + 1 + Zeros(n, size, lenSize) + lenSize) % size == 0
  {
    var q := (n + lenSize) / size;
    DivMod(n + lenSize, size);
    assert n + 1 + Zeros(n, size, lenSize) + lenSize == size * q + size == size * (q + 1);
    ModUnique(n + 1 + Zeros(n, size, lenSize) + lenSize, size, q + 1, 0);
  }

  lemma PaddedParts(m: seq<byte>, k: nat, field: seq<byte>)
    ensures var p := m + [0x80] + ZeroOctets(k) + field;
            && |p| == |m| + 1 + k + |field| && p[..|m|] == m && Val(p[|m|]) == 128 && p[|m| + 1 + k..] == field
            && forall i :: |m| < i < |m| + 1 + k ==> Val(p[i]) == 0
  {
  }

  /** The padded message as section 5.1 of FIPS 180-4 asks for it: whole blocks, no more than it takes, with the
      message, a 1 bit, zeros and the length in bits. */
  lemma PaddedExact(m: seq<byte>, size: nat, lenSize: nat)
    requires size > lenSize
    ensures var (p, end) := (Padded(m, size, lenSize), |Padded(m, size, lenSize)| - lenSize);
            && |p| % size == 0 && |m| < end && |p| < |m| + 1 + lenSize + size
            && p[..|m|] == m && Val(p[|m|]) == 128 && (forall i :: |m| < i < end ==> Val(p[i]) == 0)
            && (8 * |m| < Pow(256, lenSize) ==> FromBigEndian(p[end..]) == 8 * |m|)
  {
    ZerosComplete(|m|, size, lenSize);
    PaddedParts(m, Zeros(|m|, size, lenSize), BigEndian(8 * |m|, lenSize));
    if 8 * |m| < Pow(256, lenSize) {
      BigEndianRoundTrip(8 * |m|, lenSize);
    }
  }

  /** The zeros, by how much of the last block is in use. */
  lemma ZerosByTail(whole: nat, tail: nat, size: nat, lenSize: nat)
    requires size > lenSize && whole % size == 0 && tail < size
    ensures Zeros(whole + tail, size, lenSize) ==
      if tail + 1 + lenSize <= size then size - lenSize - 1 - tail else 2 * size - lenSize - 1 - tail
  {
    var q := whole / size;
    DivMod(whole, size);
    if tail + 1 + lenSize <= size {
      ModUnique(whole + tail + lenSize, size, q, tail + lenSize);
    } else {
      assert size * (q + 1) == size * q + size;
      ModUnique(whole + tail + lenSize, size, q + 1, tail + lenSize - size);
    }
  }

  /** The padded message as blocks: the whole ones, then one or two more that start with the tail. */
  lemma {:induction false} PaddedByTail(whole: seq<byte>, tail: seq<byte>, size: nat, lenSize: nat)
    requires size > lenSize && Aligned(|whole|, size) && |tail| < size
    ensures var len := BigEndian(8 * (|whole| + |tail|), lenSize);
            Padded(whole + tail, size, lenSize) ==
              if |tail| + 1 + lenSize <= size then whole + (tail + [0x80] + ZeroOctets(size - lenSize - 1 - |tail|) + len)
              else whole + (tail + [0x80] + ZeroOctets(size - 1 - |tail|)) + (ZeroOctets(size - lenSize) + len)
  {
    AlignedIsMod(|whole|, size);
    ZerosByTail(|whole|, |tail|, size, lenSize);
  }
}
