/** The incremental interface of `sha2.c` (Init, Update, Pad, Final) around any compression function. */
module HashContext {
  import opened Bytes
  import opened Lists
  import opened Blocks

  /** `n` on a counter that wraps around at `limit`. */
  ghost function Wrapped(n: nat, limit: nat): nat
    requires limit > 0
  {
    if n < limit then n else Wrapped(n - limit, limit)
  }

  lemma {:induction false} WrappedIsMod(n: nat, limit: nat)
    requires limit > 0
    ensures Wrapped(n, limit) == n % limit
    decreases n
  {
    if n >= limit {
      WrappedIsMod(n - limit, limit);
      ModDrop(n, limit);
    } else {
      ModSmall(n, limit);
    }
  }

  /** The sizes that tell the members of the family apart, in octets. */
  datatype Shape = Shape(
    block: nat,      // SHA256_BLOCK_LENGTH, SHA512_BLOCK_LENGTH
    lenSize: nat,    // the length field
    limit: nat,      // the bit count wraps around here
    wipe: nat)       // how much of the buffer Pad clears for an extra block
  {
    ghost predicate Valid() {
      && 0 < lenSize < block && Short() <= wipe <= block && 8 * block < WORD
      && limit == Pow(256, lenSize) && Aligned(WORD, 8 * block)
      && (if Wide() then lenSize == 16 && limit == WORD * WORD else lenSize == 8 && limit == WORD)
    }

    /** Whether the bit count takes two words. */
    predicate Wide() { lenSize > 8 }

    function Short(): (n: int) { block - lenSize }
  }

  /** The hash value of section 6 of FIPS 180-4, before truncation. */
  ghost function Hash<H>(compress: (H, seq<byte>) -> H, v: Shape, init: H, m: seq<byte>): H
    requires v.lenSize < v.block
  {
    Fold(compress, v.block, init, Padded(m, v.block, v.lenSize))
  }

  const WORD: nat := 0x1_0000_0000_0000_0000

  /** `bitcount`: two words, of which the shorter hashes use the first. */
  datatype Counter = Counter(lo: nat, hi: nat)

  /** The counter after `n` bits. */
  ghost predicate Counts(k: Counter, v: Shape, n: nat) {
    && k.lo < WORD && k.hi < WORD && v.limit > 0
    && (if v.Wide() then WORD * k.hi + k.lo else k.lo) == Wrapped(n, v.limit)
  }

  /** SHA2_CTX */
  datatype Ctx<H> = Ctx(state: H, buffer: seq<byte>, count: Counter)

  /** The context after the message `whole + tail`: the state is the hash of the whole blocks, the buffer
      starts with the tail, and the count is the number of bits. */
  ghost predicate Tracks<H>(compress: (H, seq<byte>) -> H, v: Shape, init: H, c: Ctx<H>, whole: seq<byte>, tail: seq<byte>) {
    && v.Valid() && |c.buffer| == v.block
    && Aligned(|whole|, v.block) && |tail| < v.block
    && c.buffer[..|tail|] == tail && c.state == Fold(compress, v.block, init, whole)
    && Counts(c.count, v, 8 * (|whole| + |tail|))
  }

  /** How much of the buffer is in use, read off a bit count that may have wrapped around. */
  lemma UsedSpace(size: nat, whole: nat, tail: nat, limit: nat, count: nat)
    requires size > 0 && whole % size == 0 && tail < size
    requires limit > 0 && limit % (8 * size) == 0 && count == (8 * (whole + tail)) % limit
    ensures (count / 8) % size == tail
  {
    var n, q, c, w := whole + tail, (8 * (whole + tail)) / limit, limit / (8 * size), whole / size;
    DivMod(8 * n, limit);
    DivMod(limit, 8 * size);
    DivMod(whole, size);
    assert limit * q == ((8 * size) * c) * q == 8 * (size * (c * q)) by {
      Mul3(8 * size, c, q);
      Mul3(8, size, c * q);
    }
    assert count == 8 * (n - size * (c * q));
    assert count / 8 == n - size * (c * q) == size * w + tail - size * (c * q) == size * (w - c * q) + tail by {
      Distribute(size, w, c * q);
    }
    ModUnique(count / 8, size, w - c * q, tail);
  }

  lemma Mul3(a: int, b: int, c: int)
    ensures (a * b) * c == a * (b * c)
  {
  }

  lemma Distribute(a: int, b: int, c: int)
    ensures a * (b - c) == a * b - a * c && a * (b + c) == a * b + a * c
  {
  }

  /** Counting modulo the limit. */
  lemma CountMore(n: nat, k: nat, limit: nat)
    requires limit > 0
    ensures (n % limit + k) % limit == (n + k) % limit
  {
    var q, q' := n / limit, (n % limit + k) / limit;
    DivMod(n, limit);
    DivMod(n % limit + k, limit);
    Distribute(limit, q, q');
    ModUnique(n + k, limit, q + q', (n % limit + k) % limit);
  }

  // ---- The counter ----

  /** ADDINC128: add to the low word, and carry if it wrapped around. */
  function AddInc128(lo: nat, hi: nat, n: nat): (w: (nat, nat))
    requires lo < WORD && hi < WORD && n < WORD
  {
    var lo' := (lo + n) % WORD;
    (lo', if lo' < n then (hi + 1) % WORD else hi)
  }

  /** It counts modulo 2^128. */
  lemma AddInc128Counts(lo: nat, hi: nat, n: nat)
    requires lo < WORD && hi < WORD && n < WORD
    ensures var w := AddInc128(lo, hi, n);
            w.0 < WORD && w.1 < WORD && WORD * w.1 + w.0 == (WORD * hi + lo + n) % (WORD * WORD)
  {
    var carry := if lo + n >= WORD then 1 else 0;
    ModUnique(lo + n, WORD, carry, lo + n - WORD * carry);
    var over := if hi + carry == WORD then 1 else 0;
    var w := AddInc128(lo, hi, n);
    assert w.1 == hi + carry - WORD * over;
    ModUnique(WORD * hi + lo + n, WORD * WORD, over, WORD * w.1 + w.0);
  }

  /** Storing the high word and then the low word is storing the whole count. */
  lemma {:induction false} TwoWordField(hi: nat, lo: nat)
    requires lo < WORD
    ensures BigEndian(WORD * hi + lo, 16) == BigEndian(hi, 8) + BigEndian(lo, 8)
  {
    assert Pow(256, 8) == WORD by {
      assert Pow(256, 4) == 256 * Pow(256, 3) && Pow(256, 3) == 256 * Pow(256, 2) && Pow(256, 2) == 256 * Pow(256, 1);
      assert Pow(256, 8) == 256 * Pow(256, 7) && Pow(256, 7) == 256 * Pow(256, 6);
      assert Pow(256, 6) == 256 * Pow(256, 5) && Pow(256, 5) == 256 * Pow(256, 4);
    }
    FieldSplit(hi, lo, 8, 8);
  }

  lemma {:induction false} FieldSplit(hi: nat, lo: nat, a: nat, b: nat)
    requires lo < Pow(256, b)
    ensures BigEndian(Pow(256, b) * hi + lo, a + b) == BigEndian(hi, a) + BigEndian(lo, b)
    decreases b
  {
    if b > 0 {
      var p := Pow(256, b - 1);
      var n := Pow(256, b) * hi + lo;
      DivMod(lo, 256);
      QuotientBelow(lo, p);
      Mul3(256, p, hi);
      assert n == 256 * (p * hi + lo / 256) + lo % 256;
      ModUnique(n, 256, p * hi + lo / 256, lo % 256);
      FieldSplit(hi, lo / 256, a, b - 1);
      assert BigEndian(hi, a) + BigEndian(lo / 256, b - 1) + [Octet(lo % 256)] == BigEndian(hi, a) + BigEndian(lo, b);
    } else {
      assert BigEndian(hi, a) + [] == BigEndian(hi, a);
    }
  }

  /** The low word of the counter counts modulo its own size, whether there is a high word or not. */
  lemma {:induction false} LowWord(k: Counter, v: Shape, n: nat)
    requires v.Valid() && Counts(k, v, n)
    ensures k.lo == Wrapped(n, WORD)
  {
    WrappedIsMod(n, WORD);
    if v.Wide() {
      WrappedIsMod(n, WORD * WORD);
      var q := n / (WORD * WORD);
      DivMod(n, WORD * WORD);
      Mul3(WORD, WORD, q);
      Distribute(WORD, WORD * q, k.hi);
      ModUnique(n, WORD, WORD * q + k.hi, k.lo);
    }
  }

  /** `(bitcount[0] >> 3) % BLOCK_LENGTH` is the length of the tail, even after the count wrapped around. */
  method InUse(k: Counter, v: Shape, ghost whole: nat, ghost tail: nat) returns (used: nat)
    requires v.Valid() && Aligned(whole, v.block) && tail < v.block && Counts(k, v, 8 * (whole + tail))
    ensures used == tail
  {
    AlignedIsMod(WORD, 8 * v.block);
    AlignedIsMod(whole, v.block);
    LowWord(k, v, 8 * (whole + tail));
    WrappedIsMod(8 * (whole + tail), WORD);
    UsedSpace(v.block, whole, tail, WORD, k.lo);
    used := (k.lo / 8) % v.block;
  }

  /** `bitcount[0] += len << 3`, or ADDINC128 with it. */
  method Counted(k: Counter, v: Shape, len: nat, ghost n: nat) returns (k': Counter)
    requires v.Valid() && Counts(k, v, 8 * n) && (v.Wide() ==> 8 * len < WORD)
    ensures Counts(k', v, 8 * (n + len))
  {
    WrappedIsMod(8 * n, v.limit);
    WrappedIsMod(8 * (n + len), v.limit);
    CountMore(8 * n, 8 * len, v.limit);
    if v.Wide() {
      AddInc128Counts(k.lo, k.hi, 8 * len);
      var (lo, hi) := AddInc128(k.lo, k.hi, 8 * len);
      k' := Counter(lo, hi);
    } else {
      k' := k.(lo := (k.lo + 8 * len) % WORD);
    }
  }

  /** The length field: the high word, if there is one, and then the low word. */
  method Field(k: Counter, v: Shape, ghost n: nat) returns (field: seq<byte>)
    requires v.Valid() && Counts(k, v, n)
    ensures field == BigEndian(n, v.lenSize)
  {
    CountField(n, v.limit, v.lenSize);
    if v.Wide() {
      TwoWordField(k.hi, k.lo);
      field := BigEndian(k.hi, 8) + BigEndian(k.lo, 8);
    } else {
      field := BigEndian(k.lo, 8);
    }
  }

  /** Put `d` behind the tail; a block that fills up is compressed. */
  method Absorb<H>(compress: (H, seq<byte>) -> H, v: Shape, ghost init: H, c: Ctx<H>, ghost whole: seq<byte>, ghost tail: seq<byte>, d: seq<byte>)
    returns (c': Ctx<H>, ghost whole': seq<byte>, ghost tail': seq<byte>)
    requires Tracks(compress, v, init, c, whole, tail) && |tail| + |d| <= v.block
    ensures Tracks(compress, v, init, c', whole', tail') && whole' + tail' == whole + tail + d
    ensures |tail| + |d| == v.block ==> tail' == []
  {
    var used := InUse(c.count, v, |whole|, |tail|);
    var buffer := c.buffer[..used] + d + c.buffer[used + |d|..];
    var count := Counted(c.count, v, |d|, |whole| + |tail|);
    Assoc(whole, tail, d);
    assert buffer[..used + |d|] == tail + d;
    if used + |d| == v.block {
      assert buffer == tail + d;
      FoldBlock(compress, v.block, init, whole, buffer);
      var state := compress(c.state, buffer);
      c', whole', tail' := Ctx(state, buffer, count), whole + buffer, [];
      assert whole' + tail' == whole';
    } else {
      c', whole', tail' := Ctx(c.state, buffer, count), whole, tail + d;
    }
  }

  /** A whole block that bypasses the buffer. */
  method AbsorbBlock<H>(compress: (H, seq<byte>) -> H, v: Shape, ghost init: H, c: Ctx<H>, ghost whole: seq<byte>, d: seq<byte>) returns (c': Ctx<H>)
    requires Tracks(compress, v, init, c, whole, []) && |d| == v.block
    ensures Tracks(compress, v, init, c', whole + d, [])
  {
    FoldBlock(compress, v.block, init, whole, d);
    var state := compress(c.state, d);
    var count := Counted(c.count, v, |d|, |whole|);
    c' := Ctx(state, c.buffer, count);
  }

  /** As many whole blocks as there are from `i` on. */
  method AbsorbBlocks<H>(compress: (H, seq<byte>) -> H, v: Shape, ghost init: H, c: Ctx<H>, ghost whole: seq<byte>, data: seq<byte>, i: nat)
    returns (c': Ctx<H>, i': nat, ghost whole': seq<byte>)
    requires Tracks(compress, v, init, c, whole, []) && i <= |data|
    ensures i <= i' <= |data| && |data| - i' < v.block
    ensures Tracks(compress, v, init, c', whole', []) && whole' + data[i'..] == whole + data[i..]
  {
    var size := v.block;
    c', i', whole' := c, i, whole;
    while |data| - i' >= size
      invariant i <= i' <= |data| && Tracks(compress, v, init, c', whole', []) && whole' + data[i'..] == whole + data[i..]
    {
      var d := data[i'..i' + size];
      c' := AbsorbBlock(compress, v, init, c', whole', d);
      Regroup(whole', data, i', i' + size);
      whole' := whole' + d;
      i' := i' + size;
    }
  }

  /** SHA256Update, SHA384Update, SHA512Update: fill up the buffer, hash whole blocks from the data itself,
      keep the rest. The message grows by the data, whatever it was split into. */
  method Updated<H>(compress: (H, seq<byte>) -> H, v: Shape, ghost init: H, c: Ctx<H>, ghost whole: seq<byte>, ghost tail: seq<byte>, data: seq<byte>)
    returns (c': Ctx<H>, ghost whole': seq<byte>, ghost tail': seq<byte>)
    requires Tracks(compress, v, init, c, whole, tail)
    ensures Tracks(compress, v, init, c', whole', tail') && whole' + tail' == whole + tail + data
  {
    if |data| == 0 {
      assert whole + tail + data == whole + tail;
      return c, whole, tail;
    }
    var i;
    c', i, whole', tail' := FillUp(compress, v, init, c, whole, tail, data);
    if i < |data| {
      ghost var m := whole + tail;
      ghost var w := whole';
      c', i, whole' := AbsorbBlocks(compress, v, init, c', w, data, i);
      c', whole', tail' := KeepRest(compress, v, init, c', whole', data, i);
      Follow(m, w, data, |w| - |m|);
    } else {
      assert data[..i] == data;
    }
  }

  lemma Follow(m: seq<byte>, w: seq<byte>, data: seq<byte>, i: int)
    requires 0 <= i <= |data| && w == m + data[..i]
    ensures w + data[i..] == m + data
  {
  }

  /** What is left over goes into the empty buffer. */
  method KeepRest<H>(compress: (H, seq<byte>) -> H, v: Shape, ghost init: H, c: Ctx<H>, ghost whole: seq<byte>, data: seq<byte>, i: nat)
    returns (c': Ctx<H>, ghost whole': seq<byte>, ghost tail': seq<byte>)
    requires Tracks(compress, v, init, c, whole, []) && i <= |data| && |data| - i < v.block
    ensures Tracks(compress, v, init, c', whole', tail') && whole' + tail' == whole + data[i..]
  {
    assert whole + [] == whole;
    if |data| - i > 0 {
      c', whole', tail' := Absorb(compress, v, init, c, whole, [], data[i..]);
    } else {
      c', whole', tail' := c, whole, [];
    }
  }

  /** The first part of an update: fill up a buffer that is in use. */
  method FillUp<H>(compress: (H, seq<byte>) -> H, v: Shape, ghost init: H, c: Ctx<H>, ghost whole: seq<byte>, ghost tail: seq<byte>, data: seq<byte>)
    returns (c': Ctx<H>, i: nat, ghost whole': seq<byte>, ghost tail': seq<byte>)
    requires Tracks(compress, v, init, c, whole, tail)
    ensures i <= |data| && Tracks(compress, v, init, c', whole', tail') && whole' + tail' == whole + tail + data[..i]
    ensures i < |data| ==> tail' == [] && whole' == whole + tail + data[..i]
  {
    var used := InUse(c.count, v, |whole|, |tail|);
    if used > 0 {
      var free := v.block - used;
      i := if |data| < free then |data| else free;
      c', whole', tail' := Absorb(compress, v, init, c, whole, tail, data[..i]);
      assert tail' == [] ==> whole' + tail' == whole';
    } else {
      assert tail == [] && whole + tail == whole && whole + data[..0] == whole;
      c', i, whole', tail' := c, 0, whole, tail;
    }
  }

  lemma Regroup(m: seq<byte>, d: seq<byte>, i: nat, j: nat)
    requires i <= j <= |d|
    ensures (m + d[i..j]) + d[j..] == m + d[i..]
  {
  }

  // ---- Padding ----

  /** The length field only ever shows the count modulo its own width. */
  lemma {:induction false} LengthField(n: nat, width: nat)
    ensures Pow(256, width) > 0 && BigEndian(n % Pow(256, width), width) == BigEndian(n, width)
    decreases width
  {
    if width > 0 {
      var p := Pow(256, width - 1);
      LengthField(n / 256, width - 1);
      var q, r := n / (256 * p), n % (256 * p);
      DivMod(n, 256 * p);
      DivMod(r, 256);
      Mul3(256, p, q);
      assert n == 256 * (p * q + r / 256) + r % 256;
      ModUnique(n, 256, p * q + r / 256, r % 256);
      QuotientBelow(r, p);
      ModUnique(n / 256, p, q, r / 256);
    }
  }

  lemma {:induction false} CountField(n: nat, limit: nat, width: nat)
    requires limit > 0 && limit == Pow(256, width)
    ensures BigEndian(Wrapped(n, limit), width) == BigEndian(n, width)
  {
    WrappedIsMod(n, limit);
    LengthField(n, width);
  }

  lemma QuotientBelow(r: nat, p: nat)
    requires r < 256 * p
    ensures r / 256 < p
  {
  }

  /** The first half of padding: the 1 bit and zeros, up to the length field if it still fits behind them,
      otherwise up to the end of the block. */
  method MarkEnd(buffer: seq<byte>, used: nat, short: nat) returns (extra: bool, buffer': seq<byte>)
    requires used < |buffer| && 0 < short <= |buffer|
    ensures |buffer'| == |buffer| && extra == (used + 1 > short)
    ensures extra ==> buffer' == buffer[..used] + [0x80] + ZeroOctets(|buffer| - 1 - used)
    ensures !extra ==> buffer'[..short] == buffer[..used] + [0x80] + ZeroOctets(short - 1 - used)
  {
    extra := false;
    if used > 0 {
      buffer' := buffer[used := 0x80];
      var n := used + 1;
      if n <= short {
        buffer' := buffer'[..n] + ZeroOctets(short - n) + buffer'[short..];
      } else {
        if n < |buffer| {
          buffer' := buffer'[..n] + ZeroOctets(|buffer| - n);
        }
        extra := true;
      }
    } else {
      buffer' := ZeroOctets(short) + buffer[short..];
      buffer' := buffer'[0 := 0x80];
    }
  }

  /** The padded message is the whole blocks, the block with the marker if it has no room for the length, and
      the block that ends with the length. */
  lemma {:induction false} PaddedBlocks(whole: seq<byte>, tail: seq<byte>, size: nat, lenSize: nat, first: seq<byte>, last: seq<byte>)
    requires size > lenSize && Aligned(|whole|, size) && |tail| < size
    requires var field := BigEndian(8 * (|whole| + |tail|), lenSize);
             if |tail| + 1 > size - lenSize then
               first == tail + [0x80] + ZeroOctets(size - 1 - |tail|) && last == ZeroOctets(size - lenSize) + field
             else first == [] && last == tail + [0x80] + ZeroOctets(size - lenSize - 1 - |tail|) + field
    ensures Padded(whole + tail, size, lenSize) == whole + first + last
  {
    PaddedByTail(whole, tail, size, lenSize);
    assert whole + [] == whole;
  }

  /** The second half: a buffer that was used up is cleared, and the length goes to its end. */
  method LastBlock(buffer: seq<byte>, v: Shape, extra: bool, field: seq<byte>) returns (last: seq<byte>)
    requires v.Valid() && |buffer| == v.block && |field| == v.lenSize
    ensures |last| == v.block && last == (if extra then ZeroOctets(v.Short()) else buffer[..v.Short()]) + field
  {
    last := buffer;
    if extra {
      last := ZeroOctets(v.wipe) + last[v.wipe..];
      assert last[..v.Short()] == ZeroOctets(v.Short());
    }
    last := last[..v.Short()] + field;
  }

  /** One more block is compressed. */
  method OneBlock<H>(compress: (H, seq<byte>) -> H, size: nat, ghost init: H, ghost done: seq<byte>, state: H, buffer: seq<byte>) returns (state': H)
    requires size > 0 && Aligned(|done|, size) && |buffer| == size && state == Fold(compress, size, init, done)
    ensures Aligned(|done + buffer|, size) && state' == Fold(compress, size, init, done + buffer)
  {
    FoldBlock(compress, size, init, done, buffer);
    state' := compress(state, buffer);
  }

  /** SHA256Pad, SHA384Pad, SHA512Pad: the state ends up as the hash of the padded message. */
  method Padding<H>(compress: (H, seq<byte>) -> H, v: Shape, ghost init: H, c: Ctx<H>, ghost whole: seq<byte>, ghost tail: seq<byte>) returns (state: H)
    requires Tracks(compress, v, init, c, whole, tail)
    ensures state == Hash(compress, v, init, whole + tail)
  {
    var field := Field(c.count, v, 8 * (|whole| + |tail|));
    var used := InUse(c.count, v, |whole|, |tail|);
    var extra, buffer := MarkEnd(c.buffer, used, v.Short());
    ghost var first := [];
    state := c.state;
    assert whole + [] == whole;
    if extra {
      state := OneBlock(compress, v.block, init, whole, state, buffer);
      first := buffer;
    }
    buffer := LastBlock(buffer, v, extra, field);
    state := OneBlock(compress, v.block, init, whole + first, state, buffer);
    PaddedBlocks(whole, tail, v.block, v.lenSize, first, buffer);
  }

  /** A hash in progress. */
  class Hasher<H> {
    const compress: (H, seq<byte>) -> H
    const v: Shape
    const init: H
    var c: Ctx<H>
    ghost var whole: seq<byte>
    ghost var tail: seq<byte>

    ghost predicate Valid()
      reads this
    {
      Tracks(compress, v, init, c, whole, tail)
    }

    ghost function Message(): seq<byte>
      reads this
    {
      whole + tail
    }

    /** SHA256Init, SHA384Init, SHA512Init */
    constructor (compress: (H, seq<byte>) -> H, v: Shape, init: H)
      requires v.Valid()
      ensures Valid() && Message() == [] && this.compress == compress && this.v == v && this.init == init
    {
      this.compress, this.v, this.init := compress, v, init;
      c := Ctx(init, ZeroOctets(v.block), Counter(0, 0));
      whole, tail := [], [];
    }

    /** SHA256Update, SHA384Update, SHA512Update */
    method Update(data: seq<byte>)
      requires Valid()
      modifies this
      ensures Valid() && Message() == old(Message()) + data
    {
      c, whole, tail := Updated(compress, v, init, c, whole, tail, data);
    }

    /** SHA256Final, SHA384Final, SHA512Final up to storing the words */
    method Final() returns (state: H)
      requires Valid()
      ensures state == Hash(compress, v, init, Message())
    {
      state := Padding(compress, v, init, c, whole, tail);
    }
  }

  /** However a message is cut into updates, the result is the one-shot hash of the whole. */
  method HashParts<H>(compress: (H, seq<byte>) -> H, v: Shape, init: H, parts: seq<seq<byte>>) returns (state: H)
    requires v.Valid()
    ensures state == Hash(compress, v, init, Flatten(parts))
  {
    var h := new Hasher(compress, v, init);
    for i := 0 to |parts|
      invariant fresh(h) && h.compress == compress && h.v == v && h.init == init
      invariant h.Valid() && h.Message() == Flatten(parts[..i])
    {
      FlattenAppend(parts[..i], [parts[i]]);
      assert parts[..i + 1] == parts[..i] + [parts[i]];
      assert Flatten([parts[i]]) == parts[i] + Flatten([]) == parts[i];
      h.Update(parts[i]);
    }
    assert parts[..|parts|] == parts;
    state := h.Final();
  }

  // ---- The sizes of the family ----

  /** SHA-1 and SHA-256. */
  const SHAPE64: Shape := Shape(64, 8, 0x1_0000_0000_0000_0000, 56)
  /** SHA-384 and SHA-512, which clear all but the last two octets. */
  const SHAPE128: Shape := Shape(128, 16, 0x1_0000_0000_0000_0000_0000_0000_0000_0000, 126)

  lemma {:induction false} AlignedTimes(size: nat, c: nat)
    requires size > 0
    ensures Aligned(size * c, size)
    decreases c
  {
    if c > 0 {
      AlignedTimes(size, c - 1);
      assert size * c == size * (c - 1) + size;
    }
  }

  lemma {:induction false} PowDouble(e: nat)
    ensures Pow(256, 2 * e) == Pow(256, e) * Pow(256, e)
    decreases e
  {
    if e > 0 {
      PowDouble(e - 1);
      assert Pow(256, 2 * e) == 256 * Pow(256, 2 * e - 1) == 256 * (256 * Pow(256, 2 * (e - 1)));
    }
  }

  /** Both counters are as wide as the length field, and their low word wraps around on a block boundary. */
  lemma {:induction false} Shapes()
    ensures SHAPE64.Valid() && SHAPE128.Valid()
  {
    PowDouble(1);
    PowDouble(2);
    PowDouble(4);
    PowDouble(8);
    assert Pow(256, 1) == 256;
    AlignedTimes(512, 0x80_0000_0000_0000);
    AlignedTimes(1024, 0x40_0000_0000_0000);
  }
}
