/** `sha1.c`: the incremental interface, which pads a message by updating with single octets. */
module Sha1 {
  import opened Bytes
  import opened Lists
  import opened Blocks
  import opened HashContext

  /** SHA1Update. The buffer is topped up as soon as a block is complete, and never left full. */
  method Updated<H>(compress: (H, seq<byte>) -> H, ghost init: H, c: Ctx<H>, ghost whole: seq<byte>, ghost tail: seq<byte>, data: seq<byte>)
    returns (c': Ctx<H>, ghost whole': seq<byte>, ghost tail': seq<byte>)
    requires Tracks(compress, SHAPE64, init, c, whole, tail)
    ensures Tracks(compress, SHAPE64, init, c', whole', tail') && whole' + tail' == whole + tail + data
  {
    var j := InUse(c.count, SHAPE64, |whole|, |tail|);
    var count := Counted(c.count, SHAPE64, |data|, |whole| + |tail|);
    var state, buffer, i := c.state, c.buffer, 0;
    whole' := whole;
    if j + |data| > 63 {
      i := 64 - j;
      buffer := buffer[..j] + data[..i];
      FoldBlock(compress, 64, init, whole, buffer);
      state := compress(state, buffer);
      whole' := whole + buffer;
      TopUp(whole, tail, data, i);
      while i + 63 < |data|
        invariant i <= |data| && |buffer| == 64 && Aligned(|whole'|, 64)
        invariant state == Fold(compress, 64, init, whole') && whole' + data[i..] == whole + tail + data
      {
        FoldBlock(compress, 64, init, whole', data[i..i + 64]);
        state := compress(state, data[i..i + 64]);
        Regroup(whole', data, i, i + 64);
        whole' := whole' + data[i..i + 64];
        i := i + 64;
      }
      j := 0;
      tail' := data[i..];
    } else {
      tail' := tail + data;
      Assoc(whole, tail, data);
      assert data[i..] == data;
    }
    buffer := buffer[..j] + data[i..] + buffer[j + |data| - i..];
    assert |tail'| < 64 && buffer[..|tail'|] == tail' && |buffer| == 64;
    c' := Ctx(state, buffer, count);
  }

  lemma TopUp(whole: seq<byte>, tail: seq<byte>, data: seq<byte>, i: nat)
    requires i <= |data|
    ensures whole + (tail + data[..i]) + data[i..] == whole + tail + data
  {
  }

  /** How many zeros are still to be added when the tail is `n` octets long. */
  ghost function ZerosLeft(n: nat): int {
    if n <= 56 then 56 - n else 120 - n
  }

  /** The loop of SHA1Pad: zeros one at a time until the length field would end a block. */
  method PadZeros<H>(compress: (H, seq<byte>) -> H, ghost init: H, c: Ctx<H>, ghost whole: seq<byte>, ghost tail: seq<byte>)
    returns (c': Ctx<H>, ghost whole': seq<byte>, ghost tail': seq<byte>, ghost zeros: nat)
    requires Tracks(compress, SHAPE64, init, c, whole, tail)
    ensures Tracks(compress, SHAPE64, init, c', whole', tail') && |tail'| == 56
    ensures zeros < 64 && whole' + tail' == whole + tail + ZeroOctets(zeros)
  {
    c', whole', tail', zeros := c, whole, tail, 0;
    var used := InUse(c'.count, SHAPE64, |whole'|, |tail'|);
    assert whole + tail + ZeroOctets(0) == whole + tail;
    while used != 56
      invariant Tracks(compress, SHAPE64, init, c', whole', tail') && used == |tail'|
      invariant whole' + tail' == whole + tail + ZeroOctets(zeros)
      invariant zeros + ZerosLeft(|tail'|) == ZerosLeft(|tail|)
      decreases ZerosLeft(|tail'|)
    {
      ghost var w, t := |whole'|, |tail'|;
      OneMoreZero(whole + tail, zeros);
      c', whole', tail' := Updated(compress, init, c', whole', tail', [0]);
      assert |whole'| + |tail'| == w + t + 1;
      NextTail(w, t, |whole'|, |tail'|);
      zeros := zeros + 1;
      used := InUse(c'.count, SHAPE64, |whole'|, |tail'|);
    }
  }

  lemma {:induction false} NextTail(w: nat, t: nat, w': nat, t': nat)
    requires Aligned(w, 64) && Aligned(w', 64) && t < 64 && t' < 64 && w' + t' == w + t + 1
    ensures t' == if t == 63 then 0 else t + 1
  {
    TailLength(w + t, w, t);
    TailLength(w' + t', w', t');
  }

  /** Fewer than 64 zeros that leave room for just the length field are as many as the standard asks for. */
  lemma ZerosUnique(n: nat, z: nat)
    requires z < 64 && (n + 1 + z) % 64 == 56
    ensures z == Zeros(n, 64, 8) && (n + 1 + z + 8) % 64 == 0
  {
  }

  /** SHA1Pad: the marker, zeros, the length. */
  method Padding<H>(compress: (H, seq<byte>) -> H, ghost init: H, c: Ctx<H>, ghost whole: seq<byte>, ghost tail: seq<byte>) returns (state: H)
    requires Tracks(compress, SHAPE64, init, c, whole, tail)
    ensures state == Hash(compress, SHAPE64, init, whole + tail)
  {
    ghost var m := whole + tail;
    var finalcount := Field(c.count, SHAPE64, 8 * |m|);
    var c1; ghost var w1, t1;
    c1, w1, t1 := Updated(compress, init, c, whole, tail, [0x80]);
    ghost var zeros;
    c1, w1, t1, zeros := PadZeros(compress, init, c1, w1, t1);
    TailLength(|w1| + |t1|, |w1|, |t1|);
    ZerosUnique(|m|, zeros);
    c1, w1, t1 := Updated(compress, init, c1, w1, t1, finalcount);
    TailLength(|w1| + |t1|, |w1|, |t1|);
    assert t1 == [] && w1 + t1 == w1 == Padded(m, 64, 8);
    state := c1.state;
  }

  lemma {:induction false} TailLength(n: nat, whole: nat, tail: nat)
    requires n == whole + tail && Aligned(whole, 64) && tail < 64
    ensures n % 64 == tail
  {
    AlignedIsMod(whole, 64);
  }

  lemma OneMoreZero(s: seq<byte>, n: nat)
    ensures s + ZeroOctets(n) + [0] == s + ZeroOctets(n + 1)
  {
    assert ZeroOctets(n) + [0] == ZeroOctets(n + 1);
  }

  /** However a message is cut into updates, the result is the one-shot hash of the whole. */
  method HashParts<H>(compress: (H, seq<byte>) -> H, init: H, parts: seq<seq<byte>>) returns (state: H)
    ensures state == Hash(compress, SHAPE64, init, Flatten(parts))
  {
    Shapes();
    var c := Ctx(init, ZeroOctets(64), Counter(0, 0));
    ghost var whole, tail := [], [];
    for i := 0 to |parts|
      invariant Tracks(compress, SHAPE64, init, c, whole, tail) && whole + tail == Flatten(parts[..i])
    {
      FlattenAppend(parts[..i], [parts[i]]);
      assert parts[..i + 1] == parts[..i] + [parts[i]];
      assert Flatten([parts[i]]) == parts[i] + Flatten([]) == parts[i];
      c, whole, tail := Updated(compress, init, c, whole, tail, parts[i]);
    }
    assert parts[..|parts|] == parts;
    state := Padding(compress, init, c, whole, tail);
  }
}
