/** Octets, optional values and big-endian integers, shared by every other module. */
module Bytes {
  type byte = bv8

  datatype Option<+T> = None | Some(value: T)

  function Val(b: byte): (n: nat)
    ensures n < 256
  {
    b as int
  }

  /** The octet holding `n`, bit by bit. */
  function Octet(n: nat): (b: byte)
    requires n < 256
    ensures Val(b) == n
  {
    if n == 0 then 0 else 2 * Octet(n / 2) + (if n % 2 == 1 then 1 else 0)
  }

  lemma SameVal(a: byte, b: byte)
    requires Val(a) == Val(b)
    ensures a == b
  {
  }

  lemma OctetOfVal(b: byte)
    ensures Octet(Val(b)) == b
  {
    SameVal(Octet(Val(b)), b);
  }

  ghost function Pow(base: nat, e: nat): nat {
    if e == 0 then 1 else base * Pow(base, e - 1)
  }

  /** The low `width` octets of `n`, most significant first (`net_write16`, `net_write64`, `BE_64_TO_8`). */
  function BigEndian(n: nat, width: nat): (s: seq<byte>)
    ensures |s| == width
  {
    if width == 0 then [] else BigEndian(n / 256, width - 1) + [Octet(n % 256)]
  }

  /** The unsigned integer spelled by `s`, most significant octet first (`net_read16`, `net_read64`). */
  function FromBigEndian(s: seq<byte>): (n: nat) {
    if s == [] then 0 else FromBigEndian(s[..|s| - 1]) * 256 + Val(s[|s| - 1])
  }

  lemma {:induction false} BigEndianRoundTrip(n: nat, width: nat)
    requires n < Pow(256, width)
    ensures FromBigEndian(BigEndian(n, width)) == n
  {
    if width > 0 {
      var s := BigEndian(n, width);
      assert s[..|s| - 1] == BigEndian(n / 256, width - 1);
      BigEndianRoundTrip(n / 256, width - 1);
    }
  }

  /** The octets of a list of chunks, in order. */
  function Flatten(parts: seq<seq<byte>>): (s: seq<byte>) {
    if parts == [] then [] else parts[0] + Flatten(parts[1..])
  }

  lemma {:induction false} FlattenAppend(a: seq<seq<byte>>, b: seq<seq<byte>>)
    ensures Flatten(a + b) == Flatten(a) + Flatten(b)
  {
    if a == [] {
      assert a + b == b;
    } else {
      assert (a + b)[1..] == a[1..] + b;
      FlattenAppend(a[1..], b);
    }
  }
}
