/** `kore_buf`: a growable octet buffer, and in-place replacement of a key. */
module Buf {
  import opened Bytes
  import opened Search

  /** The pieces of `s` between successive leftmost, non-overlapping occurrences of `key`. */
  ghost function Split(s: seq<byte>, key: seq<byte>): (parts: seq<seq<byte>>)
    requires |key| > 0
    ensures |parts| > 0
    decreases |s|
  {
    match IndexOf(s, key)
    case None => [s]
    case Some(i) => [s[..i]] + Split(s[i + |key|..], key)
  }

  function Join(parts: seq<seq<byte>>, sep: seq<byte>): (s: seq<byte>)
    requires |parts| > 0
  {
    if |parts| == 1 then parts[0] else parts[0] + sep + Join(parts[1..], sep)
  }

  /** Cutting at the key and gluing the key back in loses nothing, and no piece holds the key. */
  lemma {:induction false} SplitIsExact(s: seq<byte>, key: seq<byte>)
    requires |key| > 0
    ensures Join(Split(s, key), key) == s
    ensures forall p :: p in Split(s, key) ==> !Occurs(p, key)
    decreases |s|
  {
    IndexOfSpec(s, key);
    match IndexOf(s, key)
    case None =>
    case Some(i) =>
      var rest := s[i + |key|..];
      SplitIsExact(rest, key);
      assert Split(s, key)[1..] == Split(rest, key);
      assert s == s[..i] + s[i..i + |key|] + rest;
      assert forall j :: OccursAt(s[..i], key, j) ==> OccursAt(s, key, j);
  }

  /** `s` with every leftmost, non-overlapping `key` exchanged for `dst`; inserted text is not looked at again. */
  ghost function Replaced(s: seq<byte>, key: seq<byte>, dst: seq<byte>): seq<byte>
    requires |key| > 0
  {
    Join(Split(s, key), dst)
  }

  /** One replacement peels one piece off the front. */
  lemma ReplacedStep(s: seq<byte>, key: seq<byte>, dst: seq<byte>)
    requires |key| > 0 && IndexOf(s, key).Some?
    ensures var i := IndexOf(s, key).value;
            Replaced(s, key, dst) == s[..i] + dst + Replaced(s[i + |key|..], key, dst)
  {
    var i := IndexOf(s, key).value;
    assert Split(s, key)[1..] == Split(s[i + |key|..], key);
  }

  /** What is left to do once the first `off` octets are final. */
  ghost function ReplacedFrom(s: seq<byte>, off: nat, key: seq<byte>, dst: seq<byte>): seq<byte>
    requires off <= |s| && |key| > 0
  {
    s[..off] + Replaced(s[off..], key, dst)
  }

  lemma Regroup(s: seq<byte>, off: nat, i: nat, k: nat, dst: seq<byte>, tail: seq<byte>)
    requires off + i + k <= |s|
    ensures var t := s[..off + i] + dst + s[off + i + k..];
            && t[off + i + |dst|..] == s[off..][i + k..]
            && t[..off + i + |dst|] + tail == s[..off] + (s[off..][..i] + dst + tail)
  {
  }

  lemma ReplaceOnce(s: seq<byte>, off: nat, i: nat, key: seq<byte>, dst: seq<byte>, t: seq<byte>)
    requires off <= |s| && |key| > 0 && IndexOf(s[off..], key) == Some(i)
    requires off + i + |key| <= |s| && t == s[..off + i] + dst + s[off + i + |key|..]
    ensures ReplacedFrom(t, off + i + |dst|, key, dst) == ReplacedFrom(s, off, key, dst)
  {
    ReplacedStep(s[off..], key, dst);
    Regroup(s, off, i, |key|, dst, Replaced(s[off..][i + |key|..], key, dst));
  }

  class Buffer {
    var data: seq<byte>    // the allocated storage; its size is `length`
    var offset: nat        // how much of it is in use

    ghost predicate Valid()
      reads this
    {
      offset <= |data|
    }

    ghost function Contents(): seq<byte>
      requires Valid()
      reads this
    {
      data[..offset]
    }

    constructor (initial: nat)
      ensures Valid() && Contents() == []
    {
      data := seq(initial, _ => 0);
      offset := 0;
    }

    /** `kore_buf_append`: grow the storage by the whole of `d` when it does not fit, then copy. */
    method Append(d: seq<byte>)
      requires Valid()
      modifies this
      ensures Valid() && Contents() == old(Contents()) + d
    {
      if offset + |d| > |data| {
        data := data + seq(|d|, _ => 0);
      }
      data := data[..offset] + d + data[offset + |d|..];
      offset := offset + |d|;
    }

    /** `kore_buf_reset` */
    method Reset()
      modifies this`offset
      ensures Valid() && Contents() == []
    {
      offset := 0;
    }

    /** Drop the first `n` octets in use (the `memmove` idiom of the stream readers). */
    method Discard(n: nat)
      requires Valid() && n <= offset
      modifies this
      ensures Valid() && Contents() == old(Contents())[n..]
    {
      var left := offset - n;
      data := data[n..offset] + data[left..];
      offset := left;
    }

    /** `kore_buf_replace_string`. The scan restarts after the inserted text, so it ends for every key. */
    method ReplaceString(key: seq<byte>, dst: seq<byte>)
      requires Valid() && |key| > 0
      modifies this
      ensures Valid() && Contents() == Replaced(old(Contents()), key, dst)
    {
      var off := 0;
      while true
        invariant Valid() && 0 <= off <= offset
        invariant ReplacedFrom(Contents(), off, key, dst) == Replaced(old(Contents()), key, dst)
        decreases offset - off
      {
        var found := MemFind(data[off..offset], key);
        assert data[off..offset] == Contents()[off..];
        if found.None? {
          assert Contents() == Contents()[..off] + Contents()[off..];
          return;
        }
        var at := off + found.value;
        var end := at + |key|;
        var tmp := data[..at] + dst + data[end..offset];
        ReplaceOnce(Contents(), off, found.value, key, dst, tmp);
        data := tmp + seq(|key|, _ => 0);
        offset := |tmp|;
        off := at + |dst|;
        assert Contents() == tmp;
      }
    }
  }
}
