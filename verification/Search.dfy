/** Substring search (`kore_mem_find`) and the vocabulary used to state it. */
module Search {
  import opened Bytes

  ghost predicate OccursAt(s: seq<byte>, needle: seq<byte>, i: int) {
    0 <= i <= |s| - |needle| && forall k :: 0 <= k < |needle| ==> s[i + k] == needle[k]
  }

  ghost predicate Occurs(s: seq<byte>, needle: seq<byte>) {
    exists i :: OccursAt(s, needle, i)
  }

  /** `i` is the leftmost occurrence of `needle` in `s`. */
  ghost predicate FirstAt(s: seq<byte>, needle: seq<byte>, i: int) {
    OccursAt(s, needle, i) && forall j :: j < i ==> !OccursAt(s, needle, j)
  }

  /** The position of the leftmost occurrence, if there is one. */
  ghost function IndexOf(s: seq<byte>, needle: seq<byte>): (r: Option<nat>)
    ensures r.Some? ==> r.value + |needle| <= |s|
  {
    if i: nat :| FirstAt(s, needle, i) then Some(i) else None
  }

  /** Among the occurrences there is a leftmost one. */
  lemma {:induction false} LeftmostExists(s: seq<byte>, needle: seq<byte>, i: nat)
    requires OccursAt(s, needle, i)
    ensures exists j: nat :: j <= i && FirstAt(s, needle, j)
  {
    if k: nat :| k < i && OccursAt(s, needle, k) {
      LeftmostExists(s, needle, k);
    } else {
      assert FirstAt(s, needle, i);
    }
  }

  lemma IndexOfSpec(s: seq<byte>, needle: seq<byte>)
    ensures IndexOf(s, needle).Some? ==> FirstAt(s, needle, IndexOf(s, needle).value)
    ensures IndexOf(s, needle).None? <==> !Occurs(s, needle)
  {
    if i: nat :| OccursAt(s, needle, i) {
      LeftmostExists(s, needle, i);
    }
  }

  /** Any leftmost occurrence is the one `IndexOf` reports. */
  lemma FirstIsIndexOf(s: seq<byte>, needle: seq<byte>, i: nat)
    requires FirstAt(s, needle, i)
    ensures IndexOf(s, needle) == Some(i)
  {
    IndexOfSpec(s, needle);
    var j := IndexOf(s, needle).value;
    assert j < i || i < j || i == j;
  }

  /** `kore_mem_find`: scan for the first octet of the needle, then compare the rest.
      The scan gives up as soon as fewer than `|needle|` octets are left. */
  method MemFind(src: seq<byte>, needle: seq<byte>) returns (r: Option<nat>)
    requires |needle| > 0
    ensures r == IndexOf(src, needle)
  {
    var pos := 0;
    while pos < |src|
      invariant pos <= |src|
      invariant forall j :: j < pos ==> !OccursAt(src, needle, j)
    {
      if src[pos] == needle[0] {
        if |src| - pos < |needle| {
          break;
        }
        if src[pos..pos + |needle|] == needle {
          FirstIsIndexOf(src, needle, pos);
          return Some(pos);
        }
      }
      pos := pos + 1;
    }
    IndexOfSpec(src, needle);
    return None;
  }
}
