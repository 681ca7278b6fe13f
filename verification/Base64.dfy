/** The base64 coders of `utils.c` (RFC 4648, sections 4 and 5), over C strings without their terminator. */
module Base64 {
  import opened Bytes
  import opened Lists

  const UPPER: string := "ABCDEFGHIJKLMNOPQRSTUVWXYZ"
  const LOWER: string := "abcdefghijklmnopqrstuvwxyz"
  const DECIMAL: string := "0123456789"
  const PLAIN: string := UPPER + LOWER + DECIMAL + "+/"      // b64_table
  const URL: string := UPPER + LOWER + DECIMAL + "-_"        // b64url_table
  const NUL: char := '\0'

  type CString = s: string | NUL !in s

  // ---- Digits ----

  ghost predicate Known(t: string, s: string) {
    forall i :: 0 <= i < |s| ==> s[i] in t
  }

  ghost function Digit(t: string, c: char): (d: nat)
    requires c in t
    ensures d < |t| && t[d] == c
  {
    var i: nat :| i < |t| && t[i] == c;
    i
  }

  /** A string of characters of the table, read as a number in base 64. */
  ghost function Digits(t: string, s: string): (n: nat)
    requires Known(t, s)
  {
    if s == [] then 0 else Digits(t, s[..|s| - 1]) * 64 + Digit(t, s[|s| - 1])
  }

  /** 64 characters, none of them the padding and none of them twice: each has its position as its digit. */
  ghost predicate Alphabet(t: CString) {
    && |t| == 64 && '=' !in t
    && forall i :: 0 <= i < 64 ==> Digit(t, t[i]) == i
  }

  function Pow64(i: nat): (n: nat)
    requires i <= 4
  {
    if i == 0 then 1 else if i == 1 then 64 else if i == 2 then 4096 else if i == 3 then 262144 else 16777216
  }

  /** The 24 bits of four characters, or of fewer with zero bits after them. */
  ghost function Quad(t: string, s: string): (v: nat)
    requires Known(t, s) && |s| <= 4
  {
    Digits(t, s) * Pow64(4 - |s|)
  }

  lemma QuadStep(t: string, s: string, c: char)
    requires |t| == 64 && Known(t, s) && |s| < 4 && c in t
    ensures Known(t, s + [c]) && Quad(t, s + [c]) == Quad(t, s) + Digit(t, c) * Pow64(3 - |s|)
  {
    assert (s + [c])[..|s|] == s;
    var d := Digits(t, s);
    if |s| == 0 {
      assert Pow64(4) == 64 * Pow64(3);
    } else if |s| == 1 {
      assert Pow64(3) == 64 * Pow64(2);
    } else if |s| == 2 {
      assert Pow64(2) == 64 * Pow64(1);
    }
  }

  // ---- Encoding ----

  function Symbols(t: string, v: nat): (s: string)
    requires |t| == 64
    ensures |s| == 4
  {
    [t[v / 262144 % 64], t[v / 4096 % 64], t[v / 64 % 64], t[v % 64]]
  }

  function Number(d: seq<byte>): (v: nat)
    requires 1 <= |d| <= 3
    ensures v < 0x100_0000
  {
    Val(d[0]) * 65536 + (if |d| > 1 then Val(d[1]) * 256 else 0) + if |d| > 2 then Val(d[2]) else 0
  }

  function Encoded(t: string, d: seq<byte>): (s: string)
    requires |t| == 64
    decreases |d|
  {
    if d == [] then []
    else if |d| < 3 then Symbols(t, Number(d))[..|d| + 1]
    else Symbols(t, Number(d[..3])) + Encoded(t, d[3..])
  }

  function Pad(n: nat): (s: string) {
    if n >= 3 then Pad(n - 3) else if n == 1 then "==" else if n == 2 then "=" else ""
  }

  lemma {:induction false} EncodedStep(t: string, d: seq<byte>, k: nat)
    requires |t| == 64 && d != [] && k == if |d| > 2 then 3 else |d|
    ensures Encoded(t, d) == Symbols(t, Number(d[..k]))[..k + 1] + Encoded(t, d[k..])
  {
    if |d| < 3 {
      assert d[..k] == d;
    }
  }

  method WriteSymbols(t: CString, bytes: nat, nb: nat) returns (s: string)
    requires |t| == 64 && 1 <= nb <= 3
    ensures s == Symbols(t, bytes)[..nb + 1]
  {
    s := [t[bytes / 262144 % 64]];
    s := s + [t[bytes / 4096 % 64]];
    if nb > 1 {
      s := s + [t[bytes / 64 % 64]];
      if nb > 2 {
        s := s + [t[bytes % 64]];
      }
    }
  }

  /** One round of the loop: the next three octets, or the last one or two. */
  method EncodeGroup(t: CString, d: seq<byte>) returns (s: string, nb: nat)
    requires |t| == 64 && d != []
    ensures 1 <= nb <= 3 && nb <= |d| && s + Encoded(t, d[nb..]) == Encoded(t, d)
    ensures Pad(|d|) == if nb == |d| then Pad(nb) else Pad(|d| - nb)
  {
    nb := if |d| > 2 then 3 else |d|;
    EncodedStep(t, d, nb);
    s := WriteSymbols(t, Number(d[..nb]), nb);
  }

  /** The loop of `utils_base64_encode`; `nb` is the size of the last group. */
  method EncodeGroups(t: CString, data: seq<byte>) returns (result: string, nb: nat)
    requires |t| == 64
    ensures result == Encoded(t, data)
    ensures nb <= 3 && (nb == 0 <==> data == []) && Pad(|data|) == Pad(nb)
  {
    var rest := data;
    result, nb := [], 0;
    while rest != []
      invariant nb <= 3 && (nb == 0 ==> rest == data) && (nb != 0 ==> data != [])
      invariant Pad(|data|) == if rest == [] then Pad(nb) else Pad(|rest|)
      invariant result + Encoded(t, rest) == Encoded(t, data)
      decreases |rest|
    {
      var s;
      s, nb := EncodeGroup(t, rest);
      Assoc(result, s, Encoded(t, rest[nb..]));
      result := result + s;
      rest := rest[nb..];
    }
    assert result + [] == result;
  }

  /** `utils_base64_encode`: only the padded encoding of nothing is an error. */
  method Encode(t: CString, data: seq<byte>, raw: bool) returns (r: Option<string>)
    requires |t| == 64
    ensures r == if data == [] && !raw then None else Some(Encoded(t, data) + if raw then "" else Pad(|data|))
  {
    var result, nb := EncodeGroups(t, data);
    assert result + "" == result;
    if !raw {
      match nb {
        case 1 => result := result + "==";
        case 2 => result := result + "=";
        case 3 =>
        case _ => return None;
      }
    }
    r := Some(result);
  }

  // ---- Decoding ----

  function Octets(v: nat): (s: seq<byte>)
    ensures |s| == 3
  {
    [Octet(v / 65536 % 256), Octet(v / 256 % 256), Octet(v % 256)]
  }

  ghost predicate StopsAt(s: string, k: nat) {
    k < 4 && k < |s| && s[k] == '=' && '=' !in s[..k]
  }

  /** What is left after the last full group: nothing is made of it without padding; two or three characters
      and the padding give one or two octets, and what follows the padding is not looked at. */
  ghost function Final(t: string, s: string): (r: Option<seq<byte>>) {
    if exists k: nat :: StopsAt(s, k) then
      var k: nat :| StopsAt(s, k);
      if k < 2 || !Known(t, s[..k]) then None else Some(Octets(Quad(t, s[..k]))[..k - 1])
    else if Known(t, s) then Some([])
    else None
  }

  ghost function Prepend(a: seq<byte>, r: Option<seq<byte>>): (r': Option<seq<byte>>) {
    if r.None? then None else Some(a + r.value)
  }

  ghost function Decoded(t: string, s: string): (r: Option<seq<byte>>)
    decreases |s|
  {
    if |s| < 4 || '=' in s[..4] then Final(t, s)
    else if !Known(t, s[..4]) then None
    else Prepend(Octets(Quad(t, s[..4])), Decoded(t, s[4..]))
  }

  lemma {:induction false} FinalAt(t: string, s: string, k: nat)
    requires StopsAt(s, k)
    ensures Decoded(t, s) == Final(t, s)
    ensures Final(t, s) == if k < 2 || !Known(t, s[..k]) then None else Some(Octets(Quad(t, s[..k]))[..k - 1])
  {
    forall j: nat | StopsAt(s, j)
      ensures j == k
    {
    }
    if |s| >= 4 {
      assert s[..4][k] == '=';
    }
  }

  lemma PrependTwice(a: seq<byte>, b: seq<byte>, r: Option<seq<byte>>)
    ensures Prepend(a, Prepend(b, r)) == Prepend(a + b, r)
  {
    if r.Some? {
      Assoc(a, b, r.value);
    }
  }

  /** The walk over the table, which is one longer than the alphabet: it ends on the terminator. */
  method Find(t: CString, c: char) returns (o: nat)
    requires Alphabet(t) && c != NUL
    ensures if c in t then o == Digit(t, c) else o == 65
  {
    var table := t + [NUL];
    o := 0;
    while o < 65
      invariant o <= 65
      invariant forall j :: 0 <= j < o ==> table[j] != c
    {
      if table[o] == c {
        assert t[o] == c;
        return;
      }
      o := o + 1;
    }
    assert forall j :: 0 <= j < 64 ==> t[j] == table[j];
  }

  /** An unknown character anywhere before the padding is an error. */
  lemma {:induction false} UnknownFails(t: string, s: string, k: nat)
    requires k < 4 && k < |s| && '=' !in s[..k] && s[k] != '=' && s[k] !in t
    ensures Decoded(t, s) == None
  {
    if |s| >= 4 && '=' !in s[..4] {
      assert s[..4][k] == s[k];
    } else if exists j: nat :: StopsAt(s, j) {
      var j: nat :| StopsAt(s, j);
      FinalAt(t, s, j);
      assert k < j;
      assert s[..j][k] == s[k];
    }
  }

  ghost predicate Reading(t: string, s: string, g: nat, idx: nat, i: nat, b: nat, res: seq<byte>) {
    && g <= idx <= |s| && 1 <= i <= 4 && idx - g == 4 - i
    && Known(t, s[g..idx]) && '=' !in s[g..idx] && b == Quad(t, s[g..idx])
    && Decoded(t, s) == Prepend(res, Decoded(t, s[g..]))
  }

  /** One known character: the group grows. */
  lemma ReadInGroup(t: string, s: string, g: nat, idx: nat, i: nat, b: nat, res: seq<byte>)
    requires |t| == 64 && Reading(t, s, g, idx, i, b, res) && i > 1
    requires idx < |s| && s[idx] in t && s[idx] != '='
    ensures Reading(t, s, g, idx + 1, i - 1, b + Digit(t, s[idx]) * Pow64(i - 1), res)
  {
    assert s[g..idx + 1] == s[g..idx] + [s[idx]];
    QuadStep(t, s[g..idx], s[idx]);
  }

  lemma {:induction false} GroupDecoded(t: string, u: string)
    requires |u| >= 4 && Known(t, u[..4]) && '=' !in u[..4]
    ensures Decoded(t, u) == Prepend(Octets(Quad(t, u[..4])), Decoded(t, u[4..]))
  {
  }

  /** The last character of a group: it gives three octets. */
  lemma ReadGroup(t: string, s: string, g: nat, idx: nat, b: nat, res: seq<byte>)
    requires |t| == 64 && Reading(t, s, g, idx, 1, b, res)
    requires idx < |s| && s[idx] in t && s[idx] != '='
    ensures Reading(t, s, idx + 1, idx + 1, 4, 0, res + Octets(b + Digit(t, s[idx])))
  {
    var grp := s[g..idx] + [s[idx]];
    QuadStep(t, s[g..idx], s[idx]);
    assert s[g..][..4] == grp && s[g..][4..] == s[idx + 1..];
    GroupDecoded(t, s[g..]);
    PrependTwice(res, Octets(Quad(t, grp)), Decoded(t, s[idx + 1..]));
    assert s[idx + 1..idx + 1] == [];
  }

  lemma ReadNothing(t: string, s: string)
    ensures Reading(t, s, 0, 0, 4, 0, [])
  {
    assert s[0..] == s && s[0..0] == [];
    if Decoded(t, s).Some? {
      assert [] + Decoded(t, s).value == Decoded(t, s).value;
    }
  }

  lemma {:induction false} ReadUnknown(t: string, s: string, g: nat, idx: nat, i: nat, b: nat, res: seq<byte>)
    requires Reading(t, s, g, idx, i, b, res) && idx < |s| && s[idx] !in t && s[idx] != '='
    ensures Decoded(t, s) == None
  {
    assert s[g..][..idx - g] == s[g..idx];
    UnknownFails(t, s[g..], idx - g);
  }

  lemma {:induction false} ReadLast(t: string, s: string, g: nat, idx: nat, i: nat, b: nat, res: seq<byte>)
    requires Reading(t, s, g, idx, i, b, res) && (idx < |s| ==> s[idx] == '=')
    ensures Decoded(t, s) == if idx == |s| then Some(res) else if i > 2 then None else Some(res + Octets(b)[..3 - i])
  {
    assert s[g..][..idx - g] == s[g..idx];
    if idx < |s| {
      FinalAt(t, s[g..], idx - g);
    } else {
      assert s[g..] == s[g..idx];
      assert res + [] == res;
    }
  }

  /** The loop of `utils_base64_decode` and what it does at the padding. */
  method DecodePadded(t: CString, s: CString) returns (r: Option<seq<byte>>)
    requires Alphabet(t)
    ensures r == Decoded(t, s)
  {
    var i: nat, b: nat, idx, res := 4, 0, 0, [];
    ghost var g := 0;
    ReadNothing(t, s);
    while idx < |s| && s[idx] != '='
      invariant Reading(t, s, g, idx, i, b, res)
      decreases |s| - idx
    {
      var o := Find(t, s[idx]);
      if o == 65 {
        ReadUnknown(t, s, g, idx, i, b, res);
        return None;
      }
      if i > 1 {
        ReadInGroup(t, s, g, idx, i, b, res);
      } else {
        ReadGroup(t, s, g, idx, b, res);
      }
      b := b + o * Pow64(i - 1);
      i, idx := i - 1, idx + 1;
      if i == 0 {
        res := res + Octets(b);
        b, i := 0, 4;
        g := idx;
      }
    }
    ReadLast(t, s, g, idx, i, b, res);
    if idx < |s| {
      if i > 2 {
        return None;
      }
      res := res + Octets(b)[..3 - i];
    }
    r := Some(res);
  }

  /** `utils_base64_decode` with KORE_BASE64_RAW: the padding that was left off is put back first. */
  ghost function RawDecoded(t: string, s: string): (r: Option<seq<byte>>) {
    if |s| % 4 == 2 then Decoded(t, s + "==") else if |s| % 4 == 3 then Decoded(t, s + "=") else None
  }

  method Decode(t: CString, s: CString, raw: bool) returns (r: Option<seq<byte>>)
    requires Alphabet(t)
    ensures r == if raw then RawDecoded(t, s) else Decoded(t, s)
  {
    if !raw {
      r := DecodePadded(t, s);
    } else {
      match |s| % 4 {
        case 2 => r := DecodePadded(t, s + "==");
        case 3 => r := DecodePadded(t, s + "=");
        case _ => r := None;
      }
    }
  }

  // ---- The alphabets ----

  /** Where a character stands in either table. */
  function Rank(c: char): (i: int) {
    if 'A' <= c <= 'Z' then c as int - 65
    else if 'a' <= c <= 'z' then c as int - 71
    else if '0' <= c <= '9' then c as int + 4
    else if c == '+' || c == '-' then 62
    else 63
  }

  ghost predicate Ascending(s: string, first: nat, n: nat) {
    |s| == n && forall i :: 0 <= i < n ==> s[i] as int == first + i
  }

  lemma Runs()
    ensures Ascending(UPPER, 65, 26) && Ascending(LOWER, 97, 26) && Ascending(DECIMAL, 48, 10)
  {
  }

  lemma RankedIn(u: string, l: string, d: string, last: string, i: nat)
    requires Ascending(u, 65, 26) && Ascending(l, 97, 26) && Ascending(d, 48, 10)
    requires |last| == 2 && (last[0] == '+' || last[0] == '-') && (last[1] == '/' || last[1] == '_')
    requires i < |u + l + d + last|
    ensures var t := u + l + d + last;
            |t| == 64 && Rank(t[i]) == i && t[i] != '=' && t[i] != NUL
  {
  }

  lemma Ranked(t: string, i: nat)
    requires (t == PLAIN || t == URL) && i < |t|
    ensures |t| == 64 && Rank(t[i]) == i && t[i] != '=' && t[i] != NUL
  {
    Runs();
    RankedIn(UPPER, LOWER, DECIMAL, if t == PLAIN then "+/" else "-_", i);
  }

  lemma OneAlphabet(t: string)
    requires t == PLAIN || t == URL
    ensures NUL !in t && Alphabet(t)
  {
    Ranked(t, 0);
    forall i | 0 <= i < 64
      ensures t[i] != NUL && t[i] != '=' && Digit(t, t[i]) == i
    {
      Ranked(t, i);
      Ranked(t, Digit(t, t[i]));
    }
  }

  // ---- What the encoding means ----

  lemma Sextets(v: nat)
    requires v < 0x100_0000
    ensures v / 262144 % 64 == v / 262144
    ensures v / 262144 * 262144 + v / 4096 % 64 * 4096 + v / 64 % 64 * 64 + v % 64 == v
  {
    assert v / 4096 == v / 64 / 64;
    assert v / 262144 == v / 4096 / 64;
  }

  /** The bits a group's characters stand for are the bits of its octets. */
  lemma SymbolsQuad(t: CString, v: nat, n: nat)
    requires Alphabet(t) && v < 0x100_0000 && 2 <= n <= 4
    requires n == 3 ==> v % 64 == 0
    requires n == 2 ==> v % 64 == 0 && v / 64 % 64 == 0
    ensures Known(t, Symbols(t, v)[..n]) && Quad(t, Symbols(t, v)[..n]) == v
  {
    var s := Symbols(t, v);
    Sextets(v);
    QuadStep(t, [], s[0]);
    QuadStep(t, s[..1], s[1]);
    assert s[..1] == [] + [s[0]] && s[..2] == s[..1] + [s[1]];
    if n > 2 {
      QuadStep(t, s[..2], s[2]);
      assert s[..3] == s[..2] + [s[2]];
    }
    if n > 3 {
      QuadStep(t, s[..3], s[3]);
      assert s[..4] == s[..3] + [s[3]];
    }
  }

  lemma {:induction false} EncodedAppend(t: string, a: seq<byte>, g: seq<byte>, q: nat)
    requires |t| == 64 && |a| == 3 * q
    ensures Encoded(t, a + g) == Encoded(t, a) + Encoded(t, g)
    decreases q
  {
    if q == 0 {
      assert a + g == g;
    } else {
      assert (a + g)[..3] == a[..3] && (a + g)[3..] == a[3..] + g;
      EncodedAppend(t, a[3..], g, q - 1);
      Assoc(Symbols(t, Number(a[..3])), Encoded(t, a[3..]), Encoded(t, g));
    }
  }

  /** Characters put after others shift those by six bits each. */
  lemma {:induction false} DigitsAppend(t: string, s: string, g: string)
    requires |t| == 64 && Known(t, s) && Known(t, g) && |g| <= 4
    ensures Known(t, s + g) && Digits(t, s + g) == Digits(t, s) * Pow64(|g|) + Digits(t, g)
    decreases |g|
  {
    if g == [] {
      assert s + g == s;
    } else {
      var h := g[..|g| - 1];
      DigitsAppend(t, s, h);
      assert (s + g)[..|s + g| - 1] == s + h;
    }
  }

  lemma {:induction false} OctetsAppend(d: seq<byte>, g: seq<byte>)
    requires 1 <= |g| <= 3
    ensures var scale := if |g| == 3 then 1 else if |g| == 2 then 256 else 65536;
            FromBigEndian(d + g) * scale == FromBigEndian(d) * 0x100_0000 + Number(g)
  {
    var e, n := d + g, |d|;
    assert e[..n + 1][..n] == d && e[..n + 1][n] == g[0];
    assert FromBigEndian(e[..n + 1]) == FromBigEndian(d) * 256 + Val(g[0]);
    if |g| > 1 {
      assert e[..n + 2][..n + 1] == e[..n + 1] && e[..n + 2][n + 1] == g[1];
      assert FromBigEndian(e[..n + 2]) == FromBigEndian(e[..n + 1]) * 256 + Val(g[1]);
    }
    if |g| > 2 {
      assert e[..n + 3][..n + 2] == e[..n + 2] && e[..n + 3][n + 2] == g[2];
      assert FromBigEndian(e[..n + 3]) == FromBigEndian(e[..n + 2]) * 256 + Val(g[2]);
    }
    assert e[..n + |g|] == e;
  }

  function Scale(n: nat): (k: nat) {
    if n % 3 == 1 then 16 else if n % 3 == 2 then 4 else 1
  }

  lemma {:induction false} FullGroupsSpell(t: CString, a: seq<byte>, q: nat)
    requires Alphabet(t) && |a| == 3 * q
    ensures Known(t, Encoded(t, a)) && Digits(t, Encoded(t, a)) == FromBigEndian(a)
    decreases q
  {
    if q > 0 {
      var n := 3 * (q - 1);
      FullGroupsSpell(t, a[..n], q - 1);
      assert a[..n] + a[n..] == a;
      EncodedAppend(t, a[..n], a[n..], q - 1);
      LastGroup(t, Encoded(t, a[..n]), a[..n], a[n..]);
    }
  }

  lemma {:induction false} GroupsSpell(t: CString, a: seq<byte>, g: seq<byte>, q: nat)
    requires Alphabet(t) && |a| == 3 * q && |g| < 3
    ensures Known(t, Encoded(t, a + g)) && Digits(t, Encoded(t, a + g)) == FromBigEndian(a + g) * Scale(|g|)
  {
    FullGroupsSpell(t, a, q);
    if g == [] {
      assert a + g == a;
    } else {
      EncodedAppend(t, a, g, q);
      LastGroup(t, Encoded(t, a), a, g);
    }
  }

  lemma Thirds(d: seq<byte>) returns (q: nat)
    ensures |d| - 3 < 3 * q <= |d| && Scale(|d|) == Scale(|d| - 3 * q)
  {
    q := |d| / 3;
  }

  /** The meaning of an encoding, without its groups: the characters read as one number in base 64 are the
      octets read as one number in base 256, with the two or four zero bits that fill the last character. */
  lemma {:induction false} EncodedSpells(t: CString, d: seq<byte>)
    requires Alphabet(t)
    ensures Known(t, Encoded(t, d)) && Digits(t, Encoded(t, d)) == FromBigEndian(d) * Scale(|d|)
  {
    var q := Thirds(d);
    GroupsSpell(t, d[..3 * q], d[3 * q..], q);
    assert d[..3 * q] + d[3 * q..] == d;
  }

  lemma {:induction false} LastGroup(t: CString, s: string, a: seq<byte>, g: seq<byte>)
    requires Alphabet(t) && 1 <= |g| <= 3 && Known(t, s) && Digits(t, s) == FromBigEndian(a)
    ensures Known(t, s + Encoded(t, g)) && Digits(t, s + Encoded(t, g)) == FromBigEndian(a + g) * Scale(|g|)
  {
    OctetsAppend(a, g);
    OneGroup(t, g);
    DigitsAppend(t, s, Encoded(t, g));
  }

  /** A group of one to three octets gives one more character than octets, which spell its 24 bits. */
  lemma {:induction false} OneGroup(t: CString, g: seq<byte>)
    requires Alphabet(t) && 1 <= |g| <= 3
    ensures |Encoded(t, g)| == |g| + 1 && Known(t, Encoded(t, g)) && Quad(t, Encoded(t, g)) == Number(g)
  {
    EncodedStep(t, g, |g|);
    assert g[..|g|] == g && g[|g|..] == [];
    var sym := Symbols(t, Number(g))[..|g| + 1];
    assert Encoded(t, g) == sym + [] == sym;
    ZeroTail(g);
    SymbolsQuad(t, Number(g), |g| + 1);
  }

  lemma ZeroTail(g: seq<byte>)
    requires 1 <= |g| <= 3
    ensures |g| < 3 ==> Number(g) % 64 == 0
    ensures |g| < 2 ==> Number(g) / 64 % 64 == 0
  {
    if |g| == 1 {
      assert Number(g) == Val(g[0]) * 65536;
    } else if |g| == 2 {
      assert Number(g) == (Val(g[0]) * 1024 + Val(g[1]) * 4) * 64;
    }
  }

  function Count(n: nat): (k: nat) {
    if n == 0 then 0 else if n < 3 then n + 1 else 4 + Count(n - 3)
  }

  lemma {:induction false} EncodedCount(t: string, d: seq<byte>)
    requires |t| == 64
    ensures |Encoded(t, d)| == Count(|d|)
    decreases |d|
  {
    if |d| >= 3 {
      EncodedCount(t, d[3..]);
    }
  }

  lemma FourMore(k: nat)
    ensures (4 + k) % 4 == k % 4
  {
  }

  lemma {:induction false} CountIs(n: nat)
    ensures Count(n) + |Pad(n)| == 4 * ((n + 2) / 3)
    ensures Count(n) % 4 == if n % 3 == 0 then 0 else n % 3 + 1
  {
    if n >= 3 {
      LessThree(n);
      CountIs(n - 3);
      FourMore(Count(n - 3));
    }
  }

  /** Four characters for every three octets begun. */
  lemma {:induction false} EncodedLength(t: string, d: seq<byte>)
    requires |t| == 64
    ensures |Encoded(t, d) + Pad(|d|)| == 4 * ((|d| + 2) / 3)
    ensures |Encoded(t, d)| % 4 == if |d| % 3 == 0 then 0 else |d| % 3 + 1
  {
    EncodedCount(t, d);
    CountIs(|d|);
  }

  // ---- Round trips ----

  lemma Recombine(b0: nat, b1: nat, b2: nat, v: nat)
    requires b0 < 256 && b1 < 256 && b2 < 256 && v == b0 * 65536 + b1 * 256 + b2
    ensures v / 65536 % 256 == b0 && v / 256 % 256 == b1 && v % 256 == b2
  {
    assert v / 256 == b0 * 256 + b1;
  }

  lemma OctetsOfNumber(d: seq<byte>)
    requires 1 <= |d| <= 3
    ensures Octets(Number(d))[..|d|] == d
  {
    var b1, b2 := if |d| > 1 then Val(d[1]) else 0, if |d| > 2 then Val(d[2]) else 0;
    Recombine(Val(d[0]), b1, b2, Number(d));
    forall i | 0 <= i < |d|
      ensures Octet(Val(d[i])) == d[i]
    {
      OctetOfVal(d[i]);
    }
  }

  lemma {:induction false} FullGroup(t: CString, d: seq<byte>, rest: string)
    requires Alphabet(t) && |d| == 3
    ensures Decoded(t, Encoded(t, d) + rest) == Prepend(d, Decoded(t, rest))
  {
    var sym := Encoded(t, d);
    OneGroup(t, d);
    var s := sym + rest;
    assert s[..4] == sym && s[4..] == rest;
    OctetsOfNumber(d);
    assert Octets(Number(d))[..3] == Octets(Number(d));
    assert '=' !in sym;
  }

  lemma {:induction false} ShortGroup(t: CString, d: seq<byte>)
    requires Alphabet(t) && 1 <= |d| <= 2
    ensures Decoded(t, Encoded(t, d) + Pad(|d|)) == Some(d)
  {
    var n, sym := |d| + 1, Encoded(t, d);
    OneGroup(t, d);
    OctetsOfNumber(d);
    var s := sym + Pad(|d|);
    assert s[..n] == sym && '=' !in sym && s[n] == '=';
    FinalAt(t, s, n);
  }

  /** Padded decoding undoes padded encoding, for every octet string and either alphabet. */
  lemma {:induction false} RoundTrip(t: CString, d: seq<byte>)
    requires Alphabet(t)
    ensures Decoded(t, Encoded(t, d) + Pad(|d|)) == Some(d)
    decreases |d|
  {
    if |d| >= 3 {
      RoundTrip(t, d[3..]);
      assert d[..3] + d[3..] == d;
      EncodedAppend(t, d[..3], d[3..], 1);
      Assoc(Encoded(t, d[..3]), Encoded(t, d[3..]), Pad(|d|));
      FullGroup(t, d[..3], Encoded(t, d[3..]) + Pad(|d|));
    } else if d != [] {
      ShortGroup(t, d);
    }
  }

  lemma LessThree(n: nat)
    requires n >= 3
    ensures (n - 3) % 3 == n % 3 && (n - 3 + 2) / 3 == (n + 2) / 3 - 1
  {
  }

  lemma {:induction false} PadMod(n: nat)
    ensures Pad(n) == if n % 3 == 1 then "==" else if n % 3 == 2 then "=" else ""
  {
    if n >= 3 {
      LessThree(n);
      PadMod(n - 3);
    }
  }

  /** The unpadded form comes back exactly when its length is not a multiple of three: otherwise no padding
      was left off, and the decoder refuses it. */
  lemma {:induction false} RawRoundTrip(t: CString, d: seq<byte>)
    requires Alphabet(t)
    ensures RawDecoded(t, Encoded(t, d)) == if |d| % 3 != 0 then Some(d) else None
  {
    EncodedLength(t, d);
    PadMod(|d|);
    RoundTrip(t, d);
  }
}
