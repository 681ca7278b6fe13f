/** `pool.c`: fixed-size blocks carved from mapped regions, on a free list threaded through their headers
    (memory pool guards off). */
module Pool {
  import opened Bytes
  import opened Lists

  type Addr = nat                     // 0 is NULL

  const HEADER: nat := 32             // sizeof(struct kore_pool_entry)
  const CANARY: nat := 8
  const MIN_ELEMENTS: nat := 16

  /** A header, and the canary word behind its block. */
  datatype Entry = Entry(uptr: Addr, canaryAt: Addr, next: Addr, free: bool, stored: nat)

  datatype Pool = Pool(uselen: nat, elmlen: nat, growth: nat, canary: nat, freelist: Addr, entry: map<Addr, Entry>)

  function Span(p: Pool): (n: nat)
    ensures n >= HEADER
  {
    HEADER + p.elmlen
  }

  /** Exclusive or of two words. */
  function Xor(a: nat, b: nat): (w: nat) {
    if a == 0 then b else if b == 0 then a else 2 * Xor(a / 2, b / 2) + if a % 2 == b % 2 then 0 else 1
  }

  lemma {:induction false} XorBit(a: nat, b: nat)
    ensures Xor(a, b) / 2 == Xor(a / 2, b / 2)
    ensures Xor(a, b) % 2 == if a % 2 == b % 2 then 0 else 1
  {
  }

  lemma {:induction false} XorTwice(a: nat, b: nat)
    ensures Xor(Xor(a, b), b) == a
    decreases a + b
  {
    if a != 0 || b != 0 {
      XorBit(a, b);
      XorBit(Xor(a, b), b);
      XorTwice(a / 2, b / 2);
    }
  }

  lemma {:induction false} XorSwap(a: nat, b: nat, c: nat)
    ensures Xor(Xor(a, b), c) == Xor(Xor(a, c), b)
    decreases a + b + c
  {
    if a != 0 || b != 0 || c != 0 {
      XorBit(a, b);
      XorBit(a, c);
      XorBit(Xor(a, b), c);
      XorBit(Xor(a, c), b);
      XorSwap(a / 2, b / 2, c / 2);
    }
  }

  /** The canary of an entry: the pool's, mixed with where the entry and its block are. */
  function Mixed(c: nat, e: Addr, uptr: Addr): (w: nat) {
    Xor(Xor(c, e), uptr)
  }

  lemma MixedTwice(c: nat, e: Addr, uptr: Addr)
    ensures Mixed(Mixed(c, e, uptr), e, uptr) == c
  {
    XorSwap(Xor(c, e), uptr, e);
    XorTwice(c, e);
    XorTwice(c, uptr);
  }

  // ---- Growing ----

  function NewEntry(p: Pool, at: Addr, next: Addr): (x: Entry) {
    Entry(at + HEADER, at + HEADER + p.uselen, next, true, 0)
  }

  /** `n` fresh entries side by side from `at`, each linked to the next. */
  function Laid(p: Pool, at: Addr, n: nat): (m: map<Addr, Entry>)
    decreases n
  {
    if n == 0 then map[]
    else Laid(p, at + Span(p), n - 1)[at := NewEntry(p, at, if n == 1 then 0 else at + Span(p))]
  }

  function Places(span: nat, at: Addr, n: nat): (s: seq<Addr>)
    decreases n
  {
    if n == 0 then [] else [at] + Places(span, at + span, n - 1)
  }

  /** `pool_grow`, which is only called on an empty free list. */
  function Grow(p: Pool, base: Addr, elms: nat): (p': Pool) {
    p.(freelist := if elms == 0 then p.freelist else base, entry := p.entry + Laid(p, base, elms))
  }

  function Elements(elm: nat): (n: nat)
    ensures n >= MIN_ELEMENTS
  {
    if elm < MIN_ELEMENTS then MIN_ELEMENTS else elm
  }

  /** A pool without entries: room for the canary behind every block, rounded up to sixteen octets. */
  function Bare(len: nat, elm: nat, canary: nat): (p: Pool)
    ensures p.uselen == len && len + CANARY <= p.elmlen && p.growth >= 4 && p.freelist == 0 && p.entry == map[]
  {
    Pool(len, (len + CANARY + 15) / 16 * 16, Elements(elm) / 4, canary, 0, map[])
  }

  /** `kore_pool_init` */
  function Init(len: nat, elm: nat, canary: nat, base: Addr): (p: Pool) {
    Grow(Bare(len, elm, canary), base, Elements(elm))
  }

  /** `kore_pool_get`; `base` is where the next region would be mapped. None is a fatal error. */
  function Get(p: Pool, base: Addr): (r: Option<(Pool, Addr)>) {
    var p1 := if p.freelist == 0 then Grow(p, base, p.growth) else p;
    var e := p1.freelist;
    if e !in p1.entry || !p1.entry[e].free then None
    else
      var x := p1.entry[e];
      Some((p1.(freelist := x.next, entry := p1.entry[e := x.(next := 0, free := false, stored := Mixed(p.canary, e, x.uptr))]), x.uptr))
  }

  /** `kore_pool_put`; None is a fatal error. */
  function Put(p: Pool, ptr: Addr): (r: Option<Pool>) {
    var e := ptr - HEADER;
    if e < 0 || e !in p.entry || p.entry[e].uptr != ptr then None
    else if Mixed(p.entry[e].stored, e, ptr) != p.canary then None
    else if p.entry[e].free then None
    else Some(p.(freelist := e, entry := p.entry[e := p.entry[e].(free := true, next := p.freelist)]))
  }

  // ---- Invariant ----

  ghost predicate Apart(a: Addr, m: nat, b: Addr, n: nat) {
    a + m <= b || b + n <= a
  }

  /** Following `next` from `at` visits exactly `list` and then stops. */
  ghost predicate Chain(entry: map<Addr, Entry>, at: Addr, list: seq<Addr>)
    decreases |list|
  {
    if list == [] then at == 0
    else at == list[0] && at != 0 && at in entry && Chain(entry, entry[at].next, list[1..])
  }

  /** The free list has no cycle and holds all entries but the outstanding ones. */
  ghost predicate FreeList(p: Pool, list: seq<Addr>) {
    && Chain(p.entry, p.freelist, list)
    && Distinct(list)
    && forall e :: e in list <==> e in p.entry && p.entry[e].free
  }

  /** The block lies behind its header, the canary behind the block, both inside the entry; an outstanding entry
      has no link. */
  ghost predicate WellLaid(p: Pool, e: Addr) {
    && e in p.entry && e != 0
    && p.entry[e].uptr == e + HEADER
    && p.entry[e].canaryAt == p.entry[e].uptr + p.uselen
    && p.entry[e].canaryAt + CANARY <= e + Span(p)
    && (p.entry[e].free || p.entry[e].next == 0)
  }

  /** Headers, blocks and canaries of different entries do not overlap. */
  ghost predicate AllApart(m: map<Addr, Entry>, span: nat) {
    forall x, y :: x in m && y in m && x != y ==> Apart(x, span, y, span)
  }

  ghost predicate Layout(p: Pool) {
    && (forall e :: e in p.entry ==> WellLaid(p, e))
    && AllApart(p.entry, Span(p))
    && p.growth > 0 && p.uselen + CANARY <= p.elmlen
  }

  ghost predicate Valid(p: Pool, list: seq<Addr>) {
    FreeList(p, list) && Layout(p)
  }

  /** Nobody has written over a canary. */
  ghost predicate Sealed(p: Pool) {
    forall e :: e in p.entry && !p.entry[e].free ==> p.entry[e].stored == Mixed(p.canary, e, p.entry[e].uptr)
  }

  /** A fresh mapping of `size` octets: it is not NULL and overlaps nothing. */
  ghost predicate Fresh(p: Pool, base: Addr, size: nat) {
    base != 0 && forall e :: e in p.entry ==> Apart(base, size, e, Span(p))
  }

  // ---- Growing keeps it ----

  lemma {:induction false} ChainFrame(m: map<Addr, Entry>, m': map<Addr, Entry>, at: Addr, list: seq<Addr>)
    requires Chain(m, at, list)
    requires forall e :: e in list && e in m ==> e in m' && m'[e].next == m[e].next
    ensures Chain(m', at, list)
    decreases |list|
  {
    if list != [] {
      assert at in list;
      ChainFrame(m, m', m[at].next, list[1..]);
    }
  }

  /** Everything carved lies in the region. */
  lemma {:induction false} LaidInside(p: Pool, at: Addr, n: nat, e: Addr)
    requires e in Laid(p, at, n)
    ensures n > 0 && at <= e && e + Span(p) <= at + n * Span(p)
    ensures var x := Laid(p, at, n)[e];
            x.uptr == e + HEADER && x.canaryAt == e + HEADER + p.uselen && x.free
    decreases n
  {
    if e != at {
      LaidInside(p, at + Span(p), n - 1, e);
    }
    assert n * Span(p) == Span(p) + (n - 1) * Span(p);
    if n > 1 {
      assert (n - 1) * Span(p) >= 0;
    }
  }

  lemma {:induction false} LaidApart(p: Pool, at: Addr, n: nat)
    ensures AllApart(Laid(p, at, n), Span(p))
    decreases n
  {
    if n > 0 {
      var m := Laid(p, at + Span(p), n - 1);
      LaidApart(p, at + Span(p), n - 1);
      forall e | e in m
        ensures at + Span(p) <= e
      {
        LaidInside(p, at + Span(p), n - 1, e);
      }
    }
  }

  lemma {:induction false} PlacesAre(p: Pool, at: Addr, n: nat)
    ensures forall e :: e in Places(Span(p), at, n) <==> e in Laid(p, at, n)
    ensures forall e :: e in Places(Span(p), at, n) ==> at <= e
    ensures Distinct(Places(Span(p), at, n))
    decreases n
  {
    if n > 0 {
      var tail := Places(Span(p), at + Span(p), n - 1);
      PlacesAre(p, at + Span(p), n - 1);
      assert at !in tail;
      assert Distinct([at] + tail);
    }
  }

  lemma {:induction false} LaidChain(p: Pool, at: Addr, n: nat)
    requires at != 0
    ensures Chain(Laid(p, at, n), if n == 0 then 0 else at, Places(Span(p), at, n))
    decreases n
  {
    if n > 0 {
      var at', list := at + Span(p), Places(Span(p), at + Span(p), n - 1);
      LaidChain(p, at', n - 1);
      PlacesAre(p, at', n - 1);
      LinkFront(Laid(p, at', n - 1), at, Laid(p, at, n)[at], list);
    }
  }

  /** Linking a new entry in front of a chain. */
  lemma {:induction false} LinkFront(m: map<Addr, Entry>, at: Addr, x: Entry, list: seq<Addr>)
    requires Chain(m, x.next, list) && at !in list && at != 0
    ensures Chain(m[at := x], at, [at] + list)
  {
    ChainFrame(m, m[at := x], x.next, list);
    assert ([at] + list)[1..] == list;
  }

  lemma JoinApart(m: map<Addr, Entry>, m': map<Addr, Entry>, span: nat, base: Addr, size: nat)
    requires AllApart(m, span) && AllApart(m', span) && span > 0
    requires forall e :: e in m ==> Apart(base, size, e, span)
    requires forall e :: e in m' ==> base <= e && e + span <= base + size
    ensures AllApart(m + m', span) && m.Keys !! m'.Keys
  {
  }

  lemma {:induction false} GrowLayout(p: Pool, base: Addr, n: nat)
    requires Layout(p) && Fresh(p, base, n * Span(p))
    ensures Layout(Grow(p, base, n)) && p.entry.Keys !! Laid(p, base, n).Keys
  {
    var m, p', size := Laid(p, base, n), Grow(p, base, n), n * Span(p);
    LaidApart(p, base, n);
    forall e | e in m
      ensures WellLaid(p', e) && base <= e && e + Span(p) <= base + size
    {
      LaidInside(p, base, n, e);
    }
    JoinApart(p.entry, m, Span(p), base, size);
    forall e | e in p.entry
      ensures WellLaid(p', e)
    {
      assert WellLaid(p, e);
    }
  }

  /** Growing an empty pool makes the whole region its free list. */
  lemma {:induction false} GrowKeeps(p: Pool, base: Addr, n: nat)
    requires Valid(p, []) && n > 0 && Fresh(p, base, n * Span(p))
    ensures Valid(Grow(p, base, n), Places(Span(p), base, n))
  {
    var m, p', list := Laid(p, base, n), Grow(p, base, n), Places(Span(p), base, n);
    GrowLayout(p, base, n);
    LaidChain(p, base, n);
    PlacesAre(p, base, n);
    forall e | e in m
      ensures m[e].free && p'.entry[e] == m[e]
    {
      LaidInside(p, base, n, e);
    }
    ChainFrame(m, p'.entry, base, list);
    assert forall e :: e in p.entry ==> !p.entry[e].free;
  }

  /** All free, in a region of `room` octets. */
  ghost predicate Within(p: Pool, base: Addr, room: nat) {
    forall e :: e in p.entry ==> p.entry[e].free && base <= e && e + Span(p) <= base + room
  }

  lemma {:induction false} BareGood(p: Pool, n: nat, base: Addr)
    requires p.entry == map[] && p.freelist == 0 && p.growth > 0 && p.uselen + CANARY <= p.elmlen && n > 0 && base != 0
    ensures Valid(Grow(p, base, n), Places(Span(p), base, n)) && Within(Grow(p, base, n), base, n * Span(p))
  {
    GrowKeeps(p, base, n);
    forall e | e in Laid(p, base, n)
      ensures Laid(p, base, n)[e].free && base <= e && e + Span(p) <= base + n * Span(p)
    {
      LaidInside(p, base, n, e);
    }
  }

  // ---- The operations ----

  /** The list once a block is to be had. */
  ghost function Stocked(p: Pool, list: seq<Addr>, base: Addr): (l: seq<Addr>) {
    if p.freelist == 0 then Places(Span(p), base, p.growth) else list
  }

  ghost predicate CanGet(p: Pool, base: Addr) {
    p.freelist == 0 ==> Fresh(p, base, p.growth * Span(p))
  }

  ghost function Ready(p: Pool, base: Addr): (p': Pool) {
    if p.freelist == 0 then Grow(p, base, p.growth) else p
  }

  lemma ReadyKeeps(p: Pool, list: seq<Addr>, base: Addr)
    requires Valid(p, list) && CanGet(p, base)
    ensures Valid(Ready(p, base), Stocked(p, list, base)) && Stocked(p, list, base) != []
    ensures forall e :: e in p.entry ==> e in Ready(p, base).entry && Ready(p, base).entry[e] == p.entry[e]
  {
    if p.freelist == 0 {
      assert list == [];
      GrowKeeps(p, base, p.growth);
      GrowLayout(p, base, p.growth);
    }
  }

  /** Taking the first entry off a non-empty list. */
  lemma TakeKeeps(p: Pool, list: seq<Addr>, w: nat)
    requires Valid(p, list) && list != []
    ensures p.freelist == list[0] && p.freelist in p.entry && p.entry[p.freelist].free
    ensures var e := p.freelist;
            Valid(p.(freelist := p.entry[e].next, entry := p.entry[e := p.entry[e].(next := 0, free := false, stored := w)]), list[1..])
  {
    var e := p.freelist;
    assert e in list;
    var p' := p.(freelist := p.entry[e].next, entry := p.entry[e := p.entry[e].(next := 0, free := false, stored := w)]);
    ChainFrame(p.entry, p'.entry, p.entry[e].next, list[1..]);
    forall x
      ensures x in list[1..] <==> x in list && x != e
    {
    }
    forall x | x in p'.entry
      ensures WellLaid(p', x)
    {
      assert WellLaid(p, x);
    }
  }

  /** A block is always to be had: the entry it comes from was on the free list or is new, and nothing else
      about the other entries has changed. */
  lemma GetKeeps(p: Pool, list: seq<Addr>, base: Addr)
    requires Valid(p, list) && CanGet(p, base)
    ensures Get(p, base).Some?
    ensures var (p', ptr) := Get(p, base).value;
            var e := Stocked(p, list, base)[0];
            && Valid(p', Stocked(p, list, base)[1..])
            && ptr == e + HEADER && e in p'.entry && !p'.entry[e].free && (e in p.entry ==> p.entry[e].free)
            && p'.entry[e].stored == Mixed(p.canary, e, ptr)
            && (forall x :: x in p.entry && x != e ==> x in p'.entry && p'.entry[x] == p.entry[x])
  {
    ReadyKeeps(p, list, base);
    var p1, l := Ready(p, base), Stocked(p, list, base);
    var e := p1.freelist;
    TakeKeeps(p1, l, Mixed(p.canary, l[0], l[0] + HEADER));
    assert WellLaid(p1, e);
  }

  /** New entries lie in the region that was mapped for them. */
  lemma GetNew(p: Pool, list: seq<Addr>, base: Addr, x: Addr)
    requires Valid(p, list) && CanGet(p, base) && Get(p, base).Some?
    ensures var p' := Get(p, base).value.0;
            && p'.uselen == p.uselen && p'.elmlen == p.elmlen && p'.canary == p.canary && p'.growth == p.growth
            && (x in p'.entry && x !in p.entry ==>
                  p.freelist == 0 && base <= x && x + Span(p) <= base + p.growth * Span(p))
            && (x in p'.entry && x !in p.entry && x + HEADER != Get(p, base).value.1 ==> p'.entry[x].free)
  {
    GetKeeps(p, list, base);
    if x in Get(p, base).value.0.entry && x !in p.entry && p.freelist == 0 {
      LaidInside(p, base, p.growth, x);
    }
  }

  /** A block is taken back exactly if it is one of the pool's that is out and its canary is as it was
      written. */
  lemma PutExact(p: Pool, list: seq<Addr>, ptr: Addr)
    requires Valid(p, list)
    ensures Put(p, ptr).Some? <==>
            ptr >= HEADER && ptr - HEADER in p.entry && !p.entry[ptr - HEADER].free
            && p.entry[ptr - HEADER].stored == Mixed(p.canary, ptr - HEADER, ptr)
  {
    var e := ptr - HEADER;
    if e >= 0 && e in p.entry {
      assert WellLaid(p, e);
      MixedTwice(p.canary, e, ptr);
      MixedTwice(p.entry[e].stored, e, ptr);
    }
  }

  lemma SealedKeeps(p: Pool, list: seq<Addr>, base: Addr, ptr: Addr)
    requires Valid(p, list) && Sealed(p)
    ensures CanGet(p, base) && Get(p, base).Some? ==> Sealed(Get(p, base).value.0)
    ensures Put(p, ptr).Some? ==> Sealed(Put(p, ptr).value)
    ensures ptr >= HEADER && ptr - HEADER in p.entry && !p.entry[ptr - HEADER].free ==> Put(p, ptr).Some?
  {
    PutExact(p, list, ptr);
    if ptr >= HEADER && ptr - HEADER in p.entry {
      assert WellLaid(p, ptr - HEADER);
    }
    if CanGet(p, base) {
      GetKeeps(p, list, base);
      var p' := Get(p, base).value.0;
      forall e | e in p'.entry && !p'.entry[e].free
        ensures p'.entry[e].stored == Mixed(p'.canary, e, p'.entry[e].uptr)
      {
        GetNew(p, list, base, e);
        assert WellLaid(p', e);
      }
    }
  }

  lemma PutKeeps(p: Pool, list: seq<Addr>, ptr: Addr)
    requires Valid(p, list) && Put(p, ptr).Some?
    ensures Valid(Put(p, ptr).value, [ptr - HEADER] + list)
    ensures forall x :: x in p.entry && x != ptr - HEADER ==> Put(p, ptr).value.entry[x] == p.entry[x]
  {
    var e, p' := ptr - HEADER, Put(p, ptr).value;
    assert WellLaid(p, e);
    LinkFront(p.entry, e, p'.entry[e], list);
    forall x | x in p'.entry
      ensures WellLaid(p', x)
    {
      assert WellLaid(p, x);
    }
    assert Distinct([e] + list);
  }

  /** What was put back last is handed out next, and then the pool is as it was. */
  lemma PutThenGet(p: Pool, list: seq<Addr>, ptr: Addr, base: Addr)
    requires Valid(p, list) && Put(p, ptr).Some?
    ensures Get(Put(p, ptr).value, base) == Some((p, ptr))
  {
    PutKeeps(p, list, ptr);
    PutExact(p, list, ptr);
    var e, p' := ptr - HEADER, Put(p, ptr).value;
    assert WellLaid(p, e);
    var x := p'.entry[e].(next := 0, free := false, stored := Mixed(p.canary, e, ptr));
    assert x == p.entry[e];
    assert p'.entry[e := x] == p.entry;
  }

  // ---- The pool, in place ----

  function Nth(p: Pool, at: Addr, n: nat): (a: Addr)
    decreases n
  {
    if n == 0 then at else Nth(p, at + Span(p), n - 1)
  }

  lemma {:induction false} NthIs(p: Pool, at: Addr, n: nat)
    ensures Nth(p, at, n) == at + Span(p) * n
    decreases n
  {
    if n > 0 {
      NthIs(p, at + Span(p), n - 1);
      assert Span(p) * n == Span(p) + Span(p) * (n - 1);
    }
  }

  lemma {:induction false} NthUp(p: Pool, at: Addr, n: nat)
    ensures Nth(p, at, n) >= at && (n > 0 ==> Nth(p, at, n) > Nth(p, at, n - 1))
    decreases n
  {
    if n > 0 {
      NthUp(p, at + Span(p), n - 1);
    }
  }

  /** One more entry at the end: it is new, and the one before it links to it. */
  lemma {:induction false} LaidSnoc(p: Pool, at: Addr, n: nat)
    requires n > 0
    ensures var (last, end, m) := (Nth(p, at, n - 1), Nth(p, at, n), Laid(p, at, n));
            && last in m && m[last].next == 0 && end !in m
            && Laid(p, at, n + 1) == m[end := NewEntry(p, end, 0)][last := m[last].(next := end)]
    decreases n
  {
    NthUp(p, at, n);
    var at' := at + Span(p);
    if n > 1 {
      LaidSnoc(p, at', n - 1);
      NthUp(p, at', n - 2);
      assert Laid(p, at, n + 1) == Laid(p, at', n)[at := NewEntry(p, at, at')];
    } else {
      assert Laid(p, at', 0) == map[];
      assert Laid(p, at', 1) == map[at' := NewEntry(p, at', 0)];
      assert Nth(p, at, 1) == at';
    }
  }

  lemma GrowStep(p: Pool, base: Addr, i: nat, prev: Addr, entry: Addr)
    requires i > 0 ==> prev == base + Span(p) * (i - 1)
    requires entry == base + Span(p) * i
    ensures var m := Grow(p, base, i).entry;
            && (i == 0 ==> Grow(p, base, 1).entry == m[entry := NewEntry(p, entry, 0)])
            && (i > 0 ==> prev in m && prev != entry)
            && (i > 0 ==> Grow(p, base, i + 1).entry == m[entry := NewEntry(p, entry, 0)][prev := m[prev].(next := entry)])
  {
    NthIs(p, base, i);
    if i > 0 {
      NthIs(p, base, i - 1);
      LaidSnoc(p, base, i);
    } else {
      assert Laid(p, base + Span(p), 0) == map[];
    }
  }

  class Blocks {
    var pool: Pool
    ghost var list: seq<Addr>

    /** `kore_pool_init`: at least sixteen entries, and room for the canary behind every block. */
    constructor (len: nat, elm: nat, canary: nat, base: Addr)
      requires base != 0
      ensures pool == Init(len, elm, canary, base) && Valid(pool, list)
      ensures pool.uselen == len && pool.growth >= 4
    {
      var p, n := Bare(len, elm, canary), Elements(elm);
      BareGood(p, n, base);
      pool, list := Grow(p, base, n), Places(Span(p), base, n);
    }

    /** `pool_grow`: entry by entry, each linked from the one before. */
    method GrowBy(base: Addr, elms: nat)
      requires pool.freelist == 0 && base != 0
      modifies this`pool
      ensures pool == Grow(old(pool), base, elms)
    {
      var prev, span := pool.freelist, Span(pool);
      for i := 0 to elms
        invariant pool == Grow(old(pool), base, i)
        invariant prev == if i == 0 then 0 else base + span * (i - 1)
      {
        var entry := base + span * i;
        GrowStep(old(pool), base, i, prev, entry);
        pool := pool.(entry := pool.entry[entry := NewEntry(pool, entry, 0)]);
        if prev != 0 {
          pool := pool.(entry := pool.entry[prev := pool.entry[prev].(next := entry)]);
        }
        prev := entry;
        if pool.freelist == 0 {
          pool := pool.(freelist := entry);
        }
      }
    }

    /** `kore_pool_get` */
    method Take(base: Addr) returns (ptr: Addr)
      requires Valid(pool, list) && CanGet(pool, base) && base != 0
      modifies this
      ensures Get(old(pool), base) == Some((pool, ptr)) && Valid(pool, list)
    {
      GetKeeps(pool, list, base);
      ReadyKeeps(pool, list, base);
      list := Stocked(pool, list, base)[1..];
      if pool.freelist == 0 {
        GrowBy(base, pool.growth);
      }
      var entry := pool.freelist;
      var x := pool.entry[entry];
      pool := pool.(freelist := x.next);
      pool := pool.(entry := pool.entry[entry := x.(next := 0, free := false, stored := Mixed(pool.canary, entry, x.uptr))]);
      ptr := x.uptr;
    }

    /** `kore_pool_put`; `ok` is false where the source gives up with a fatal error. */
    method Return(ptr: Addr) returns (ok: bool)
      requires Valid(pool, list)
      modifies this
      ensures ok == Put(old(pool), ptr).Some? && Valid(pool, list)
      ensures pool == if ok then Put(old(pool), ptr).value else old(pool)
    {
      if ptr < HEADER || ptr - HEADER !in pool.entry || pool.entry[ptr - HEADER].uptr != ptr {
        return false;
      }
      var entry := ptr - HEADER;
      var x := pool.entry[entry];
      if Mixed(x.stored, entry, ptr) != pool.canary || x.free {
        return false;
      }
      PutKeeps(pool, list, ptr);
      list := [entry] + list;
      pool := pool.(entry := pool.entry[entry := x.(free := true, next := pool.freelist)]);
      pool := pool.(freelist := entry);
      ok := true;
    }
  }
}
