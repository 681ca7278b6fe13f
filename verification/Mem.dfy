/** `mem.c`: the general allocator over eleven pools of doubling sizes, larger blocks mapped one by one. */
module Mem {
  import opened Bytes
  import opened Pool

  const POOLS: nat := 11
  const PREALLOC: nat := 32 * 1024
  const POOLED_MAX: nat := 8192
  const INFO: nat := 16               // sizeof(struct meminfo)

  // ---- Size classes ----

  function BlockSize(i: nat): (n: nat)
    ensures n > 0
  {
    if i == 0 then 8 else 2 * BlockSize(i - 1)
  }

  /** The smallest class whose blocks are large enough. */
  ghost predicate IsClass(len: nat, i: nat) {
    len <= BlockSize(i) && (i > 0 ==> BlockSize(i - 1) < len)
  }

  function Climb(i: nat, mlen: nat, len: nat): (idx: nat)
    requires mlen > 0
    decreases len - mlen
  {
    if mlen >= len then i else Climb(i + 1, 2 * mlen, len)
  }

  function Class(len: nat): (i: nat) {
    Climb(0, 8, len)
  }

  lemma {:induction false} ClimbSpec(i: nat, len: nat)
    requires i > 0 ==> BlockSize(i - 1) < len
    ensures IsClass(len, Climb(i, BlockSize(i), len)) && Climb(i, BlockSize(i), len) >= i
    decreases len - BlockSize(i)
  {
    if BlockSize(i) < len {
      ClimbSpec(i + 1, len);
    }
  }

  lemma {:induction false} SizesUp(i: nat, j: nat)
    requires i <= j
    ensures BlockSize(i) <= BlockSize(j)
  {
    if i < j {
      SizesUp(i, j - 1);
    }
  }

  lemma LargestClass()
    ensures BlockSize(10) == POOLED_MAX
  {
    assert BlockSize(5) == 256;
  }

  /** Every pooled length has a class among the eleven, and it is the smallest that fits. */
  lemma ClassSpec(len: nat)
    ensures IsClass(len, Class(len))
    ensures len <= POOLED_MAX ==> Class(len) < POOLS
  {
    ClimbSpec(0, len);
    LargestClass();
    if Class(len) >= POOLS {
      SizesUp(10, Class(len) - 1);
    }
  }

  /** `mem_index` */
  method MemIndex(len: nat) returns (idx: nat)
    ensures IsClass(len, idx) && idx == Class(len)
  {
    var mlen := 8;
    idx := 0;
    while mlen < len
      invariant mlen == BlockSize(idx) && (idx > 0 ==> BlockSize(idx - 1) < len)
      invariant Climb(idx, mlen, len) == Class(len)
      decreases len - mlen
    {
      idx := idx + 1;
      mlen := mlen * 2;
    }
  }

  // ---- State ----

  /** The pools, the blocks mapped one by one with their sizes, every block's recorded length and the octets
      of memory; and the pointers callers hold, with the lengths they have. */
  datatype Heap = Heap(
    pools: seq<Pool>,
    big: map<Addr, nat>,
    info: map<Addr, nat>,
    mem: map<Addr, byte>,
    live: map<Addr, nat>)

  function Read(mem: map<Addr, byte>, a: Addr): (b: byte) {
    if a in mem then mem[a] else 0
  }

  function Copy(mem: map<Addr, byte>, dst: Addr, src: Addr, n: nat): (m: map<Addr, byte>) {
    if n == 0 then mem else Copy(mem, dst, src, n - 1)[dst + n - 1 := Read(mem, src + n - 1)]
  }

  function Zeroed(mem: map<Addr, byte>, a: Addr, n: nat): (m: map<Addr, byte>) {
    if n == 0 then mem else Zeroed(mem, a, n - 1)[a + n - 1 := 0]
  }

  function Least(a: nat, b: nat): (n: nat) {
    if a < b then a else b
  }

  // ---- Operations ----

  /** `mem_alloc`; `base` is where the next mapping would go, None a fatal error. */
  function Malloc(h: Heap, want: nat, base: Addr): (r: Option<(Heap, Addr)>)
    requires |h.pools| == POOLS
  {
    var len := if want == 0 then 8 else want;
    if len <= POOLED_MAX then
      var i := Class(len);
      if i >= POOLS then None
      else
        match Get(h.pools[i], base)
        case None => None
        case Some((p, addr)) => Some((Handed(h.(pools := h.pools[i := p]), addr, len), addr + INFO))
    else Some((Handed(h.(big := h.big[base := INFO + len]), base, len), base + INFO))
  }

  /** The length is noted in front of the block. */
  function Handed(h: Heap, addr: Addr, len: nat): (h': Heap) {
    h.(info := h.info[addr := len], live := h.live[addr + INFO := len])
  }

  /** `kore_free` */
  function Free(h: Heap, ptr: Addr): (r: Option<Heap>)
    requires |h.pools| == POOLS
  {
    var addr := ptr - INFO;
    if ptr == 0 then Some(h)
    else if addr < 0 || addr !in h.info then None
    else
      var len := h.info[addr];
      var h1 := h.(info := h.info - {addr}, live := h.live - {ptr});
      if len <= POOLED_MAX then
        var i := Class(len);
        if i >= POOLS then None
        else
          match Put(h.pools[i], addr)
          case None => None
          case Some(p) => Some(h1.(pools := h.pools[i := p]))
      else Some(h1.(big := h.big - {addr}))
  }

  /** `kore_realloc` */
  function Realloc(h: Heap, ptr: Addr, len: nat, base: Addr): (r: Option<(Heap, Addr)>)
    requires |h.pools| == POOLS
  {
    if ptr == 0 then Malloc(h, len, base)
    else if ptr < INFO || ptr - INFO !in h.info then None
    else if len == h.info[ptr - INFO] then Some((h, ptr))
    else
      var was := h.info[ptr - INFO];
      match Malloc(h, len, base)
      case None => None
      case Some((h1, nptr)) =>
        var m := Copy(h1.mem, nptr, ptr, Least(len, was));
        match Free(h1.(mem := Zeroed(m, ptr, was)), ptr)
        case None => None
        case Some(h2) => Some((h2, nptr))
  }

  // ---- Invariant ----

  /** Cells are the pools' entries, and for i = 11 the blocks mapped one by one. */
  predicate Has(h: Heap, i: nat, x: Addr) {
    if i < POOLS then i < |h.pools| && x in h.pools[i].entry else i == POOLS && x in h.big
  }

  function SpanAt(h: Heap, i: nat, x: Addr): (n: nat) {
    if i < POOLS then (if i < |h.pools| then Span(h.pools[i]) else 0)
    else if x in h.big then h.big[x]
    else 0
  }

  ghost predicate CellsApart(h: Heap, i: nat, x: Addr, j: nat, y: Addr) {
    Apart(x, SpanAt(h, i, x), y, SpanAt(h, j, y))
  }

  /** No two cells overlap, whatever pools they are of. */
  ghost predicate Disjoint(h: Heap) {
    forall i: nat, j: nat, x: Addr, y: Addr {:trigger CellsApart(h, i, x, j, y)} ::
      Has(h, i, x) && Has(h, j, y) && !(i == j && x == y) ==> CellsApart(h, i, x, j, y)
  }

  ghost predicate GoodPool(p: Pool, i: nat) {
    (exists list :: Valid(p, list)) && Sealed(p) && p.uselen == INFO + BlockSize(i)
  }

  function Home(len: nat): (i: nat) {
    if len <= POOLED_MAX then Class(len) else POOLS
  }

  /** What lies in front of a pointer handed out. */
  function Lead(i: nat): (n: nat) {
    if i < POOLS then HEADER + INFO else INFO
  }

  /** The cell is handed out. */
  predicate Out(h: Heap, i: nat, x: Addr) {
    Has(h, i, x) && (i < POOLS ==> !h.pools[i].entry[x].free)
  }

  /** `ptr` is held as a block of `len` octets of class `i`. */
  ghost predicate LiveAt(h: Heap, ptr: Addr, len: nat, i: nat) {
    && i == Home(len) && i <= POOLS && len > 0 && ptr > Lead(i)
    && ptr - INFO in h.info && h.info[ptr - INFO] == len
    && Out(h, i, ptr - Lead(i)) && (i == POOLS ==> h.big[ptr - INFO] == INFO + len)
  }

  ghost predicate Sized(h: Heap) {
    && |h.pools| == POOLS
    && (forall i {:trigger GoodPool(h.pools[i], i)} :: 0 <= i < POOLS ==> GoodPool(h.pools[i], i))
    && (forall x :: x in h.big ==> x != 0 && h.big[x] > INFO)
  }

  ghost predicate LiveOk(h: Heap) {
    forall ptr {:trigger LiveAt(h, ptr, h.live[ptr], Home(h.live[ptr]))} ::
      ptr in h.live ==> LiveAt(h, ptr, h.live[ptr], Home(h.live[ptr]))
  }

  ghost predicate HeldAt(h: Heap, i: nat, x: Addr) {
    x + Lead(i) in h.live && Home(h.live[x + Lead(i)]) == i
  }

  /** Nothing is out but what callers hold. */
  ghost predicate OutOk(h: Heap) {
    forall i: nat, x: Addr {:trigger HeldAt(h, i, x)} :: Out(h, i, x) ==> HeldAt(h, i, x)
  }

  ghost predicate Inv(h: Heap) {
    Sized(h) && Disjoint(h) && LiveOk(h) && OutOk(h)
  }

  /** A mapping of `size` octets at `base` overlaps nothing there is. */
  ghost predicate FreshFor(h: Heap, base: Addr, size: nat) {
    base != 0 && forall i: nat, x: Addr :: Has(h, i, x) ==> Apart(base, size, x, SpanAt(h, i, x))
  }

  ghost predicate CanMalloc(h: Heap, want: nat, base: Addr) {
    var len := if want == 0 then 8 else want;
    var i := Home(len);
    if i < |h.pools| then h.pools[i].freelist == 0 ==> FreshFor(h, base, h.pools[i].growth * Span(h.pools[i]))
    else FreshFor(h, base, INFO + len)
  }

  // ---- What a held block is ----

  /** Two blocks that are held do not overlap, from their headers to behind their canaries. */
  lemma LiveApart(h: Heap, p: Addr, i: nat, q: Addr, j: nat)
    requires Disjoint(h) && LiveOk(h) && p in h.live && q in h.live && p != q
    requires i == Home(h.live[p]) && j == Home(h.live[q])
    ensures p > Lead(i) && q > Lead(j) && CellsApart(h, i, p - Lead(i), j, q - Lead(j))
  {
    assert LiveAt(h, p, h.live[p], i) && LiveAt(h, q, h.live[q], j);
  }

  /** A held block has the length asked for, behind its own headers and in front of its own canary. */
  lemma LiveInside(h: Heap, p: Addr, i: nat)
    requires Sized(h) && LiveOk(h) && p in h.live && i == Home(h.live[p])
    ensures p > Lead(i) && Has(h, i, p - Lead(i))
    ensures p + h.live[p] <= p - Lead(i) + SpanAt(h, i, p - Lead(i))
    ensures i < POOLS ==> p + h.live[p] <= h.pools[i].entry[p - Lead(i)].canaryAt
    ensures i < POOLS ==> h.pools[i].entry[p - Lead(i)].canaryAt + CANARY <= p - Lead(i) + Span(h.pools[i])
  {
    assert LiveAt(h, p, h.live[p], i);
    if i < POOLS {
      ClassSpec(h.live[p]);
      GoodEntry(h.pools[i], i, p - Lead(i));
    }
  }

  lemma {:induction false} GoodEntry(p: Pool, i: nat, e: Addr)
    requires GoodPool(p, i) && e in p.entry
    ensures p.entry[e].canaryAt == e + HEADER + INFO + BlockSize(i)
    ensures p.entry[e].canaryAt + CANARY <= e + Span(p)
  {
    assert WellLaid(p, e);
  }

  // ---- Allocation ----

  /** Exchanging a pool for one with the same cells, or more in fresh places, keeps all cells apart. */
  lemma ReplaceDisjoint(h: Heap, i: nat, p': Pool)
    requires |h.pools| == POOLS && i < POOLS && Disjoint(h)
    requires Span(p') == Span(h.pools[i]) && AllApart(p'.entry, Span(p'))
    requires forall x, j: nat, y: Addr ::
               x in p'.entry && x !in h.pools[i].entry && Has(h, j, y) ==> Apart(x, Span(p'), y, SpanAt(h, j, y))
    ensures Disjoint(h.(pools := h.pools[i := p']))
  {
    var h' := h.(pools := h.pools[i := p']);
    forall a: nat, b: nat, x: Addr, y: Addr | Has(h', a, x) && Has(h', b, y) && !(a == b && x == y)
      ensures CellsApart(h', a, x, b, y)
    {
      assert SpanAt(h', a, x) == SpanAt(h, a, x) && SpanAt(h', b, y) == SpanAt(h, b, y);
      if Has(h, a, x) && Has(h, b, y) {
        assert CellsApart(h, a, x, b, y);
      } else if a == i && b == i {
        assert Apart(x, Span(p'), y, Span(p'));
      }
    }
  }

  /** The cell's header, canary and size are what they were. */
  ghost predicate SameCell(h: Heap, h': Heap, a: nat, y: Addr) {
    && Has(h, a, y) && Has(h', a, y)
    && (a < POOLS ==> h'.pools[a].entry[y] == h.pools[a].entry[y])
    && (a == POOLS ==> h'.big[y] == h.big[y])
  }

  /** Apart from the cell (i, x), the same cells are out, and as they were. */
  ghost predicate SameElsewhere(h: Heap, h': Heap, i: nat, x: Addr) {
    forall a: nat, y: Addr {:trigger SameCell(h, h', a, y)} :: !(a == i && y == x) ==>
      (Out(h', a, y) <==> Out(h, a, y)) && (Out(h, a, y) ==> SameCell(h, h', a, y))
  }

  lemma StaysLive(h: Heap, h': Heap, q: Addr, len: nat, i: nat)
    requires LiveAt(h, q, len, i) && SameCell(h, h', i, q - Lead(i))
    requires q - INFO in h'.info && h'.info[q - INFO] == len
    ensures LiveAt(h', q, len, i)
  {
  }

  ghost predicate Roomy(h: Heap) {
    |h.pools| == POOLS && forall i :: 0 <= i < POOLS ==> h.pools[i].elmlen > 0
  }

  lemma CellApart(h: Heap, i: nat, x: Addr, j: nat, y: Addr)
    requires Disjoint(h) && Has(h, i, x) && Has(h, j, y)
    ensures (i == j && x == y) || CellsApart(h, i, x, j, y)
  {
    if !(i == j && x == y) {
      assert CellsApart(h, i, x, j, y);
    }
  }

  /** Cells at the same pointer overlap. */
  lemma SamePointer(h: Heap, i: nat, x: Addr, j: nat, y: Addr)
    requires Roomy(h) && i <= POOLS && j <= POOLS && x + Lead(i) == y + Lead(j)
    requires SpanAt(h, i, x) > 0 && SpanAt(h, j, y) > 0
    ensures !CellsApart(h, i, x, j, y)
  {
  }

  /** The cell (i, x) of `h1` overlaps nothing that was out. */
  ghost predicate Clear(h: Heap, h1: Heap, i: nat, x: Addr) {
    forall j: nat, y: Addr :: Out(h, j, y) ==> !(j == i && y == x) && CellsApart(h1, i, x, j, y) && SpanAt(h1, j, y) > 0
  }

  /** So no pointer that is held leads to it. */
  lemma NotHeld(h: Heap, h1: Heap, i: nat, x: Addr)
    requires Roomy(h1) && LiveOk(h) && i <= POOLS && SpanAt(h1, i, x) > 0 && Clear(h, h1, i, x)
    ensures x + Lead(i) !in h.live
  {
    var q := x + Lead(i);
    if q in h.live {
      var j := Home(h.live[q]);
      assert LiveAt(h, q, h.live[q], j);
      SamePointer(h1, i, x, j, q - Lead(j));
    }
  }

  lemma HandOutLive(h: Heap, h1: Heap, i: nat, x: Addr, len: nat)
    requires LiveOk(h) && i == Home(len) && i <= POOLS && len > 0 && x > 0 && x + Lead(i) !in h.live
    requires Out(h1, i, x) && (i == POOLS ==> h1.big[x] == INFO + len)
    requires SameElsewhere(h, h1, i, x) && h1.live == h.live && h1.info == h.info
    ensures LiveOk(Handed(h1, x + Lead(i) - INFO, len))
  {
    var ptr, h' := x + Lead(i), Handed(h1, x + Lead(i) - INFO, len);
    forall q | q in h'.live
      ensures LiveAt(h', q, h'.live[q], Home(h'.live[q]))
    {
      if q != ptr {
        var j := Home(h.live[q]);
        assert LiveAt(h, q, h.live[q], j);
        assert !(j == i && q - Lead(j) == x);
        assert SameCell(h, h1, j, q - Lead(j));
        StaysLive(h, h', q, h.live[q], j);
      }
    }
  }

  lemma HandOutOnly(h: Heap, h1: Heap, i: nat, x: Addr, len: nat)
    requires OutOk(h) && i == Home(len) && x + Lead(i) !in h.live
    requires SameElsewhere(h, h1, i, x) && h1.live == h.live
    ensures OutOk(Handed(h1, x + Lead(i) - INFO, len))
  {
    var h' := Handed(h1, x + Lead(i) - INFO, len);
    forall a: nat, y: Addr | Out(h', a, y)
      ensures HeldAt(h', a, y)
    {
      assert Out(h1, a, y);
      if !(a == i && y == x) {
        assert SameCell(h, h1, a, y);
        assert HeldAt(h, a, y);
      }
    }
  }

  lemma HandedDisjoint(h: Heap, addr: Addr, len: nat)
    requires Disjoint(h)
    ensures Disjoint(Handed(h, addr, len))
  {
    var h' := Handed(h, addr, len);
    forall a: nat, b: nat, y: Addr, z: Addr | Has(h', a, y) && Has(h', b, z) && !(a == b && y == z)
      ensures CellsApart(h', a, y, b, z)
    {
      assert Has(h, a, y) && Has(h, b, z);
      assert CellsApart(h, a, y, b, z);
    }
  }

  /** What taking a block does to a pool's entries: `e` is handed out, the rest is as it was or new and free. */
  ghost predicate TookCell(p: Pool, p': Pool, e: Addr) {
    && e > 0 && e in p'.entry && !p'.entry[e].free && (e in p.entry ==> p.entry[e].free)
    && (forall x :: x in p.entry && x != e ==> x in p'.entry && p'.entry[x] == p.entry[x])
    && (forall x :: x in p'.entry && x !in p.entry && x != e ==> p'.entry[x].free)
  }

  /** And to the room they take: what is new lies in the region that was mapped. */
  ghost predicate TookRoom(p: Pool, p': Pool, base: Addr) {
    && Span(p') == Span(p) && AllApart(p'.entry, Span(p))
    && (forall x :: x in p'.entry && x !in p.entry ==> p.freelist == 0 && base <= x && x + Span(p) <= base + p.growth * Span(p))
  }

  lemma TakeGood(p: Pool, i: nat, base: Addr)
    requires GoodPool(p, i) && CanGet(p, base)
    ensures Get(p, base).Some? && Get(p, base).value.1 > HEADER && GoodPool(Get(p, base).value.0, i)
    ensures TookCell(p, Get(p, base).value.0, Get(p, base).value.1 - HEADER)
    ensures TookRoom(p, Get(p, base).value.0, base)
  {
    var list :| Valid(p, list);
    GetKeeps(p, list, base);
    SealedKeeps(p, list, base, 0);
    var (p', addr) := Get(p, base).value;
    assert WellLaid(p', addr - HEADER);
    forall x | x in p'.entry && x !in p.entry
      ensures p.freelist == 0 && base <= x && x + Span(p) <= base + p.growth * Span(p)
      ensures x == addr - HEADER || p'.entry[x].free
    {
      GetNew(p, list, base, x);
    }
    GetNew(p, list, base, 0);
  }

  lemma TookDisjoint(h: Heap, i: nat, p': Pool, base: Addr)
    requires |h.pools| == POOLS && i < POOLS && Disjoint(h) && TookRoom(h.pools[i], p', base)
    requires h.pools[i].freelist == 0 ==> FreshFor(h, base, h.pools[i].growth * Span(h.pools[i]))
    ensures Disjoint(h.(pools := h.pools[i := p']))
  {
    var p := h.pools[i];
    forall x, j: nat, y: Addr | x in p'.entry && x !in p.entry && Has(h, j, y)
      ensures Apart(x, Span(p'), y, SpanAt(h, j, y))
    {
      assert Apart(base, p.growth * Span(p), y, SpanAt(h, j, y));
    }
    ReplaceDisjoint(h, i, p');
  }

  lemma TookElsewhere(h: Heap, i: nat, p': Pool, e: Addr)
    requires |h.pools| == POOLS && i < POOLS && TookCell(h.pools[i], p', e)
    ensures SameElsewhere(h, h.(pools := h.pools[i := p']), i, e) && !Out(h, i, e)
  {
    var h1 := h.(pools := h.pools[i := p']);
    forall a: nat, y: Addr | !(a == i && y == e)
      ensures (Out(h1, a, y) <==> Out(h, a, y)) && (Out(h, a, y) ==> SameCell(h, h1, a, y))
    {
    }
  }

  lemma ClearOf(h: Heap, h1: Heap, i: nat, x: Addr)
    requires Sized(h1) && Disjoint(h1) && Has(h1, i, x) && !Out(h, i, x) && SameElsewhere(h, h1, i, x)
    ensures Clear(h, h1, i, x)
  {
    forall j: nat, y: Addr | Out(h, j, y)
      ensures CellsApart(h1, i, x, j, y) && SpanAt(h1, j, y) > 0
    {
      assert SameCell(h, h1, j, y);
      CellApart(h1, i, x, j, y);
    }
  }

  lemma SizedRoomy(h: Heap)
    requires Sized(h)
    ensures Roomy(h)
  {
    forall i | 0 <= i < POOLS
      ensures h.pools[i].elmlen > 0
    {
      assert GoodPool(h.pools[i], i);
    }
  }

  lemma HandOutFree(h: Heap, h1: Heap, i: nat, x: Addr)
    requires LiveOk(h) && Sized(h1) && Disjoint(h1) && i <= POOLS
    requires Has(h1, i, x) && !Out(h, i, x) && SpanAt(h1, i, x) > 0 && SameElsewhere(h, h1, i, x)
    ensures x + Lead(i) !in h.live
  {
    SizedRoomy(h1);
    ClearOf(h, h1, i, x);
    NotHeld(h, h1, i, x);
  }

  /** A cell is handed out: what was promised is kept, and nobody held the pointer. */
  lemma HandOut(h: Heap, h1: Heap, i: nat, x: Addr, len: nat)
    requires LiveOk(h) && OutOk(h) && Sized(h1) && Disjoint(h1) && i == Home(len) && i <= POOLS && len > 0 && x > 0
    requires Out(h1, i, x) && !Out(h, i, x) && (i == POOLS ==> h1.big[x] == INFO + len)
    requires SameElsewhere(h, h1, i, x) && h1.live == h.live && h1.info == h.info
    ensures x + Lead(i) !in h.live
    ensures LiveOk(Handed(h1, x + Lead(i) - INFO, len)) && OutOk(Handed(h1, x + Lead(i) - INFO, len))
  {
    HandOutFree(h, h1, i, x);
    HandOutLive(h, h1, i, x, len);
    HandOutOnly(h, h1, i, x, len);
  }

  lemma ReplaceSized(h: Heap, i: nat, p': Pool)
    requires Sized(h) && i < POOLS && GoodPool(p', i)
    ensures Sized(h.(pools := h.pools[i := p']))
  {
    var h' := h.(pools := h.pools[i := p']);
    forall k | 0 <= k < POOLS
      ensures GoodPool(h'.pools[k], k)
    {
      assert k != i ==> GoodPool(h.pools[k], k);
    }
  }

  lemma PoolFresh(h: Heap, i: nat, base: Addr)
    requires |h.pools| == POOLS && i < POOLS
    requires h.pools[i].freelist == 0 ==> FreshFor(h, base, h.pools[i].growth * Span(h.pools[i]))
    ensures CanGet(h.pools[i], base)
  {
    var p := h.pools[i];
    if p.freelist == 0 {
      forall e | e in p.entry
        ensures Apart(base, p.growth * Span(p), e, Span(p))
      {
        assert Has(h, i, e);
      }
    }
  }

  /** The heap once the pool has given a block, and the cell it came from. */
  ghost function Taken(h: Heap, i: nat, base: Addr): (r: (Heap, Addr))
    requires i < |h.pools| && Get(h.pools[i], base).Some?
  {
    var (p', addr) := Get(h.pools[i], base).value;
    (h.(pools := h.pools[i := p']), if addr > HEADER then addr - HEADER else 0)
  }

  lemma TakenCells(h: Heap, i: nat, base: Addr)
    requires Sized(h) && Disjoint(h) && i < POOLS
    requires h.pools[i].freelist == 0 ==> FreshFor(h, base, h.pools[i].growth * Span(h.pools[i]))
    ensures Get(h.pools[i], base).Some?
    ensures Sized(Taken(h, i, base).0) && Disjoint(Taken(h, i, base).0)
  {
    PoolFresh(h, i, base);
    TakeGood(h.pools[i], i, base);
    var (p', addr) := Get(h.pools[i], base).value;
    TookDisjoint(h, i, p', base);
    ReplaceSized(h, i, p');
  }

  lemma CellTaken(h: Heap, i: nat, base: Addr)
    requires |h.pools| == POOLS && i < POOLS && Get(h.pools[i], base).Some? && Get(h.pools[i], base).value.1 > HEADER
    requires TookCell(h.pools[i], Get(h.pools[i], base).value.0, Get(h.pools[i], base).value.1 - HEADER)
    ensures var (h1, e) := Taken(h, i, base);
            e > 0 && Out(h1, i, e) && !Out(h, i, e) && SameElsewhere(h, h1, i, e)
  {
    var (p', addr) := Get(h.pools[i], base).value;
    TookElsewhere(h, i, p', addr - HEADER);
  }

  lemma TakenCell(h: Heap, i: nat, base: Addr)
    requires |h.pools| == POOLS && i < POOLS && GoodPool(h.pools[i], i) && CanGet(h.pools[i], base)
    ensures Get(h.pools[i], base).Some? && Get(h.pools[i], base).value.1 > HEADER
    ensures var (h1, e) := Taken(h, i, base);
            e > 0 && Out(h1, i, e) && !Out(h, i, e) && SameElsewhere(h, h1, i, e)
  {
    TakeGood(h.pools[i], i, base);
    CellTaken(h, i, base);
  }

  lemma TakenLive(h: Heap, len: nat, i: nat, base: Addr)
    requires Inv(h) && 0 < len <= POOLED_MAX && i == Class(len) && i < POOLS
    requires h.pools[i].freelist == 0 ==> FreshFor(h, base, h.pools[i].growth * Span(h.pools[i]))
    ensures Get(h.pools[i], base).Some?
    ensures var (h1, e) := Taken(h, i, base);
            && e + Lead(i) !in h.live
            && LiveOk(Handed(h1, e + HEADER, len)) && OutOk(Handed(h1, e + HEADER, len))
  {
    TakenCells(h, i, base);
    PoolFresh(h, i, base);
    TakenCell(h, i, base);
    var (h1, e) := Taken(h, i, base);
    HandOut(h, h1, i, e, len);
  }

  /** A block from a pool. */
  lemma MallocPooled(h: Heap, len: nat, i: nat, base: Addr)
    requires Inv(h) && 0 < len <= POOLED_MAX && i == Class(len) && i < POOLS
    requires h.pools[i].freelist == 0 ==> FreshFor(h, base, h.pools[i].growth * Span(h.pools[i]))
    ensures Get(h.pools[i], base).Some?
    ensures var (h1, e) := Taken(h, i, base);
            && Get(h.pools[i], base).value.1 == e + HEADER && e + Lead(i) !in h.live
            && Inv(Handed(h1, e + HEADER, len))
  {
    TakenLive(h, len, i, base);
    TakenCells(h, i, base);
    PoolFresh(h, i, base);
    TakenCell(h, i, base);
    var (h1, e) := Taken(h, i, base);
    HandedDisjoint(h1, e + HEADER, len);
  }

  /** A block of its own. */
  lemma MallocBig(h: Heap, len: nat, base: Addr)
    requires Inv(h) && len > POOLED_MAX && FreshFor(h, base, INFO + len)
    ensures base + INFO !in h.live && Inv(Handed(h.(big := h.big[base := INFO + len]), base, len))
  {
    var h1 := h.(big := h.big[base := INFO + len]);
    BigDisjoint(h, len, base);
    HandOut(h, h1, POOLS, base, len);
    HandedDisjoint(h1, base, len);
  }

  lemma BigDisjoint(h: Heap, len: nat, base: Addr)
    requires Sized(h) && Disjoint(h) && FreshFor(h, base, INFO + len) && len > 0
    ensures var h1 := h.(big := h.big[base := INFO + len]);
            Sized(h1) && Disjoint(h1) && SameElsewhere(h, h1, POOLS, base) && !Out(h, POOLS, base)
  {
    var h1 := h.(big := h.big[base := INFO + len]);
    assert !Has(h, POOLS, base) by {
      assert Has(h, POOLS, base) ==> Apart(base, INFO + len, base, SpanAt(h, POOLS, base));
    }
    forall a: nat, b: nat, x: Addr, y: Addr | Has(h1, a, x) && Has(h1, b, y) && !(a == b && x == y)
      ensures CellsApart(h1, a, x, b, y)
    {
      assert SpanAt(h1, a, x) == if a == POOLS && x == base then INFO + len else SpanAt(h, a, x);
      assert SpanAt(h1, b, y) == if b == POOLS && y == base then INFO + len else SpanAt(h, b, y);
      if Has(h, a, x) && Has(h, b, y) {
        assert CellsApart(h, a, x, b, y);
      }
    }
    forall a: nat, y: Addr | !(a == POOLS && y == base)
      ensures (Out(h1, a, y) <==> Out(h, a, y)) && (Out(h, a, y) ==> SameCell(h, h1, a, y))
    {
    }
  }

  ghost predicate Allocated(h: Heap, h': Heap, ptr: Addr, len: nat) {
    Inv(h') && ptr !in h.live && h'.mem == h.mem && h'.live == h.live[ptr := len]
  }

  lemma PooledKeeps(h: Heap, want: nat, base: Addr)
    requires Inv(h) && CanMalloc(h, want, base) && want <= POOLED_MAX
    ensures Malloc(h, want, base).Some?
    ensures Allocated(h, Malloc(h, want, base).value.0, Malloc(h, want, base).value.1, if want == 0 then 8 else want)
  {
    var len := if want == 0 then 8 else want;
    ClassSpec(len);
    MallocPooled(h, len, Class(len), base);
  }

  lemma BigKeeps(h: Heap, want: nat, base: Addr)
    requires Inv(h) && CanMalloc(h, want, base) && want > POOLED_MAX
    ensures Malloc(h, want, base).Some?
    ensures Allocated(h, Malloc(h, want, base).value.0, Malloc(h, want, base).value.1, want)
  {
    MallocBig(h, want, base);
  }

  /** Allocation never fails, hands out a pointer nobody holds and touches no octet. */
  lemma MallocKeeps(h: Heap, want: nat, base: Addr)
    requires Inv(h) && CanMalloc(h, want, base)
    ensures Malloc(h, want, base).Some?
    ensures Allocated(h, Malloc(h, want, base).value.0, Malloc(h, want, base).value.1, if want == 0 then 8 else want)
  {
    if want <= POOLED_MAX {
      PooledKeeps(h, want, base);
    } else {
      BigKeeps(h, want, base);
    }
  }

  // ---- Giving back ----

  /** What taking a block back does to a pool. */
  ghost predicate Gave(p: Pool, p': Pool, e: Addr) {
    && Span(p') == Span(p) && AllApart(p'.entry, Span(p)) && p'.entry.Keys == p.entry.Keys
    && (e in p'.entry ==> p'.entry[e].free)
    && (forall x :: x in p.entry && x != e ==> p'.entry[x] == p.entry[x])
  }

  /** The pool a block came from takes it back. */
  lemma GiveGood(p: Pool, i: nat, ptr: Addr)
    requires GoodPool(p, i) && ptr >= HEADER && ptr - HEADER in p.entry && !p.entry[ptr - HEADER].free
    ensures Put(p, ptr).Some? && GoodPool(Put(p, ptr).value, i) && Gave(p, Put(p, ptr).value, ptr - HEADER)
  {
    var list :| Valid(p, list);
    SealedKeeps(p, list, 0, ptr);
    PutKeeps(p, list, ptr);
    assert Valid(Put(p, ptr).value, [ptr - HEADER] + list);
  }

  /** The heap without the cell (i, e), which was at `ptr`. */
  ghost predicate Returned(h: Heap, h': Heap, i: nat, e: Addr, ptr: Addr) {
    && !Out(h', i, e) && SameElsewhere(h, h', i, e)
    && ptr == e + Lead(i) && h'.live == h.live - {ptr} && h'.info == h.info - {ptr - INFO}
  }

  lemma ReturnedLive(h: Heap, h': Heap, i: nat, e: Addr, ptr: Addr)
    requires LiveOk(h) && Returned(h, h', i, e, ptr)
    ensures LiveOk(h')
  {
    forall q | q in h'.live
      ensures LiveAt(h', q, h'.live[q], Home(h'.live[q]))
    {
      var j := Home(h.live[q]);
      assert LiveAt(h, q, h.live[q], j);
      assert SameCell(h, h', j, q - Lead(j));
      StaysLive(h, h', q, h.live[q], j);
    }
  }

  lemma ReturnedOnly(h: Heap, h': Heap, i: nat, e: Addr, ptr: Addr)
    requires OutOk(h) && Returned(h, h', i, e, ptr) && ptr in h.live && Home(h.live[ptr]) == i
    ensures OutOk(h')
  {
    forall a: nat, y: Addr | Out(h', a, y)
      ensures HeldAt(h', a, y)
    {
      assert SameCell(h, h', a, y) || (a == i && y == e);
      assert HeldAt(h, a, y);
    }
  }

  lemma GaveElsewhere(h: Heap, h': Heap, i: nat, p': Pool, e: Addr)
    requires |h.pools| == POOLS && i < POOLS && Gave(h.pools[i], p', e)
    requires h'.pools == h.pools[i := p'] && h'.big == h.big
    ensures SameElsewhere(h, h', i, e) && !Out(h', i, e)
  {
    forall a: nat, y: Addr | !(a == i && y == e)
      ensures (Out(h', a, y) <==> Out(h, a, y)) && (Out(h, a, y) ==> SameCell(h, h', a, y))
    {
    }
  }

  lemma SameDisjoint(h: Heap, h': Heap)
    requires Disjoint(h) && h'.pools == h.pools && h'.big == h.big
    ensures Disjoint(h')
  {
    forall a: nat, b: nat, y: Addr, z: Addr | Has(h', a, y) && Has(h', b, z) && !(a == b && y == z)
      ensures CellsApart(h', a, y, b, z)
    {
      assert Has(h, a, y) && Has(h, b, z);
      assert CellsApart(h, a, y, b, z);
    }
  }

  lemma GaveCells(h: Heap, h': Heap, i: nat, p': Pool, e: Addr)
    requires Sized(h) && Disjoint(h) && i < POOLS && Gave(h.pools[i], p', e) && GoodPool(p', i)
    requires h'.pools == h.pools[i := p'] && h'.big == h.big
    ensures Sized(h') && Disjoint(h')
  {
    ReplaceDisjoint(h, i, p');
    SameDisjoint(h.(pools := h.pools[i := p']), h');
  }

  lemma FreedPooled(h: Heap, h': Heap, ptr: Addr, len: nat, i: nat)
    requires Inv(h) && LiveAt(h, ptr, len, i) && i < POOLS
    requires Put(h.pools[i], ptr - INFO).Some? && h'.pools == h.pools[i := Put(h.pools[i], ptr - INFO).value] && h'.big == h.big
    ensures Sized(h') && Disjoint(h') && SameElsewhere(h, h', i, ptr - Lead(i)) && !Out(h', i, ptr - Lead(i))
  {
    GiveGood(h.pools[i], i, ptr - INFO);
    GaveCells(h, h', i, h'.pools[i], ptr - Lead(i));
    GaveElsewhere(h, h', i, h'.pools[i], ptr - Lead(i));
  }

  function Freed(h: Heap, ptr: Addr, i: nat, p': Pool): (h': Heap)
    requires i < |h.pools|
  {
    Heap(h.pools[i := p'], h.big, if ptr >= INFO then h.info - {ptr - INFO} else h.info, h.mem, h.live - {ptr})
  }

  lemma PutBack(h: Heap, ptr: Addr, len: nat, i: nat)
    requires Inv(h) && ptr in h.live && len == h.live[ptr] && LiveAt(h, ptr, len, i) && i < POOLS
    ensures Put(h.pools[i], ptr - INFO).Some? && Inv(Freed(h, ptr, i, Put(h.pools[i], ptr - INFO).value))
  {
    GiveGood(h.pools[i], i, ptr - INFO);
    var p' := Put(h.pools[i], ptr - INFO).value;
    FreedPooled(h, Freed(h, ptr, i, p'), ptr, len, i);
    FreedInv(h, ptr, len, i, p');
  }

  lemma FreedInv(h: Heap, ptr: Addr, len: nat, i: nat, p': Pool)
    requires |h.pools| == POOLS && LiveOk(h) && OutOk(h) && ptr in h.live && len == h.live[ptr] && LiveAt(h, ptr, len, i) && i < POOLS
    requires var h' := Freed(h, ptr, i, p');
             Sized(h') && Disjoint(h') && SameElsewhere(h, h', i, ptr - Lead(i)) && !Out(h', i, ptr - Lead(i))
    ensures Inv(Freed(h, ptr, i, p'))
  {
    var h' := Freed(h, ptr, i, p');
    ReturnedLive(h, h', i, ptr - Lead(i), ptr);
    ReturnedOnly(h, h', i, ptr - Lead(i), ptr);
  }

  /** The block is back where it came from: at the head of the free list of its pool, or unmapped. */
  ghost predicate BackHome(h: Heap, h': Heap, ptr: Addr, i: nat) {
    && |h'.pools| == |h.pools| && (forall j {:trigger h'.pools[j]} :: 0 <= j < |h.pools| && j != i ==> h'.pools[j] == h.pools[j])
    && (if i < POOLS then
          h'.big == h.big && ptr >= Lead(i) && Has(h', i, ptr - Lead(i)) && !Out(h', i, ptr - Lead(i))
          && h'.pools[i].freelist == ptr - Lead(i)
        else ptr >= INFO && h'.big == h.big - {ptr - INFO})
  }

  /** Freeing a pooled block. */
  lemma FreePooled(h: Heap, ptr: Addr, len: nat, i: nat)
    requires Inv(h) && ptr in h.live && len == h.live[ptr] && len <= POOLED_MAX && i == Home(len)
    ensures Free(h, ptr).Some? && Inv(Free(h, ptr).value)
    ensures Free(h, ptr).value.live == h.live - {ptr} && Free(h, ptr).value.mem == h.mem
    ensures BackHome(h, Free(h, ptr).value, ptr, i)
  {
    assert LiveAt(h, ptr, len, i);
    ClassSpec(len);
    PutBack(h, ptr, len, i);
    assert Free(h, ptr) == Some(Freed(h, ptr, i, Put(h.pools[i], ptr - INFO).value));
  }

  /** The lengths a big block has on record. */
  lemma BigLive(h: Heap, ptr: Addr, len: nat)
    requires LiveOk(h) && ptr in h.live && len == h.live[ptr] && len > POOLED_MAX
    ensures LiveAt(h, ptr, len, POOLS) && ptr > INFO && ptr - INFO in h.info && h.info[ptr - INFO] == len && ptr - INFO in h.big
  {
    assert LiveAt(h, ptr, h.live[ptr], Home(h.live[ptr]));
  }

  function Unmapped(h: Heap, ptr: Addr): (h': Heap)
    requires ptr >= INFO
  {
    Heap(h.pools, h.big - {ptr - INFO}, h.info - {ptr - INFO}, h.mem, h.live - {ptr})
  }

  lemma UnmapKeeps(h: Heap, ptr: Addr, len: nat)
    requires Inv(h) && ptr in h.live && len == h.live[ptr] && len > POOLED_MAX
    ensures ptr > INFO && Inv(Unmapped(h, ptr))
  {
    BigLive(h, ptr, len);
    var e, h' := ptr - INFO, Unmapped(h, ptr);
    UnmapCells(h, h', e);
    ReturnedLive(h, h', POOLS, e, ptr);
    ReturnedOnly(h, h', POOLS, e, ptr);
  }

  lemma FreeBig(h: Heap, ptr: Addr, len: nat)
    requires Inv(h) && ptr in h.live && len == h.live[ptr] && len > POOLED_MAX
    ensures Free(h, ptr).Some? && Inv(Free(h, ptr).value)
    ensures Free(h, ptr).value.live == h.live - {ptr} && Free(h, ptr).value.mem == h.mem
    ensures BackHome(h, Free(h, ptr).value, ptr, POOLS)
  {
    BigLive(h, ptr, len);
    UnmapKeeps(h, ptr, len);
    assert Free(h, ptr) == Some(Unmapped(h, ptr));
  }

  lemma UnmapCells(h: Heap, h': Heap, e: Addr)
    requires Sized(h) && Disjoint(h) && h'.pools == h.pools && h'.big == h.big - {e}
    ensures Sized(h') && Disjoint(h') && SameElsewhere(h, h', POOLS, e) && !Out(h', POOLS, e)
  {
    forall a: nat, b: nat, y: Addr, z: Addr | Has(h', a, y) && Has(h', b, z) && !(a == b && y == z)
      ensures CellsApart(h', a, y, b, z)
    {
      assert Has(h, a, y) && Has(h, b, z);
      assert CellsApart(h, a, y, b, z);
    }
    forall a: nat, y: Addr | !(a == POOLS && y == e)
      ensures (Out(h', a, y) <==> Out(h, a, y)) && (Out(h, a, y) ==> SameCell(h, h', a, y))
    {
    }
  }

  /** Any block that is held can be freed, and goes back where it came from. */
  lemma FreeKeeps(h: Heap, ptr: Addr)
    requires Inv(h) && ptr in h.live
    ensures Free(h, ptr).Some? && Inv(Free(h, ptr).value)
    ensures Free(h, ptr).value.live == h.live - {ptr} && Free(h, ptr).value.mem == h.mem
    ensures BackHome(h, Free(h, ptr).value, ptr, Home(h.live[ptr]))
  {
    if h.live[ptr] <= POOLED_MAX {
      FreePooled(h, ptr, h.live[ptr], Home(h.live[ptr]));
    } else {
      FreeBig(h, ptr, h.live[ptr]);
    }
  }

  // ---- Contents ----

  lemma {:induction false} CopySpec(mem: map<Addr, byte>, dst: Addr, src: Addr, n: nat, a: Addr)
    ensures Read(Copy(mem, dst, src, n), a) == if dst <= a < dst + n then Read(mem, src + (a - dst)) else Read(mem, a)
  {
    if n > 0 {
      CopySpec(mem, dst, src, n - 1, a);
    }
  }

  lemma {:induction false} ZeroedSpec(mem: map<Addr, byte>, at: Addr, n: nat, a: Addr)
    ensures Read(Zeroed(mem, at, n), a) == if at <= a < at + n then 0 else Read(mem, a)
  {
    if n > 0 {
      ZeroedSpec(mem, at, n - 1, a);
    }
  }

  /** The octets of held blocks do not overlap. */
  lemma RangesApart(h: Heap, p: Addr, q: Addr)
    requires Sized(h) && Disjoint(h) && LiveOk(h) && p in h.live && q in h.live && p != q
    ensures Apart(p, h.live[p], q, h.live[q])
  {
    var i, j := Home(h.live[p]), Home(h.live[q]);
    LiveApart(h, p, i, q, j);
    LiveInside(h, p, i);
    LiveInside(h, q, j);
  }

  function At(mem: map<Addr, byte>, p: Addr, k: nat): (b: byte) {
    Read(mem, p + k)
  }

  /** The same octets in a block of `n`. */
  ghost predicate SameOctets(mem: map<Addr, byte>, p: Addr, mem': map<Addr, byte>, q: Addr, n: nat) {
    forall k: nat :: k < n ==> At(mem', q, k) == At(mem, p, k)
  }

  lemma {:induction false} MovedOctets(mem: map<Addr, byte>, ptr: Addr, was: nat, nptr: Addr, len: nat, n: nat)
    requires Apart(ptr, was, nptr, len) && n <= was && n <= len
    ensures SameOctets(mem, ptr, Zeroed(Copy(mem, nptr, ptr, n), ptr, was), nptr, n)
  {
    forall k: nat | k < n
      ensures At(Zeroed(Copy(mem, nptr, ptr, n), ptr, was), nptr, k) == At(mem, ptr, k)
    {
      ZeroedSpec(Copy(mem, nptr, ptr, n), ptr, was, nptr + k);
      CopySpec(mem, nptr, ptr, n, nptr + k);
    }
  }

  lemma {:induction false} OtherOctets(mem: map<Addr, byte>, ptr: Addr, was: nat, nptr: Addr, len: nat, n: nat, q: Addr, m: nat)
    requires Apart(ptr, was, q, m) && Apart(nptr, len, q, m) && n <= len
    ensures SameOctets(mem, q, Zeroed(Copy(mem, nptr, ptr, n), ptr, was), q, m)
  {
    forall k: nat | k < m
      ensures At(Zeroed(Copy(mem, nptr, ptr, n), ptr, was), q, k) == At(mem, q, k)
    {
      ZeroedSpec(Copy(mem, nptr, ptr, n), ptr, was, q + k);
      CopySpec(mem, nptr, ptr, n, q + k);
    }
  }

  lemma MemFrame(h: Heap, mem: map<Addr, byte>)
    requires Inv(h)
    ensures Inv(h.(mem := mem))
  {
    var h' := h.(mem := mem);
    SameDisjoint(h, h');
    forall q | q in h'.live
      ensures LiveAt(h', q, h'.live[q], Home(h'.live[q]))
    {
      assert LiveAt(h, q, h.live[q], Home(h.live[q]));
    }
    forall a: nat, y: Addr | Out(h', a, y)
      ensures HeldAt(h', a, y)
    {
      assert Out(h, a, y);
      assert HeldAt(h, a, y);
    }
  }

  function Asked(want: nat): (n: nat) {
    if want == 0 then 8 else want
  }

  /** The block has moved: its octets up to the shorter length are at the new pointer, and every other block
      has its own. */
  ghost predicate Moved(h: Heap, h': Heap, ptr: Addr, nptr: Addr, len: nat)
    requires ptr in h.live
  {
    && Inv(h') && nptr !in h.live && h'.live == h.live[nptr := Asked(len)] - {ptr}
    && SameOctets(h.mem, ptr, h'.mem, nptr, Least(len, h.live[ptr]))
    && (forall q :: q in h.live && q != ptr ==> SameOctets(h.mem, q, h'.mem, q, h.live[q]))
    && Wiped(h'.mem, ptr, h.live[ptr])
  }

  /** Nothing of a block is left in memory. */
  ghost predicate Wiped(mem: map<Addr, byte>, p: Addr, n: nat) {
    forall k: nat :: k < n ==> At(mem, p, k) == 0
  }

  lemma ZeroedWipes(mem: map<Addr, byte>, p: Addr, n: nat)
    ensures Wiped(Zeroed(mem, p, n), p, n)
  {
    forall k: nat | k < n
      ensures At(Zeroed(mem, p, n), p, k) == 0
    {
      ZeroedSpec(mem, p, n, p + k);
    }
  }

  lemma {:induction false} MoveOctets(h: Heap, h1: Heap, ptr: Addr, nptr: Addr, len: nat, mem: map<Addr, byte>)
    requires Inv(h1) && ptr in h.live && nptr !in h.live && h1.live == h.live[nptr := Asked(len)]
    requires mem == Zeroed(Copy(h.mem, nptr, ptr, Least(len, h.live[ptr])), ptr, h.live[ptr])
    ensures SameOctets(h.mem, ptr, mem, nptr, Least(len, h.live[ptr]))
    ensures forall q :: q in h.live && q != ptr ==> SameOctets(h.mem, q, mem, q, h.live[q])
  {
    var was, n := h.live[ptr], Least(len, h.live[ptr]);
    RangesApart(h1, ptr, nptr);
    MovedOctets(h.mem, ptr, was, nptr, Asked(len), n);
    forall q | q in h.live && q != ptr
      ensures SameOctets(h.mem, q, mem, q, h.live[q])
    {
      RangesApart(h1, ptr, q);
      RangesApart(h1, nptr, q);
      OtherOctets(h.mem, ptr, was, nptr, Asked(len), n, q, h.live[q]);
    }
  }

  /** `kore_realloc` of a held block never fails; it keeps the pointer exactly if the length is unchanged. */
  lemma ReallocKeeps(h: Heap, ptr: Addr, len: nat, base: Addr)
    requires Inv(h) && ptr in h.live && CanMalloc(h, len, base)
    ensures Realloc(h, ptr, len, base).Some?
    ensures var (h', nptr) := Realloc(h, ptr, len, base).value;
            if len == h.live[ptr] then h' == h && nptr == ptr else Moved(h, h', ptr, nptr, len)
  {
    assert LiveAt(h, ptr, h.live[ptr], Home(h.live[ptr]));
    if len != h.live[ptr] {
      ReallocMoves(h, ptr, len, base);
    }
  }

  lemma ReallocMoves(h: Heap, ptr: Addr, len: nat, base: Addr)
    requires Inv(h) && ptr in h.live && CanMalloc(h, len, base) && len != h.live[ptr]
    requires ptr > INFO && ptr - INFO in h.info && h.info[ptr - INFO] == h.live[ptr]
    ensures Realloc(h, ptr, len, base).Some?
    ensures Moved(h, Realloc(h, ptr, len, base).value.0, ptr, Realloc(h, ptr, len, base).value.1, len)
  {
    MallocKeeps(h, len, base);
    var (h1, nptr) := Malloc(h, len, base).value;
    var mem := Zeroed(Copy(h1.mem, nptr, ptr, Least(len, h.live[ptr])), ptr, h.live[ptr]);
    MoveOctets(h, h1, ptr, nptr, len, mem);
    ZeroedWipes(Copy(h1.mem, nptr, ptr, Least(len, h.live[ptr])), ptr, h.live[ptr]);
    MemFrame(h1, mem);
    FreeKeeps(h1.(mem := mem), ptr);
  }

  // ---- Runs ----

  datatype Step =
    | DoMalloc(want: nat, base: Addr)
    | DoFree(ptr: Addr)
    | DoRealloc(ptr: Addr, len: nat, base: Addr)
    | DoWrite(ptr: Addr, off: nat, b: byte)

  /** Callers free, resize and write what they hold, or free and resize NULL; mappings are fresh. */
  ghost predicate Allowed(h: Heap, step: Step) {
    match step
    case DoMalloc(want, base) => CanMalloc(h, want, base)
    case DoFree(ptr) => ptr == 0 || ptr in h.live
    case DoRealloc(ptr, len, base) => (ptr == 0 || ptr in h.live) && CanMalloc(h, len, base)
    case DoWrite(ptr, off, b) => ptr in h.live && off < h.live[ptr]
  }

  /** None where the source would stop with a fatal error. */
  function Apply(h: Heap, step: Step): (r: Option<Heap>)
    requires |h.pools| == POOLS
  {
    match step
    case DoMalloc(want, base) =>
      (match Malloc(h, want, base)
       case None => None
       case Some((h', ptr)) => Some(h'))
    case DoFree(ptr) => Free(h, ptr)
    case DoRealloc(ptr, len, base) =>
      (match Realloc(h, ptr, len, base)
       case None => None
       case Some((h', nptr)) => Some(h'))
    case DoWrite(ptr, off, b) => Some(h.(mem := h.mem[ptr + off := b]))
  }

  /** `h'` is where the steps lead, each allowed where it is taken and none of them fatal. */
  ghost predicate Leads(h: Heap, steps: seq<Step>, h': Heap)
    decreases |steps|
  {
    if steps == [] then h' == h
    else |h.pools| == POOLS && Allowed(h, steps[0]) && Apply(h, steps[0]).Some? && Leads(Apply(h, steps[0]).value, steps[1..], h')
  }

  predicate Touches(step: Step, p: Addr) {
    match step
    case DoMalloc(_, _) => false
    case DoFree(ptr) => ptr == p
    case DoRealloc(ptr, _, _) => ptr == p
    case DoWrite(ptr, _, _) => ptr == p
  }

  /** A block that is still held, with its octets. */
  ghost predicate Untouched(h: Heap, h': Heap, p: Addr) {
    p in h.live && p in h'.live && h'.live[p] == h.live[p] && SameOctets(h.mem, p, h'.mem, p, h.live[p])
  }

  ghost predicate StepOk(h: Heap, step: Step)
    requires |h.pools| == POOLS
  {
    Apply(h, step).Some? && Inv(Apply(h, step).value)
  }

  lemma MallocStep(h: Heap, want: nat, base: Addr)
    requires Inv(h) && CanMalloc(h, want, base)
    ensures StepOk(h, DoMalloc(want, base))
  {
    MallocKeeps(h, want, base);
  }

  lemma FreeStep(h: Heap, ptr: Addr)
    requires Inv(h) && (ptr == 0 || ptr in h.live)
    ensures StepOk(h, DoFree(ptr))
  {
    if ptr != 0 {
      FreeKeeps(h, ptr);
    }
  }

  lemma ReallocStep(h: Heap, ptr: Addr, len: nat, base: Addr)
    requires Inv(h) && (ptr == 0 || ptr in h.live) && CanMalloc(h, len, base)
    ensures StepOk(h, DoRealloc(ptr, len, base))
  {
    if ptr == 0 {
      MallocKeeps(h, len, base);
    } else {
      ReallocKeeps(h, ptr, len, base);
    }
  }

  /** No allowed step is fatal, and each keeps the invariant. */
  lemma StepKeeps(h: Heap, step: Step)
    requires Inv(h) && Allowed(h, step)
    ensures StepOk(h, step)
  {
    match step
    case DoMalloc(want, base) => MallocStep(h, want, base);
    case DoFree(ptr) => FreeStep(h, ptr);
    case DoRealloc(ptr, len, base) => ReallocStep(h, ptr, len, base);
    case DoWrite(ptr, off, b) => MemFrame(h, h.mem[ptr + off := b]);
  }

  lemma StepSpares(h: Heap, step: Step, p: Addr)
    requires Inv(h) && Allowed(h, step) && p in h.live && !Touches(step, p)
    ensures Apply(h, step).Some? && Untouched(h, Apply(h, step).value, p)
  {
    match step
    case DoMalloc(want, base) => MallocKeeps(h, want, base);
    case DoFree(ptr) =>
      if ptr != 0 {
        FreeKeeps(h, ptr);
      }
    case DoRealloc(ptr, len, base) =>
      if ptr == 0 {
        MallocKeeps(h, len, base);
      } else {
        ReallocKeeps(h, ptr, len, base);
      }
    case DoWrite(ptr, off, b) => RangesApart(h, ptr, p);
  }

  /** Over every run of allowed steps the invariant holds. */
  lemma {:induction false} RunKeeps(h: Heap, steps: seq<Step>, h': Heap)
    requires Inv(h) && Leads(h, steps, h')
    ensures Inv(h')
    decreases |steps|
  {
    if steps != [] {
      StepKeeps(h, steps[0]);
      RunKeeps(Apply(h, steps[0]).value, steps[1..], h');
    }
  }

  /** Over every run, a block nobody frees, resizes or writes is still there, octet for octet. */
  lemma {:induction false} RunSpares(h: Heap, steps: seq<Step>, h': Heap, p: Addr)
    requires Inv(h) && Leads(h, steps, h') && p in h.live
    requires forall i :: 0 <= i < |steps| ==> !Touches(steps[i], p)
    ensures Untouched(h, h', p)
    decreases |steps|
  {
    if steps != [] {
      var h1 := Apply(h, steps[0]).value;
      StepKeeps(h, steps[0]);
      StepSpares(h, steps[0], p);
      RunSpares(h1, steps[1..], h', p);
      SpareTwice(h, h1, h', p);
    }
  }

  lemma SpareTwice(h: Heap, h1: Heap, h2: Heap, p: Addr)
    requires Untouched(h, h1, p) && Untouched(h1, h2, p)
    ensures Untouched(h, h2, p)
  {
    forall k: nat | k < h.live[p]
      ensures At(h2.mem, p, k) == At(h.mem, p, k)
    {
      assert At(h1.mem, p, k) == At(h.mem, p, k);
    }
  }

  // ---- Starting ----

  /** As many blocks of class `i` as fit in the preallocated room, which halves as they double. */
  function Fit(i: nat): (n: nat) {
    if i == 0 then PREALLOC / 8 else Fit(i - 1) / 2
  }

  function FirstPool(i: nat, canary: nat, base: Addr): (p: Pool) {
    Init(INFO + BlockSize(i), Fit(i), canary, base)
  }

  /** The size of the region a new pool is given. */
  function Room(i: nat): (n: nat) {
    Elements(Fit(i)) * Span(Bare(INFO + BlockSize(i), Fit(i), 0))
  }

  lemma SameRoom(len: nat, elm: nat, canary: nat)
    ensures Elements(elm) * Span(Bare(len, elm, canary)) == Elements(elm) * Span(Bare(len, elm, 0))
  {
    assert Span(Bare(len, elm, canary)) == Span(Bare(len, elm, 0));
  }

  lemma InitGood(len: nat, elm: nat, canary: nat, base: Addr, room: nat)
    requires base != 0 && room == Elements(elm) * Span(Bare(len, elm, canary))
    ensures exists list :: Valid(Init(len, elm, canary, base), list)
    ensures Within(Init(len, elm, canary, base), base, room)
  {
    var p, n := Bare(len, elm, canary), Elements(elm);
    BareGood(p, n, base);
    assert Valid(Init(len, elm, canary, base), Places(Span(p), base, n));
  }

  ghost predicate NewPool(p: Pool, i: nat, base: Addr) {
    GoodPool(p, i) && Within(p, base, Room(i))
  }

  /** A new pool is all free and lies in its region. */
  lemma FirstGood(i: nat, canary: nat, base: Addr)
    requires base != 0
    ensures NewPool(FirstPool(i, canary, base), i, base)
  {
    SameRoom(INFO + BlockSize(i), Fit(i), canary);
    InitGood(INFO + BlockSize(i), Fit(i), canary, base, Room(i));
  }

  /** Eleven regions, not overlapping. */
  ghost predicate Regions(bases: seq<Addr>) {
    && |bases| == POOLS
    && (forall i :: 0 <= i < POOLS ==> bases[i] != 0)
    && forall i, j :: 0 <= i < POOLS && 0 <= j < POOLS && i != j ==> Apart(bases[i], Room(i), bases[j], Room(j))
  }

  ghost predicate Starts(h: Heap, bases: seq<Addr>)
    requires |bases| == POOLS
  {
    && |h.pools| == POOLS
    && (forall i {:trigger NewPool(h.pools[i], i, bases[i])} :: 0 <= i < POOLS ==> NewPool(h.pools[i], i, bases[i]))
    && h.big == map[] && h.live == map[]
  }

  lemma StartApart(h: Heap, bases: seq<Addr>, a: nat, b: nat, x: Addr, y: Addr)
    requires Regions(bases) && Starts(h, bases)
    requires Has(h, a, x) && Has(h, b, y) && !(a == b && x == y)
    ensures CellsApart(h, a, x, b, y)
  {
    assert NewPool(h.pools[a], a, bases[a]) && NewPool(h.pools[b], b, bases[b]);
    if a == b {
      assert GoodPool(h.pools[a], a);
    } else {
      assert Apart(bases[a], Room(a), bases[b], Room(b));
    }
  }

  /** `kore_mem_init` leaves nothing out and nothing overlapping. */
  lemma InitKeeps(h: Heap, bases: seq<Addr>)
    requires Regions(bases) && Starts(h, bases)
    ensures Inv(h)
  {
    forall a: nat, b: nat, x: Addr, y: Addr | Has(h, a, x) && Has(h, b, y) && !(a == b && x == y)
      ensures CellsApart(h, a, x, b, y)
    {
      StartApart(h, bases, a, b, x, y);
    }
    forall i: nat, x: Addr
      ensures !Out(h, i, x)
    {
      if i < POOLS {
        assert NewPool(h.pools[i], i, bases[i]);
      }
    }
    forall i | 0 <= i < POOLS
      ensures GoodPool(h.pools[i], i)
    {
      assert NewPool(h.pools[i], i, bases[i]);
    }
  }

  // ---- The allocator, in place ----

  /** `kore_mem_zero` */
  method Zero(mem: map<Addr, byte>, ptr: Addr, len: nat) returns (m: map<Addr, byte>)
    ensures m == Zeroed(mem, ptr, len)
  {
    m := mem;
    for i := 0 to len
      invariant m == Zeroed(mem, ptr, i)
    {
      m := m[ptr + i := 0];
    }
  }

  lemma NewPools(pools: seq<Pool>, p: Pool, bases: seq<Addr>)
    requires |pools| < |bases| && NewPool(p, |pools|, bases[|pools|])
    requires forall k {:trigger NewPool(pools[k], k, bases[k])} :: 0 <= k < |pools| ==> NewPool(pools[k], k, bases[k])
    ensures var more := pools + [p];
            forall k {:trigger NewPool(more[k], k, bases[k])} :: 0 <= k < |more| ==> NewPool(more[k], k, bases[k])
  {
    var more := pools + [p];
    forall k | 0 <= k < |more|
      ensures NewPool(more[k], k, bases[k])
    {
      if k < |pools| {
        assert NewPool(pools[k], k, bases[k]);
      }
    }
  }

  /** The loop of `kore_mem_init`. */
  method FirstPools(bases: seq<Addr>, canaries: seq<nat>) returns (pools: seq<Pool>)
    requires Regions(bases) && |canaries| == POOLS
    ensures |pools| == POOLS
    ensures forall k {:trigger NewPool(pools[k], k, bases[k])} :: 0 <= k < POOLS ==> NewPool(pools[k], k, bases[k])
  {
    pools := [];
    for i := 0 to POOLS
      invariant |pools| == i
      invariant forall k {:trigger NewPool(pools[k], k, bases[k])} :: 0 <= k < i ==> NewPool(pools[k], k, bases[k])
    {
      var p := FirstPool(i, canaries[i], bases[i]);
      FirstGood(i, canaries[i], bases[i]);
      NewPools(pools, p, bases);
      pools := pools + [p];
    }
  }

  class Allocator {
    var h: Heap

    /** `kore_mem_init` */
    constructor (bases: seq<Addr>, canaries: seq<nat>)
      requires Regions(bases) && |canaries| == POOLS
      ensures Inv(h) && h.live == map[]
    {
      var pools := FirstPools(bases, canaries);
      var start := Heap(pools, map[], map[], map[], map[]);
      InitKeeps(start, bases);
      h := start;
    }

    /** `mem_alloc` */
    method Alloc(want: nat, base: Addr) returns (ptr: Addr)
      requires Inv(h) && CanMalloc(h, want, base)
      modifies this
      ensures Malloc(old(h), want, base) == Some((h, ptr)) && Allocated(old(h), h, ptr, Asked(want))
    {
      MallocKeeps(h, want, base);
      var len, addr := if want == 0 then 8 else want, base;
      if len <= POOLED_MAX {
        var idx := MemIndex(len);
        var taken := Get(h.pools[idx], base);
        addr := taken.value.1;
        h := h.(pools := h.pools[idx := taken.value.0]);
      } else {
        h := h.(big := h.big[base := INFO + len]);
      }
      h := Handed(h, addr, len);
      ptr := addr + INFO;
    }

    /** `kore_free` of NULL or a held block. */
    method Release(ptr: Addr)
      requires Inv(h) && (ptr == 0 || ptr in h.live)
      modifies this
      ensures Free(old(h), ptr) == Some(h) && Inv(h) && h.mem == old(h.mem)
      ensures if ptr == 0 then h == old(h) else h.live == old(h.live) - {ptr} && BackHome(old(h), h, ptr, Home(old(h.live[ptr])))
    {
      if ptr == 0 {
        return;
      }
      FreeKeeps(h, ptr);
      assert LiveAt(h, ptr, h.live[ptr], Home(h.live[ptr]));
      var addr, len := ptr - INFO, h.info[ptr - INFO];
      if len <= POOLED_MAX {
        var idx := MemIndex(len);
        h := h.(pools := h.pools[idx := Put(h.pools[idx], addr).value]);
      } else {
        h := h.(big := h.big - {addr});
      }
      h := h.(info := h.info - {addr}, live := h.live - {ptr});
    }

    /** `kore_realloc` of NULL or a held block. */
    method Resize(ptr: Addr, len: nat, base: Addr) returns (nptr: Addr)
      requires Inv(h) && (ptr == 0 || ptr in h.live) && CanMalloc(h, len, base)
      modifies this
      ensures Realloc(old(h), ptr, len, base) == Some((h, nptr))
      ensures ptr == 0 ==> Allocated(old(h), h, nptr, Asked(len))
      ensures ptr != 0 ==> if len == old(h.live[ptr]) then h == old(h) && nptr == ptr else Moved(old(h), h, ptr, nptr, len)
    {
      if ptr == 0 {
        nptr := Alloc(len, base);
        return;
      }
      ReallocKeeps(h, ptr, len, base);
      assert LiveAt(h, ptr, h.live[ptr], Home(h.live[ptr]));
      var was := h.info[ptr - INFO];
      if len == was {
        return ptr;
      }
      nptr := Alloc(len, base);
      var m := Zero(Copy(h.mem, nptr, ptr, Least(len, was)), ptr, was);
      MemFrame(h, m);
      h := h.(mem := m);
      Release(ptr);
    }
  }
}
