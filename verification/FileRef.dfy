/** `fileref.c`: a cache of open files with reference counts, soft removal and expiry. */
module FileRef {
  import opened Bytes
  import opened Lists

  const EXPIRATION: nat := 30000      // FILEREF_EXPIRATION

  type Id = nat                       // a `struct kore_fileref` in the pool
  datatype Key = Key(path: string, ontls: bool)

  datatype Ref = Ref(key: Key, mtime: nat, cnt: int, softRemoved: bool, expiration: nat)

  /** The cache, and the references its callers hold. */
  datatype Cache = Cache(
    list: seq<Id>,                    // `refs`
    ref: map<Id, Ref>,                // those not returned to the pool
    primed: bool,                     // `ref_timer != NULL`
    held: multiset<Id>)

  const EMPTY: Cache := Cache([], map[], false, multiset{})

  // ---- The operations ----

  /** `fileref_drop` */
  function Drop(c: Cache, id: Id): (c': Cache) {
    if id !in c.ref then c
    else c.(list := if c.ref[id].softRemoved then c.list else Without(c.list, id), ref := c.ref - {id})
  }

  /** `fileref_soft_remove` */
  function SoftRemove(c: Cache, id: Id): (c': Cache) {
    if id !in c.ref || c.ref[id].softRemoved then c
    else
      var c1 := c.(list := Without(c.list, id), ref := c.ref[id := c.ref[id].(softRemoved := true)]);
      if c.ref[id].cnt == 0 then Drop(c1, id) else c1
  }

  /** The first reference on the list for a key. */
  function Lookup(c: Cache, ids: seq<Id>, key: Key): (r: Option<Id>) {
    if ids == [] then None
    else if ids[0] in c.ref && c.ref[ids[0]].key == key then Some(ids[0])
    else Lookup(c, ids[1..], key)
  }

  /** `kore_fileref_get`; `stat` is the modification time of the file now, if it exists. */
  function Get(c: Cache, key: Key, stat: Option<nat>): (r: (Cache, Option<Id>)) {
    match Lookup(c, c.list, key)
    case None => (c, None)
    case Some(id) =>
      if id !in c.ref then (c, None)
      else if stat.None? || stat.value != c.ref[id].mtime then (SoftRemove(c, id), None)
      else (Touched(c, id), Some(id))
  }

  /** One more hold, and the reference moves to the front. */
  function Touched(c: Cache, id: Id): (c': Cache)
    requires id in c.ref
  {
    Cache([id] + Without(c.list, id), c.ref[id := c.ref[id].(cnt := c.ref[id].cnt + 1)], c.primed, c.held + multiset{id})
  }

  function Insert(c: Cache, key: Key, id: Id, mtime: nat): (c': Cache) {
    Cache(c.list + [id], c.ref[id := Ref(key, mtime, 1, false, 0)], c.primed, c.held + multiset{id})
  }

  /** `kore_fileref_create`; `id` is what the pool hands out, `tooBig` a file that cannot be mapped. */
  function Create(c: Cache, key: Key, stat: Option<nat>, id: Id, mtime: nat, tooBig: bool): (r: (Cache, Option<Id>)) {
    var (c1, found) := Get(c.(primed := true), key, stat);
    if found.Some? then (c1, found)
    else if tooBig || id in c1.ref then (c1, None)
    else (Insert(c1, key, id, mtime), Some(id))
  }

  /** `kore_fileref_release` by a caller that holds `id`. */
  function Release(c: Cache, id: Id, now: nat): (c': Cache) {
    if id !in c.held || id !in c.ref then c
    else
      var r := c.ref[id].(cnt := c.ref[id].cnt - 1);
      var c1 := c.(ref := c.ref[id := r], held := c.held - multiset{id});
      if r.cnt != 0 then c1
      else if r.softRemoved then Drop(c1, id)
      else c1.(ref := c1.ref[id := r.(expiration := now + EXPIRATION)])
  }

  predicate Expired(r: Ref, now: nat) {
    r.cnt == 0 && r.expiration <= now
  }

  /** The walk of `fileref_expiration_check`. */
  function Sweep(c: Cache, ids: seq<Id>, now: nat): (c': Cache)
    decreases |ids|
  {
    if ids == [] then c
    else Sweep(if ids[0] in c.ref && Expired(c.ref[ids[0]], now) then Drop(c, ids[0]) else c, ids[1..], now)
  }

  /** `fileref_expiration_check` */
  function Tick(c: Cache, now: nat): (c': Cache) {
    var c1 := Sweep(c, c.list, now);
    if c1.list == [] then c1.(primed := false) else c1
  }

  // ---- Invariant ----

  predicate Live(c: Cache, id: Id) {
    id in c.ref && !c.ref[id].softRemoved
  }

  /** Every count is the number of holds, and nothing that is held has been dropped. */
  ghost predicate Counted(c: Cache) {
    forall id :: c.held[id] == if id in c.ref then c.ref[id].cnt else 0
  }

  /** What is soft-removed is still held: it went with its last hold otherwise. */
  ghost predicate Lingering(c: Cache) {
    forall id :: id in c.ref && c.ref[id].softRemoved ==> c.ref[id].cnt > 0
  }

  /** The list has the references that are not soft-removed, each once. */
  ghost predicate Listed(c: Cache) {
    Distinct(c.list) && forall id :: id in c.list <==> Live(c, id)
  }

  ghost predicate OnePerKey(c: Cache) {
    forall x, y :: Live(c, x) && Live(c, y) && c.ref[x].key == c.ref[y].key ==> x == y
  }

  ghost predicate Inv(c: Cache) {
    && Counted(c) && Lingering(c) && Listed(c) && OnePerKey(c)
    && (c.list != [] ==> c.primed)
  }

  lemma {:induction false} LookupSpec(c: Cache, ids: seq<Id>, key: Key)
    ensures match Lookup(c, ids, key)
            case Some(id) => id in ids && id in c.ref && c.ref[id].key == key
            case None => forall id :: id in ids && id in c.ref ==> c.ref[id].key != key
    decreases |ids|
  {
    if ids != [] {
      LookupSpec(c, ids[1..], key);
    }
  }

  lemma DropKeeps(c: Cache, id: Id)
    requires Inv(c) && id in c.ref && c.ref[id].cnt == 0
    ensures Inv(Drop(c, id)) && id !in Drop(c, id).ref
    ensures forall x :: x != id ==> (x in Drop(c, id).ref <==> x in c.ref) && (x in c.ref ==> Drop(c, id).ref[x] == c.ref[x])
  {
    WithoutSpec(c.list, id);
  }

  lemma SoftRemoveKeeps(c: Cache, id: Id)
    requires Inv(c) && id in c.list
    ensures Inv(SoftRemove(c, id)) && id !in SoftRemove(c, id).list
    ensures forall x :: Live(SoftRemove(c, id), x) ==> x != id && Live(c, x) && SoftRemove(c, id).ref[x] == c.ref[x]
  {
    assert Live(c, id);
    WithoutSpec(c.list, id);
    var c' := SoftRemove(c, id);
    if c.ref[id].cnt == 0 {
      DropKeeps(c, id);
      assert c' == Drop(c, id);
    } else {
      assert forall x :: Live(c', x) <==> Live(c, x) && x != id;
    }
  }

  /** A lookup that succeeds is a hold on the one current reference for the key; one that fails leaves no
      reference for it on the list. */
  lemma GetKeeps(c: Cache, key: Key, stat: Option<nat>)
    requires Inv(c)
    ensures var (c', r) := Get(c, key, stat);
            && Inv(c') && c'.primed == c.primed
            && (r.Some? ==> c'.list != [] && c'.list[0] == r.value)
            && (r.Some? ==> r.value in c'.list && c'.ref[r.value].key == key && stat == Some(c'.ref[r.value].mtime) && c'.held == c.held + multiset{r.value})
            && (r.None? ==> c'.held == c.held && forall id :: Live(c', id) ==> c'.ref[id].key != key)
  {
    LookupSpec(c, c.list, key);
    match Lookup(c, c.list, key)
    case None =>
    case Some(id) =>
      if stat.None? || stat.value != c.ref[id].mtime {
        SoftRemoveKeeps(c, id);
        assert Live(c, id);
      } else {
        FoundKeeps(c, id);
      }
  }

  lemma FoundKeeps(c: Cache, id: Id)
    requires Inv(c) && id in c.list && id in c.ref
    ensures Inv(Touched(c, id))
  {
    WithoutSpec(c.list, id);
    assert Distinct([id] + Without(c.list, id));
    assert forall x :: Live(Touched(c, id), x) <==> Live(c, x);
  }

  lemma InsertKeeps(c: Cache, key: Key, id: Id, mtime: nat)
    requires Inv(c) && c.primed && id !in c.ref
    requires forall x :: Live(c, x) ==> c.ref[x].key != key
    ensures Inv(Insert(c, key, id, mtime))
  {
    var c' := Insert(c, key, id, mtime);
    assert id !in c.list;
    assert Distinct(c'.list);
  }

  lemma CreateKeeps(c: Cache, key: Key, stat: Option<nat>, id: Id, mtime: nat, tooBig: bool)
    requires Inv(c)
    ensures Inv(Create(c, key, stat, id, mtime, tooBig).0)
  {
    GetKeeps(c.(primed := true), key, stat);
    var (c1, found) := Get(c.(primed := true), key, stat);
    if found.None? && !tooBig && id !in c1.ref {
      InsertKeeps(c1, key, id, mtime);
    }
  }

  /** The last release of a soft-removed reference frees it, no other does. */
  lemma {:induction false} ReleaseFrees(c: Cache, id: Id, now: nat)
    requires Counted(c) && id in c.held
    ensures var c' := Release(c, id, now);
            && c'.list == (if id in c'.ref || c.ref[id].softRemoved then c.list else Without(c.list, id))
            && c'.held == c.held - multiset{id} && c'.primed == c.primed
            && (id !in c'.ref <==> c.ref[id].softRemoved && c.held[id] == 1)
            && (id in c'.ref ==> c'.ref[id].cnt == c.held[id] - 1 && c'.ref[id].key == c.ref[id].key && c'.ref[id].softRemoved == c.ref[id].softRemoved)
            && (id in c'.ref ==> c'.ref[id].mtime == c.ref[id].mtime)
            && (id in c'.ref ==> c'.ref[id].expiration == if c.held[id] == 1 then now + 30000 else c.ref[id].expiration)
            && (forall x :: x != id ==> (x in c'.ref <==> x in c.ref) && (x in c.ref ==> c'.ref[x] == c.ref[x]))
  {
    assert c.held[id] == c.ref[id].cnt;
  }

  lemma ReleaseKeeps(c: Cache, id: Id, now: nat)
    requires Inv(c) && id in c.held
    ensures Inv(Release(c, id, now))
  {
    ReleaseFrees(c, id, now);
    var c' := Release(c, id, now);
    assert forall x :: Live(c', x) <==> Live(c, x);
  }

  lemma {:induction false} SweepKeeps(c: Cache, ids: seq<Id>, now: nat)
    requires Inv(c)
    ensures Inv(Sweep(c, ids, now)) && Sweep(c, ids, now).primed == c.primed && Sweep(c, ids, now).held == c.held
    ensures forall id :: id in Sweep(c, ids, now).ref <==> id in c.ref && !(id in ids && Expired(c.ref[id], now))
    ensures forall id :: id in Sweep(c, ids, now).ref ==> Sweep(c, ids, now).ref[id] == c.ref[id]
    decreases |ids|
  {
    if ids != [] {
      var x := ids[0];
      var drop := x in c.ref && Expired(c.ref[x], now);
      if drop {
        DropKeeps(c, x);
      }
      SweepKeeps(if drop then Drop(c, x) else c, ids[1..], now);
    }
  }

  /** A sweep drops exactly the references on the list that nobody holds and whose time is up. */
  lemma TickKeeps(c: Cache, now: nat)
    requires Inv(c)
    ensures Inv(Tick(c, now)) && Tick(c, now).held == c.held
    ensures forall id :: id in Tick(c, now).ref <==> id in c.ref && !(id in c.list && c.held[id] == 0 && c.ref[id].expiration <= now)
  {
    SweepKeeps(c, c.list, now);
  }

  /** The new reference of a create that finds none. */
  lemma InsertGives(c: Cache, key: Key, id: Id, mtime: nat)
    ensures var c' := Insert(c, key, id, mtime);
            id in c'.list && id in c'.ref && c'.ref[id].key == key && c'.ref[id].mtime == mtime && !c'.ref[id].softRemoved
            && c'.held == c.held + multiset{id}
  {
  }

  /** A create that succeeds gives a current reference for that file with one more hold: the one that was there, if
      it is up to date, or a new one with the time the file was opened with. One that fails gives no hold and
      leaves no reference for the file; it fails exactly if there is no such one and no new one can be made. */
  lemma CreateGives(c: Cache, key: Key, stat: Option<nat>, id: Id, mtime: nat, tooBig: bool)
    requires Inv(c) && id !in c.ref
    ensures var (c', r) := Create(c, key, stat, id, mtime, tooBig);
            && (r.Some? ==>
                  && r.value in c'.list && r.value in c'.ref && c'.ref[r.value].key == key && !c'.ref[r.value].softRemoved
                  && c'.held == c.held + multiset{r.value}
                  && (r.value == id ==> c'.ref[id].mtime == mtime)
                  && (r.value != id ==> r.value in c.ref && stat == Some(c'.ref[r.value].mtime)))
            && (r.None? ==> tooBig && c'.held == c.held && forall x :: Live(c', x) ==> c'.ref[x].key != key)
  {
    var c0 := c.(primed := true);
    GetKeeps(c0, key, stat);
    GetNoNew(c0, key, stat);
    var (c1, found) := Get(c0, key, stat);
    InsertGives(c1, key, id, mtime);
    assert found.Some? ==> Live(c1, found.value);
  }

  lemma GetNoNew(c: Cache, key: Key, stat: Option<nat>)
    ensures Get(c, key, stat).0.ref.Keys <= c.ref.Keys
    ensures Get(c, key, stat).1.Some? ==>
      var id := Get(c, key, stat).1.value;
      id in c.ref && Get(c, key, stat).0.ref[id].mtime == c.ref[id].mtime
  {
  }

  /** After its last release a reference that is current stays for thirty seconds, and the next sweep then drops
      it. */
  lemma IdleFor(c: Cache, id: Id, now: nat, t: nat)
    requires Inv(c) && c.held[id] == 1 && !c.ref[id].softRemoved
    ensures id in Tick(Release(c, id, now), t).ref <==> t < now + 30000
  {
    ReleaseFrees(c, id, now);
    ReleaseKeeps(c, id, now);
    var c' := Release(c, id, now);
    assert Live(c', id) && id in c'.list && c'.held[id] == 0;
    TickKeeps(c', t);
  }

  // ---- Runs ----

  datatype Step =
    | DoGet(key: Key, stat: Option<nat>)
    | DoCreate(key: Key, stat: Option<nat>, id: Id, mtime: nat, tooBig: bool)
    | DoRelease(id: Id, now: nat)
    | DoTick(now: nat)

  function Apply(c: Cache, step: Step): (c': Cache) {
    match step
    case DoGet(key, stat) => Get(c, key, stat).0
    case DoCreate(key, stat, id, mtime, tooBig) => Create(c, key, stat, id, mtime, tooBig).0
    case DoRelease(id, now) => Release(c, id, now)
    case DoTick(now) => if c.primed then Tick(c, now) else c
  }

  function Run(c: Cache, steps: seq<Step>): (c': Cache)
    decreases |steps|
  {
    if steps == [] then c else Run(Apply(c, steps[0]), steps[1..])
  }

  lemma StepKeeps(c: Cache, step: Step)
    requires Inv(c)
    ensures Inv(Apply(c, step))
  {
    match step
    case DoGet(key, stat) => GetKeeps(c, key, stat);
    case DoCreate(key, stat, id, mtime, tooBig) => CreateKeeps(c, key, stat, id, mtime, tooBig);
    case DoRelease(id, now) =>
      if id in c.held {
        ReleaseKeeps(c, id, now);
      }
    case DoTick(now) => TickKeeps(c, now);
  }

  /** In every run: every count is the number of outstanding holds, no held reference has been dropped, and
      the rest of the invariant. */
  lemma {:induction false} RunKeeps(c: Cache, steps: seq<Step>)
    requires Inv(c)
    ensures Inv(Run(c, steps))
    decreases |steps|
  {
    if steps != [] {
      StepKeeps(c, steps[0]);
      RunKeeps(Apply(c, steps[0]), steps[1..]);
    }
  }

  /** The same file, whatever happened to its count. */
  ghost predicate SameFile(c: Cache, c': Cache, id: Id) {
    && id in c.ref && id in c'.ref
    && c'.ref[id].key == c.ref[id].key && c'.ref[id].mtime == c.ref[id].mtime
  }

  lemma GetHolds(c: Cache, key: Key, stat: Option<nat>, id: Id)
    requires Inv(c) && id in c.held
    ensures id in Get(c, key, stat).0.held && SameFile(c, Get(c, key, stat).0, id)
  {
    assert c.held[id] == c.ref[id].cnt;
    LookupSpec(c, c.list, key);
  }

  lemma StepHolds(c: Cache, step: Step, id: Id)
    requires Inv(c) && id in c.held && !(step.DoRelease? && step.id == id)
    ensures id in Apply(c, step).held && SameFile(c, Apply(c, step), id)
  {
    assert c.held[id] == c.ref[id].cnt;
    match step
    case DoGet(key, stat) => GetHolds(c, key, stat, id);
    case DoCreate(key, stat, x, mtime, tooBig) => GetHolds(c.(primed := true), key, stat, id);
    case DoRelease(x, now) =>
      if x in c.held {
        ReleaseFrees(c, x, now);
      }
    case DoTick(now) => SweepKeeps(c, c.list, now);
  }

  /** How often the steps give `id` back. */
  function Releases(steps: seq<Step>, id: Id): (n: nat) {
    if steps == [] then 0
    else (if steps[0].DoRelease? && steps[0].id == id then 1 else 0) + Releases(steps[1..], id)
  }

  /** A step gives back at most the hold it names, and a reference with a hold left stays. */
  lemma {:induction false} StepHoldsOn(c: Cache, step: Step, id: Id)
    requires Inv(c) && c.held[id] > Releases([step], id)
    ensures Apply(c, step).held[id] >= c.held[id] - Releases([step], id) && SameFile(c, Apply(c, step), id)
  {
    assert Releases([step], id) == if step.DoRelease? && step.id == id then 1 else 0;
    if step.DoRelease? && step.id == id {
      ReleaseFrees(c, id, step.now);
      assert c.held[id] == c.ref[id].cnt;
    } else {
      StepHolds(c, step, id);
      StepAddsHolds(c, step, id);
    }
  }

  lemma GetAddsHolds(c: Cache, key: Key, stat: Option<nat>, id: Id)
    ensures Get(c, key, stat).0.held[id] >= c.held[id]
  {
  }

  lemma {:induction false} SweepHolds(c: Cache, ids: seq<Id>, now: nat)
    ensures Sweep(c, ids, now).held == c.held
    decreases |ids|
  {
    if ids != [] {
      SweepHolds(if ids[0] in c.ref && Expired(c.ref[ids[0]], now) then Drop(c, ids[0]) else c, ids[1..], now);
    }
  }

  lemma StepAddsHolds(c: Cache, step: Step, id: Id)
    requires !(step.DoRelease? && step.id == id)
    ensures Apply(c, step).held[id] >= c.held[id]
  {
    match step
    case DoGet(key, stat) => GetAddsHolds(c, key, stat, id);
    case DoCreate(key, stat, x, mtime, tooBig) => GetAddsHolds(c.(primed := true), key, stat, id);
    case DoRelease(x, now) =>
    case DoTick(now) => SweepHolds(c, c.list, now);
  }

  /** A reference that is given back less often than it is held stays the same open file through any run:
      lookups that find it changed on disk, expiry, releases by its other holders and new references do not
      drop it. */
  lemma {:induction false} HeldStays(c: Cache, steps: seq<Step>, id: Id)
    requires Inv(c) && Releases(steps, id) < c.held[id]
    ensures Run(c, steps).held[id] >= c.held[id] - Releases(steps, id) && SameFile(c, Run(c, steps), id)
    decreases |steps|
  {
    if steps == [] {
      assert c.held[id] == c.ref[id].cnt;
    } else {
      var step := steps[0];
      assert [step][1..] == [] && Releases([step], id) == if step.DoRelease? && step.id == id then 1 else 0;
      StepHoldsOn(c, step, id);
      StepKeeps(c, step);
      HeldStays(Apply(c, step), steps[1..], id);
    }
  }

  // ---- The module's own state ----

  lemma {:induction false} LookupSkips(c: Cache, ids: seq<Id>, i: nat, key: Key)
    requires i < |ids|
    requires !(ids[i] in c.ref && c.ref[ids[i]].key == key)
    ensures Lookup(c, ids[i..], key) == Lookup(c, ids[i + 1..], key)
  {
    assert ids[i..][1..] == ids[i + 1..];
  }

  class FileRefs {
    var list: seq<Id>
    var ref: map<Id, Ref>
    var primed: bool
    ghost var held: multiset<Id>

    ghost function State(): Cache
      reads this
    {
      Cache(list, ref, primed, held)
    }

    constructor ()
      ensures State() == EMPTY && Inv(State())
    {
      list, ref, primed, held := [], map[], false, multiset{};
    }

    /** `fileref_drop`, the caller's hold on it gone. */
    method DropRef(id: Id)
      requires id in ref
      modifies this
      ensures State() == Drop(old(State()), id)
    {
      if !ref[id].softRemoved {
        list := Without(list, id);
      }
      ref := ref - {id};
    }

    method SoftRemoveRef(id: Id)
      requires Live(State(), id)
      modifies this
      ensures State() == SoftRemove(old(State()), id)
    {
      list := Without(list, id);
      ref := ref[id := ref[id].(softRemoved := true)];
      if ref[id].cnt == 0 {
        DropRef(id);
      }
    }

    /** The walk of `kore_fileref_get`. */
    method Find(key: Key) returns (r: Option<Id>)
      requires Listed(State())
      ensures r == Lookup(State(), list, key)
    {
      var i := 0;
      while i < |list|
        invariant i <= |list|
        invariant Lookup(State(), list, key) == Lookup(State(), list[i..], key)
      {
        assert Live(State(), list[i]);
        if ref[list[i]].key == key {
          return Some(list[i]);
        }
        LookupSkips(State(), list, i, key);
        i := i + 1;
      }
      r := None;
    }

    /** `kore_fileref_get` */
    method GetRef(key: Key, stat: Option<nat>) returns (r: Option<Id>)
      requires Inv(State())
      modifies this
      ensures Inv(State()) && (State(), r) == Get(old(State()), key, stat)
    {
      GetKeeps(State(), key, stat);
      LookupSpec(State(), list, key);
      r := Find(key);
      if r.Some? {
        var id := r.value;
        if stat.None? || ref[id].mtime != stat.value {
          SoftRemoveRef(id);
          r := None;
        } else {
          list, ref := [id] + Without(list, id), ref[id := ref[id].(cnt := ref[id].cnt + 1)];
          held := held + multiset{id};
        }
      }
    }

    /** `kore_fileref_create`; the pool hands out `id`. */
    method CreateRef(key: Key, stat: Option<nat>, id: Id, mtime: nat, tooBig: bool) returns (r: Option<Id>)
      requires Inv(State()) && id !in ref
      modifies this
      ensures Inv(State()) && (State(), r) == Create(old(State()), key, stat, id, mtime, tooBig)
    {
      CreateKeeps(State(), key, stat, id, mtime, tooBig);
      primed := true;
      r := GetRef(key, stat);
      if r.None? && !tooBig && id !in ref {
        list, ref := list + [id], ref[id := Ref(key, mtime, 1, false, 0)];
        held := held + multiset{id};
        r := Some(id);
      }
    }

    /** `kore_fileref_release` */
    method ReleaseRef(id: Id, now: nat)
      requires Inv(State()) && id in held
      modifies this
      ensures Inv(State()) && State() == Release(old(State()), id, now)
    {
      ReleaseKeeps(State(), id, now);
      assert held[id] == ref[id].cnt;
      ref := ref[id := ref[id].(cnt := ref[id].cnt - 1)];
      held := held - multiset{id};
      if ref[id].cnt == 0 {
        if ref[id].softRemoved {
          DropRef(id);
        } else {
          ref := ref[id := ref[id].(expiration := now + EXPIRATION)];
        }
      }
    }

    /** `fileref_expiration_check`: each step drops at most the reference it is at, so the walk sees them all. */
    method ExpirationCheck(now: nat)
      requires Inv(State())
      modifies this
      ensures Inv(State()) && State() == Tick(old(State()), now)
    {
      TickKeeps(State(), now);
      var ids, i := list, 0;
      while i < |ids|
        invariant i <= |ids|
        invariant Sweep(State(), ids[i..], now) == Sweep(old(State()), ids, now)
      {
        var id := ids[i];
        assert ids[i..][1..] == ids[i + 1..];
        if id in ref && ref[id].cnt == 0 && ref[id].expiration <= now {
          DropRef(id);
        }
        i := i + 1;
      }
      if list == [] {
        primed := false;
      }
    }
  }
}
