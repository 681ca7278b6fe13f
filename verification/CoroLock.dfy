/** The coroutine lock of `python.c` and the lists its coroutines are kept on. Coroutines run one at a time
    until they suspend, so a step is what one coroutine does without giving up control. */
module CoroLock {
  import opened Bytes
  import opened Lists

  type Coro = nat
  type OpId = nat

  datatype CoroState = Runnable | Suspended

  /** `struct pylock_op`: one use of `async with`, entering (`locking`) or leaving. */
  datatype Op = Op(coro: Coro, locking: bool, active: bool)

  datatype Sched = Sched(
    owner: Option<Coro>,             // `lock->owner`
    ops: seq<OpId>,                  // `lock->ops`
    op: map<OpId, Op>,
    lockop: map<Coro, OpId>,         // `coro->lockop` where it is not NULL
    awaiting: map<Coro, OpId>,       // the operation a coroutine is suspended in, or about to resume
    state: map<Coro, CoroState>,
    runnable: seq<Coro>,             // `coro_runnable`
    suspended: seq<Coro>,            // `coro_suspended`
    requests: set<Coro>,             // coroutines that belong to an HTTP request
    awake: set<Coro>,                // and those whose request is not sleeping
    running: Option<Coro>)           // `coro_running`

  // ---- Waking and suspending ----

  /** `python_coro_wakeup` */
  function Wakeup(s: Sched, c: Coro): (s': Sched) {
    if c !in s.state || s.state[c] != Suspended then s
    else s.(state := s.state[c := Runnable], suspended := Without(s.suspended, c), runnable := s.runnable + [c])
  }

  /** `python_coro_suspend`, and the request of the coroutine goes to sleep */
  function Suspend(s: Sched, c: Coro): (s': Sched) {
    if c !in s.state || s.state[c] != Runnable then s
    else s.(state := s.state[c := Suspended], runnable := Without(s.runnable, c), suspended := s.suspended + [c],
            awake := s.awake - {c}, running := None)
  }

  /** A coroutine that serves a request is woken through its request. */
  function Notify(s: Sched, c: Coro): (s': Sched) {
    if c in s.requests then s.(awake := s.awake + {c}) else Wakeup(s, c)
  }

  // ---- The lock ----

  /** The first entering operation on the list, if any. */
  function FirstLocking(s: Sched, ids: seq<OpId>): (r: Option<OpId>) {
    if ids == [] then None
    else if ids[0] in s.op && s.op[ids[0]].locking then Some(ids[0])
    else FirstLocking(s, ids[1..])
  }

  /** Take an operation off the list. */
  function Retire(s: Sched, id: OpId): (s': Sched) {
    if id !in s.op then s
    else s.(op := s.op[id := s.op[id].(active := false)], lockop := s.lockop - {s.op[id].coro}, ops := Without(s.ops, id))
  }

  /** `pylock_do_release` */
  function DoRelease(s: Sched): (s': Sched) {
    var s0 := s.(owner := None);
    match FirstLocking(s0, s0.ops)
    case None => s0
    case Some(id) => if id !in s0.op then s0 else Notify(Retire(s0, id), s0.op[id].coro)
  }

  /** `pylock_aenter` and `pylock_aexit`: a new operation at the end of the list. */
  function NewOp(s: Sched, c: Coro, id: OpId, locking: bool): (s': Sched) {
    s.(op := s.op[id := Op(c, locking, true)], lockop := s.lockop[c := id], ops := s.ops + [id])
  }

  /** `pylock_op_iternext` of an entering operation, by the running coroutine `c`. */
  function IterEnter(s: Sched, c: Coro, id: OpId): (s': Sched)
    requires id in s.op
  {
    if s.owner.Some? then
      // beaten to it: wait at the head of the list
      var s1 := if s.op[id].active then s
                else s.(op := s.op[id := s.op[id].(active := true)], lockop := s.lockop[c := id], ops := [id] + s.ops);
      Suspend(s1.(awaiting := s1.awaiting[c := id]), c)
    else
      var s1 := s.(owner := Some(c), awaiting := s.awaiting - {c});
      if s.op[id].active then Retire(s1, id) else s1
  }

  /** `pylock_op_iternext` of a leaving operation. */
  function IterLeave(s: Sched, id: OpId): (s': Sched)
    requires id in s.op
  {
    var s1 := DoRelease(s);
    if id in s1.op && s1.op[id].active then Retire(s1, id) else s1
  }

  // ---- Steps ----

  datatype Step =
    | Spawn(c: Coro, request: bool)       // `python_coro_create`
    | Dispatch(c: Coro)                   // resume a coroutine
    | Enter(id: OpId)                     // `async with lock:` begins
    | Leave(id: OpId)                     // ... and ends
    | TryLock
    | Release                             // the explicit calls
    | Yield                               // suspend for a reason that is not this lock
    | End                                 // return
    | Wake(c: Coro)                       // an event that is not this lock

  function Ready(s: Sched, c: Coro): bool {
    c in s.state && (s.state[c].Runnable? || c in s.awake)
  }

  /** What a step does; a step that is not possible, or that raises an error in Python, does nothing. */
  function Apply(s: Sched, step: Step): (s': Sched) {
    match step
    case Spawn(c, request) =>
      if c in s.state then s
      else s.(state := s.state[c := Runnable], runnable := s.runnable + [c],
              requests := if request then s.requests + {c} else s.requests - {c}, awake := s.awake - {c})
    case Dispatch(c) =>
      if s.running.Some? || !Ready(s, c) then s
      else
        var s1 := Wakeup(s, c).(running := Some(c));
        if c in s.awaiting && s.awaiting[c] in s.op then IterEnter(s1, c, s.awaiting[c]) else s1
    case Enter(id) =>
      if s.running.None? || id in s.op || s.owner == s.running || s.running.value in s.lockop then s
      else IterEnter(NewOp(s, s.running.value, id, true), s.running.value, id)
    case Leave(id) =>
      if s.running.None? || id in s.op || s.owner != s.running || s.running.value in s.lockop then s
      else IterLeave(NewOp(s, s.running.value, id, false), id)
    case TryLock => if s.running.None? || s.owner.Some? then s else s.(owner := s.running)
    case Release => if s.running.None? || s.owner != s.running then s else DoRelease(s)
    case Yield => if s.running.None? then s else Suspend(s, s.running.value)
    case End =>
      if s.running.None? || s.owner == s.running then s
      else
        var c := s.running.value;
        s.(state := s.state - {c}, runnable := Without(s.runnable, c), running := None, awake := s.awake - {c})
    case Wake(c) => if c !in s.state then s else Notify(s, c)
  }

  const IDLE: Sched := Sched(None, [], map[], map[], map[], map[], [], [], {}, {}, None)

  // ---- Invariant ----

  /** Every coroutine is on exactly the list its state names, once. */
  ghost predicate ListsOk(s: Sched) {
    && Distinct(s.runnable) && Distinct(s.suspended)
    && (forall c :: c in s.runnable <==> c in s.state && s.state[c].Runnable?)
    && (forall c :: c in s.suspended <==> c in s.state && s.state[c].Suspended?)
  }

  /** An operation is active exactly while it is on the list, and then it is its coroutine's `lockop`. */
  ghost predicate OpsOk(s: Sched) {
    && Distinct(s.ops)
    && (forall id :: id in s.ops <==> id in s.op && s.op[id].active)
    && (forall id :: id in s.ops ==> s.op[id].coro in s.lockop && s.lockop[s.op[id].coro] == id)
    && (forall c :: c in s.lockop ==> s.lockop[c] in s.ops && s.op[s.lockop[c]].coro == c)
  }

  /** Between steps only entering operations wait, and their coroutines are the ones suspended in them. */
  ghost predicate WaitersOk(s: Sched) {
    && (forall id :: id in s.ops ==> id in s.op && s.op[id].locking && s.op[id].coro in s.awaiting && s.awaiting[s.op[id].coro] == id)
    && (forall c :: c in s.awaiting ==>
          c in s.state && s.awaiting[c] in s.op && s.op[s.awaiting[c]].coro == c && s.op[s.awaiting[c]].locking
          && s.owner != Some(c) && s.running != Some(c))
    && (s.owner.Some? ==> s.owner.value in s.state)
    && (s.running.Some? ==> s.running.value in s.state && s.state[s.running.value].Runnable?)
  }

  /** A waiter that is off the list has been woken and not run since. */
  ghost predicate WokenReady(s: Sched) {
    forall c :: c in s.awaiting && s.awaiting[c] in s.op && !s.op[s.awaiting[c]].active ==> Ready(s, c)
  }

  /** Nobody waits for a free lock without anyone about to try for it. */
  ghost predicate NoLostWakeup(s: Sched) {
    s.owner.None? && s.awaiting.Keys != {} ==> exists c :: c in s.awaiting && Ready(s, c)
  }

  ghost predicate Inv(s: Sched) {
    ListsOk(s) && OpsOk(s) && WaitersOk(s) && WokenReady(s) && NoLostWakeup(s)
  }

  // ---- The parts keep it ----

  /** Waking only moves a coroutine towards running. */
  lemma NotifyKeeps(s: Sched, c: Coro)
    requires ListsOk(s) && c in s.state
    ensures var s' := Notify(s, c);
            && ListsOk(s') && Ready(s', c) && s'.state.Keys == s.state.Keys
            && (forall x :: Ready(s, x) ==> Ready(s', x))
            && (forall x :: x in s.state && s.state[x].Runnable? ==> s'.state[x].Runnable?)
            && (if c in s.requests then s'.state == s.state && c in s'.awake else s'.state[c].Runnable? && s'.awake == s.awake)
            && s'.owner == s.owner && s'.ops == s.ops && s'.op == s.op && s'.lockop == s.lockop
            && s'.awaiting == s.awaiting && s'.running == s.running
  {
    WithoutSpec(s.suspended, c);
    if c !in s.requests && s.state[c].Suspended? {
      AppendSpec(s.runnable, c);
    }
  }

  lemma SuspendKeeps(s: Sched, c: Coro)
    requires ListsOk(s) && c in s.state && s.state[c].Runnable?
    ensures var s' := Suspend(s, c);
            && ListsOk(s') && s'.state.Keys == s.state.Keys && s'.running.None?
            && s'.state[c].Suspended? && !Ready(s', c) && (forall x :: Ready(s, x) && x != c ==> Ready(s', x))
            && s'.owner == s.owner && s'.ops == s.ops && s'.op == s.op && s'.lockop == s.lockop && s'.awaiting == s.awaiting
  {
    WithoutSpec(s.runnable, c);
    AppendSpec(s.suspended, c);
  }

  lemma {:induction false} FirstLockingSpec(s: Sched, ids: seq<OpId>)
    ensures FirstLocking(s, ids).Some? ==> FirstLocking(s, ids).value in ids && FirstLocking(s, ids).value in s.op && s.op[FirstLocking(s, ids).value].locking
    ensures FirstLocking(s, ids).None? ==> forall id :: id in ids && id in s.op ==> !s.op[id].locking
    decreases |ids|
  {
    if ids != [] {
      FirstLockingSpec(s, ids[1..]);
    }
  }

  lemma RetireKeeps(s: Sched, id: OpId)
    requires OpsOk(s) && id in s.ops
    ensures OpsOk(Retire(s, id))
    ensures forall x :: x in Retire(s, id).ops <==> x in s.ops && x != id
  {
    WithoutSpec(s.ops, id);
  }

  /** Freeing the lock leaves everything in order: the first waiter, if there is one, is woken. */
  lemma ReleaseKeeps(s: Sched)
    requires Inv(s)
    ensures Inv(DoRelease(s))
  {
    var s0 := s.(owner := None);
    FirstLockingSpec(s0, s0.ops);
    match FirstLocking(s0, s0.ops)
    case None => FreeKeeps(s);
    case Some(id) => HandOn(s, id);
  }

  lemma FreeKeeps(s: Sched)
    requires Inv(s) && forall id :: id in s.ops && id in s.op ==> !s.op[id].locking
    ensures Inv(s.(owner := None))
  {
    var s0 := s.(owner := None);
    forall c | c in s.awaiting ensures Ready(s0, c) {
      assert s.awaiting[c] !in s.ops;
      assert Ready(s, c);
    }
  }

  lemma SameLists(s: Sched, s': Sched)
    requires ListsOk(s) && s'.runnable == s.runnable && s'.suspended == s.suspended && s'.state == s.state
    ensures ListsOk(s')
  {
  }

  lemma SameOps(s: Sched, s': Sched)
    requires OpsOk(s) && s'.ops == s.ops && s'.op == s.op && s'.lockop == s.lockop
    ensures OpsOk(s')
  {
  }

  lemma HandOnOps(s: Sched, id: OpId)
    requires OpsOk(s) && id in s.ops
    ensures OpsOk(Notify(Retire(s.(owner := None), id), s.op[id].coro))
  {
    var s0 := s.(owner := None);
    SameOps(s, s0);
    RetireKeeps(s0, id);
    SameOps(Retire(s0, id), Notify(Retire(s0, id), s.op[id].coro));
  }

  lemma RetireWaiters(s: Sched, id: OpId)
    requires WaitersOk(s) && id in s.ops
    ensures WaitersOk(Retire(s.(owner := None), id))
  {
    WithoutSpec(s.ops, id);
  }

  lemma NotifyWaiters(s: Sched, c: Coro)
    requires ListsOk(s) && WaitersOk(s) && c in s.state
    ensures ListsOk(Notify(s, c)) && WaitersOk(Notify(s, c))
  {
    NotifyKeeps(s, c);
  }

  lemma HandOnWaiters(s: Sched, id: OpId)
    requires ListsOk(s) && WaitersOk(s) && id in s.ops
    ensures var s2 := Notify(Retire(s.(owner := None), id), s.op[id].coro);
            ListsOk(s2) && WaitersOk(s2)
  {
    var s1 := Retire(s.(owner := None), id);
    assert s.op[id].coro in s.awaiting;
    RetireWaiters(s, id);
    SameLists(s, s1);
    NotifyWaiters(s1, s.op[id].coro);
  }

  lemma HandOnReady(s: Sched, id: OpId)
    requires ListsOk(s) && OpsOk(s) && WaitersOk(s) && WokenReady(s) && id in s.ops
    ensures var s2 := Notify(Retire(s.(owner := None), id), s.op[id].coro);
            WokenReady(s2) && NoLostWakeup(s2)
  {
    var c := s.op[id].coro;
    var s1 := Retire(s.(owner := None), id);
    NotifyKeeps(s1, c);
    var s2 := Notify(s1, c);
    assert c in s2.awaiting && Ready(s2, c);
    forall x | x in s2.awaiting && s2.awaiting[x] in s2.op && !s2.op[s2.awaiting[x]].active && x != c
      ensures Ready(s2, x)
    {
      assert s.awaiting[x] != id;
      assert Ready(s, x) && Ready(s1, x);
    }
  }

  lemma HandOn(s: Sched, id: OpId)
    requires Inv(s) && id in s.ops
    ensures Inv(Notify(Retire(s.(owner := None), id), s.op[id].coro))
  {
    HandOnOps(s, id);
    HandOnWaiters(s, id);
    HandOnReady(s, id);
  }

  lemma SpentOps(s: Sched, id: OpId, o: Op)
    requires OpsOk(s) && id !in s.op && !o.active
    ensures OpsOk(s.(op := s.op[id := o]))
  {
    assert forall x :: x in s.ops ==> x in s.op && x != id;
  }

  lemma SpentWaiters(s: Sched, id: OpId, o: Op)
    requires WaitersOk(s) && WokenReady(s) && NoLostWakeup(s) && id !in s.op
    ensures var s' := s.(op := s.op[id := o]);
            WaitersOk(s') && WokenReady(s') && NoLostWakeup(s')
  {
    var s' := s.(op := s.op[id := o]);
    assert forall x :: x in s.ops ==> x in s.op && x != id;
    assert forall c :: c in s.awaiting ==> s.awaiting[c] in s.op && s.awaiting[c] != id;
    assert forall c :: Ready(s, c) == Ready(s', c);
  }

  /** A spent operation changes nothing. */
  lemma SpentOp(s: Sched, id: OpId, o: Op)
    requires Inv(s) && id !in s.op && !o.active
    ensures Inv(s.(op := s.op[id := o]))
  {
    SpentOps(s, id, o);
    SpentWaiters(s, id, o);
    SameLists(s, s.(op := s.op[id := o]));
  }

  lemma {:induction false} WithoutLast<T>(s: seq<T>, x: T)
    requires x !in s
    ensures Without(s, x) == s && Without(s + [x], x) == s
  {
    if s == [] {
      assert s + [x] == [x];
    } else {
      assert (s + [x])[1..] == s[1..] + [x];
      WithoutLast(s[1..], x);
    }
  }

  /** An operation that does not enter is passed over. */
  lemma {:induction false} LeavingPassedOver(s: Sched, s1: Sched, ids: seq<OpId>, id: OpId)
    requires id !in s.op && id in s1.op && !s1.op[id].locking && s1.op == s.op[id := s1.op[id]]
    ensures FirstLocking(s1, ids + [id]) == FirstLocking(s, ids)
    decreases |ids|
  {
    if ids == [] {
      assert ids + [id] == [id] && [id][1..] == [];
    } else {
      assert (ids + [id])[1..] == ids[1..] + [id];
      LeavingPassedOver(s, s1, ids[1..], id);
    }
  }

  lemma {:induction false} WithoutPast<T>(s: seq<T>, x: T, y: T)
    requires x != y
    ensures Without(s + [y], x) == Without(s, x) + [y]
  {
    if s == [] {
      assert s + [y] == [y] && [y][1..] == [];
    } else {
      assert (s + [y])[1..] == s[1..] + [y];
      WithoutPast(s[1..], x, y);
    }
  }

  /** Leaving the block is a release; only the spent operation tells them apart. */
  lemma LeaveIsRelease(s: Sched, c: Coro, id: OpId)
    requires id !in s.op && id !in s.ops && c !in s.lockop
    requires forall o :: o in s.ops ==> o in s.op && s.op[o].coro in s.lockop
    ensures IterLeave(NewOp(s, c, id, false), id) == DoRelease(s).(op := DoRelease(s).op[id := Op(c, false, false)])
  {
    var s1 := NewOp(s, c, id, false).(owner := None);
    var s0 := s.(owner := None);
    LeavingPassedOver(s0, s1, s.ops, id);
    FirstLockingSpec(s0, s.ops);
    match FirstLocking(s0, s.ops)
    case None =>
      LeaveAlone(s0, c, id);
    case Some(o) =>
      LeaveWithWaiter(s0, c, id, o);
  }

  lemma LeaveAlone(s: Sched, c: Coro, id: OpId)
    requires id !in s.op && id !in s.ops && c !in s.lockop
    ensures Retire(NewOp(s, c, id, false), id) == s.(op := s.op[id := Op(c, false, false)])
  {
    WithoutLast(s.ops, id);
    assert s.lockop[c := id] - {c} == s.lockop;
    assert s.op[id := Op(c, false, true)][id := Op(c, false, false)] == s.op[id := Op(c, false, false)];
  }

  lemma LeaveWithWaiter(s: Sched, c: Coro, id: OpId, o: OpId)
    requires id !in s.op && id !in s.ops && c !in s.lockop && o in s.op && s.op[o].coro in s.lockop
    ensures var w := s.op[o].coro;
            Retire(Notify(Retire(NewOp(s, c, id, false), o), w), id)
            == Notify(Retire(s, o), w).(op := Notify(Retire(s, o), w).op[id := Op(c, false, false)])
  {
    var w, t := s.op[o].coro, Retire(s, o);
    RetireNewOp(s, c, id, o);
    NotifyNewOp(t, c, id, w);
    WithoutSpec(s.ops, o);
    LeaveAlone(Notify(t, w), c, id);
  }

  lemma RetireNewOp(s: Sched, c: Coro, id: OpId, o: OpId)
    requires id !in s.op && id !in s.ops && c !in s.lockop && o in s.op && s.op[o].coro in s.lockop
    ensures Retire(NewOp(s, c, id, false), o) == NewOp(Retire(s, o), c, id, false)
  {
    var w := s.op[o].coro;
    WithoutPast(s.ops, o, id);
    assert s.lockop[c := id] - {w} == (s.lockop - {w})[c := id];
    assert s.op[id := Op(c, false, true)][o := s.op[o].(active := false)] == s.op[o := s.op[o].(active := false)][id := Op(c, false, true)];
  }

  lemma NotifyNewOp(s: Sched, c: Coro, id: OpId, w: Coro)
    ensures Notify(NewOp(s, c, id, false), w) == NewOp(Notify(s, w), c, id, false)
    ensures Notify(s, w).op == s.op && Notify(s, w).lockop == s.lockop && Notify(s, w).ops == s.ops
  {
  }

  // ---- Every step keeps it ----

  lemma ReleaseOps(s: Sched, id: OpId)
    requires id !in s.op
    ensures id !in DoRelease(s).op
  {
    FirstLockingSpec(s.(owner := None), s.ops);
  }

  lemma LeaveKeeps(s: Sched, id: OpId)
    requires Inv(s)
    ensures Inv(Apply(s, Leave(id)))
  {
    if s.running.Some? && id !in s.op && s.owner == s.running && s.running.value !in s.lockop {
      LeaveIsRelease(s, s.running.value, id);
      ReleaseKeeps(s);
      ReleaseOps(s, id);
      SpentOp(DoRelease(s), id, Op(s.running.value, false, false));
    }
  }

  /** Entering a free lock is taking it. */
  lemma EnterFree(s: Sched, c: Coro, id: OpId)
    requires id !in s.op && id !in s.ops && c !in s.lockop && s.owner.None? && c !in s.awaiting
    ensures IterEnter(NewOp(s, c, id, true), c, id) == s.(owner := Some(c), op := s.op[id := Op(c, true, false)])
  {
    WithoutLast(s.ops, id);
    assert s.awaiting - {c} == s.awaiting;
    assert s.lockop[c := id] - {c} == s.lockop;
    assert s.op[id := Op(c, true, true)][id := Op(c, true, false)] == s.op[id := Op(c, true, false)];
  }

  lemma TakeKeeps(s: Sched)
    requires Inv(s) && s.owner.None? && s.running.Some?
    ensures Inv(s.(owner := s.running))
  {
    assert forall c :: Ready(s, c) == Ready(s.(owner := s.running), c);
  }

  /** An operation put on the list, at either end, is active and its coroutine's `lockop`. */
  lemma QueueKeeps(s: Sched, c: Coro, id: OpId, ops: seq<OpId>)
    requires OpsOk(s) && id !in s.ops && c !in s.lockop && (ops == s.ops + [id] || ops == [id] + s.ops)
    ensures OpsOk(s.(op := s.op[id := Op(c, true, true)], lockop := s.lockop[c := id], ops := ops))
  {
    AppendSpec(s.ops, id);
  }

  /** A coroutine that waits on the list may be suspended. */
  lemma WaitKeeps(s: Sched, c: Coro)
    requires ListsOk(s) && OpsOk(s) && WaitersOk(s.(running := None)) && s.owner.Some?
    requires c in s.awaiting && s.awaiting[c] in s.ops && s.state[c].Runnable?
    requires forall x :: x in s.awaiting && !s.op[s.awaiting[x]].active ==> Ready(s, x)
    ensures Inv(Suspend(s, c))
  {
    SuspendKeeps(s, c);
  }

  lemma QueuedWaiters(s: Sched, c: Coro, id: OpId)
    requires WaitersOk(s) && WokenReady(s) && id !in s.op && s.owner.Some? && s.owner != Some(c) && s.running == Some(c)
    ensures var s1 := NewOp(s, c, id, true);
            var s2 := s1.(awaiting := s1.awaiting[c := id]);
            && WaitersOk(s2.(running := None))
            && forall x :: x in s2.awaiting && !s2.op[s2.awaiting[x]].active ==> Ready(s2, x)
  {
    var s1 := NewOp(s, c, id, true);
    var s2 := s1.(awaiting := s1.awaiting[c := id]);
    forall x | x in s2.awaiting && !s2.op[s2.awaiting[x]].active
      ensures Ready(s2, x)
    {
      assert x != c && s.awaiting[x] != id && Ready(s, x);
    }
  }

  /** Entering a lock that is taken puts the coroutine at the end of the list and suspends it. */
  lemma EnterTaken(s: Sched, c: Coro, id: OpId)
    requires Inv(s) && id !in s.op && c !in s.lockop && s.owner.Some? && s.owner != Some(c) && s.running == Some(c)
    ensures Inv(IterEnter(NewOp(s, c, id, true), c, id))
  {
    QueueKeeps(s, c, id, s.ops + [id]);
    var s1 := NewOp(s, c, id, true);
    var s2 := s1.(awaiting := s1.awaiting[c := id]);
    QueuedWaiters(s, c, id);
    WaitKeeps(s2, c);
  }

  lemma EnterKeeps(s: Sched, id: OpId)
    requires Inv(s)
    ensures Inv(Apply(s, Enter(id)))
  {
    if s.running.Some? && id !in s.op && s.owner != s.running && s.running.value !in s.lockop {
      var c := s.running.value;
      if s.owner.None? {
        EnterFree(s, c, id);
        TakeKeeps(s);
        SpentOp(s.(owner := Some(c)), id, Op(c, true, false));
      } else {
        EnterTaken(s, c, id);
      }
    }
  }

  /** A woken coroutine that resumes takes a free lock, or goes to the head of the list if it was beaten. */
  lemma ResumeFree(s: Sched, c: Coro)
    requires Inv(s) && s.running.None? && s.owner.None? && c in s.awaiting && s.state[c].Runnable?
    ensures Inv(IterEnter(s.(running := Some(c)), c, s.awaiting[c]))
  {
    var id := s.awaiting[c];
    var s1 := s.(running := Some(c), owner := Some(c), awaiting := s.awaiting - {c});
    if s.op[id].active {
      assert OpsOk(s1);
      RetireKeeps(s1, id);
    }
    var s2 := IterEnter(s.(running := Some(c)), c, id);
    forall x | x in s2.awaiting && !s2.op[s2.awaiting[x]].active ensures Ready(s2, x) {
      assert s.awaiting[x] != id;
      assert Ready(s, x);
    }
  }

  lemma ResumeBeaten(s: Sched, c: Coro)
    requires Inv(s) && s.running.None? && s.owner.Some? && c in s.awaiting && s.state[c].Runnable?
    ensures Inv(IterEnter(s.(running := Some(c)), c, s.awaiting[c]))
  {
    var id := s.awaiting[c];
    var s0 := s.(running := Some(c));
    var s1 := if s.op[id].active then s0
              else s0.(op := s0.op[id := s0.op[id].(active := true)], lockop := s0.lockop[c := id], ops := [id] + s0.ops);
    if !s.op[id].active {
      assert c !in s.lockop && s.op[id].(active := true) == Op(c, true, true);
      QueueKeeps(s0, c, id, [id] + s.ops);
    }
    var s2 := s1.(awaiting := s1.awaiting[c := id]);
    assert s2.awaiting == s.awaiting;
    forall x | x in s2.awaiting && !s2.op[s2.awaiting[x]].active ensures Ready(s2, x) {
      assert x != c && s.awaiting[x] != id && Ready(s, x);
    }
    WaitKeeps(s2, c);
  }

  /** Waking a coroutine keeps everything. */
  lemma NotifyInv(s: Sched, c: Coro)
    requires Inv(s) && c in s.state
    ensures Inv(Notify(s, c))
  {
    NotifyKeeps(s, c);
  }

  lemma WakeupInv(s: Sched, c: Coro)
    requires Inv(s) && c in s.state
    ensures Inv(Wakeup(s, c)) && Wakeup(s, c).state[c].Runnable?
    ensures Wakeup(s, c).awaiting == s.awaiting && Wakeup(s, c).owner == s.owner && Wakeup(s, c).running == s.running && Wakeup(s, c).op == s.op
  {
    var t := s.(requests := {});
    NotifyKeeps(t, c);
    assert Wakeup(s, c) == Notify(t, c).(requests := s.requests);
    var s' := Wakeup(s, c);
    assert forall x :: Ready(s, x) ==> Ready(s', x);
  }

  lemma DispatchKeeps(s: Sched, c: Coro)
    requires Inv(s)
    ensures Inv(Apply(s, Dispatch(c)))
  {
    if s.running.None? && Ready(s, c) {
      WakeupInv(s, c);
      var s1 := Wakeup(s, c);
      if c in s.awaiting {
        if s.owner.None? {
          ResumeFree(s1, c);
        } else {
          ResumeBeaten(s1, c);
        }
      } else {
        var s2 := s1.(running := Some(c));
        assert forall x :: Ready(s1, x) == Ready(s2, x);
      }
    }
  }

  lemma YieldKeeps(s: Sched)
    requires Inv(s)
    ensures Inv(Apply(s, Yield))
  {
    if s.running.Some? {
      SuspendKeeps(s, s.running.value);
    }
  }

  lemma EndKeeps(s: Sched)
    requires Inv(s)
    ensures Inv(Apply(s, End))
  {
    if s.running.Some? && s.owner != s.running {
      WithoutSpec(s.runnable, s.running.value);
      var s' := Apply(s, End);
      assert forall x :: Ready(s, x) && x != s.running.value ==> Ready(s', x);
    }
  }

  lemma SpawnKeeps(s: Sched, c: Coro, request: bool)
    requires Inv(s)
    ensures Inv(Apply(s, Spawn(c, request)))
  {
    if c !in s.state {
      AppendSpec(s.runnable, c);
      var s' := Apply(s, Spawn(c, request));
      assert forall x :: Ready(s, x) ==> Ready(s', x);
    }
  }

  lemma StepKeeps(s: Sched, step: Step)
    requires Inv(s)
    ensures Inv(Apply(s, step))
  {
    match step
    case Spawn(c, request) => SpawnKeeps(s, c, request);
    case Dispatch(c) => DispatchKeeps(s, c);
    case Enter(id) => EnterKeeps(s, id);
    case Leave(id) => LeaveKeeps(s, id);
    case TryLock => if s.running.Some? && s.owner.None? { TakeKeeps(s); }
    case Release => if s.running.Some? && s.owner == s.running { ReleaseKeeps(s); }
    case Yield => YieldKeeps(s);
    case End => EndKeeps(s);
    case Wake(c) => if c in s.state { NotifyInv(s, c); }
  }

  function Run(s: Sched, steps: seq<Step>): (s': Sched)
    decreases |steps|
  {
    if steps == [] then s else Run(Apply(s, steps[0]), steps[1..])
  }

  lemma {:induction false} RunKeeps(s: Sched, steps: seq<Step>)
    requires Inv(s)
    ensures Inv(Run(s, steps))
    decreases |steps|
  {
    if steps != [] {
      StepKeeps(s, steps[0]);
      RunKeeps(Apply(s, steps[0]), steps[1..]);
    }
  }

  /** In every run from the start: whenever the lock is free and a coroutine waits for it, one that waits is
      about to run and try; every coroutine is on the list its state names; and the running coroutine never
      meets the fatal error of a second operation. */
  lemma {:induction false} NoLostWakeupInAnyRun(steps: seq<Step>)
    ensures var s := Run(IDLE, steps);
            && NoLostWakeup(s) && ListsOk(s)
            && (s.ops != [] ==> s.awaiting.Keys != {})
            && (s.running.Some? ==> s.running.value !in s.lockop)
  {
    RunKeeps(IDLE, steps);
    var s := Run(IDLE, steps);
    assert |s.ops| > 0 ==> s.ops[0] in s.ops && s.op[s.ops[0]].coro in s.awaiting.Keys;
  }

  // ---- Mutual exclusion ----

  /** Whoever has the lock has it until it frees it itself. */
  lemma OwnerKept(s: Sched, step: Step, c: Coro)
    requires s.owner == Some(c) && Apply(s, step).owner != Some(c)
    ensures (step.Release? || step.Leave?) && s.running == Some(c) && Apply(s, step).owner == None
  {
    OwnerMoves(s, step);
  }

  /** Who has the lock after an entry or a hand-over. */
  lemma EntryOwner(s: Sched, c: Coro, id: OpId)
    requires id in s.op
    ensures IterEnter(s, c, id).owner == if s.owner.Some? then s.owner else Some(c)
    ensures s.owner.None? ==> IterEnter(s, c, id).running == s.running
    ensures IterLeave(s, id).owner == None
  {
  }

  /** Only four calls touch the lock: two free it, by its owner, and two take it while it is free. */
  lemma OwnerMoves(s: Sched, step: Step)
    requires Apply(s, step).owner != s.owner
    ensures s.running.Some? || step.Dispatch?
    ensures if step.Release? || step.Leave? then s.owner == s.running && Apply(s, step).owner == None
            else (step.TryLock? || step.Enter? || step.Dispatch?) && s.owner == None
                 && Apply(s, step).owner.Some? && Apply(s, step).running == Apply(s, step).owner
    ensures step.Dispatch? ==> Apply(s, step).owner == Some(step.c)
  {
    match step
    case Dispatch(c) => DispatchOwner(s, c);
    case Enter(id) => EntryOwner(NewOp(s, s.running.value, id, true), s.running.value, id);
    case Leave(id) => EntryOwner(NewOp(s, s.running.value, id, false), s.running.value, id);
    case _ =>
  }

  lemma DispatchOwner(s: Sched, c: Coro)
    requires Apply(s, Dispatch(c)).owner != s.owner
    ensures var s' := Apply(s, Dispatch(c));
            s.owner == None && s'.owner == Some(c) && s'.running == Some(c)
  {
    EntryOwner(Wakeup(s, c).(running := Some(c)), c, s.awaiting[c]);
  }

  /** The lock is only ever taken when it is free, and by the coroutine that runs. */
  lemma OwnerTaken(s: Sched, step: Step, c: Coro)
    requires s.owner != Some(c) && Apply(s, step).owner == Some(c)
    ensures s.owner == None && Apply(s, step).running == Some(c)
    ensures step == TryLock || step == Dispatch(c) || step.Enter?
  {
    OwnerMoves(s, step);
  }

  /** A coroutine that runs gets a free lock, by either call. */
  lemma FreeIsTaken(s: Sched, c: Coro, id: OpId)
    requires s.running == Some(c) && s.owner == None && c !in s.lockop && id !in s.op
    ensures Apply(s, TryLock).owner == Some(c) && Apply(s, Enter(id)).owner == Some(c)
    ensures Apply(s, TryLock).running == Some(c) && Apply(s, Enter(id)).running == Some(c)
  {
  }

  /** The owner can free it by either call; calls by anybody else, and a second entry, are errors that change
      nothing. */
  lemma OwnerFrees(s: Sched, c: Coro, id: OpId)
    requires s.running == Some(c) && c !in s.lockop && id !in s.op
    ensures s.owner == Some(c) ==> Apply(s, Release).owner == None && Apply(s, Leave(id)).owner == None
    ensures s.owner != Some(c) ==> Apply(s, Release) == s && Apply(s, Leave(id)) == s
    ensures s.owner == Some(c) ==> Apply(s, Enter(id)) == s
    ensures s.owner.Some? ==> Apply(s, TryLock) == s
  {
  }

  ghost predicate FreedAt(s: Sched, steps: seq<Step>, c: Coro, k: nat) {
    k < |steps| && (steps[k].Release? || steps[k].Leave?) && Run(s, steps[..k]).running == Some(c)
  }

  /** In every run: a coroutine that has the lock and later has not freed it itself in between. */
  lemma {:induction false} OwnerUntilFreed(s: Sched, steps: seq<Step>, c: Coro)
    requires s.owner == Some(c) && Run(s, steps).owner != Some(c)
    ensures exists k :: FreedAt(s, steps, c, k)
    decreases |steps|
  {
    var s' := Apply(s, steps[0]);
    if s'.owner == Some(c) {
      OwnerUntilFreed(s', steps[1..], c);
      var k: nat :| FreedAt(s', steps[1..], c, k);
      assert steps[..k + 1][1..] == steps[1..][..k];
      assert FreedAt(s, steps, c, k + 1);
    } else {
      OwnerKept(s, steps[0], c);
      assert steps[..0] == [];
      assert FreedAt(s, steps, c, 0);
    }
  }

  // ---- First come, first served ----

  lemma WithoutHead<T>(l: seq<T>)
    requires l != [] && Distinct(l)
    ensures Without(l, l[0]) == l[1..]
  {
    WithoutAbsent(l[1..], l[0]);
  }

  lemma {:induction false} WithoutAbsent<T>(l: seq<T>, x: T)
    requires x !in l
    ensures Without(l, x) == l
  {
    if l != [] {
      WithoutAbsent(l[1..], x);
    }
  }

  /** Freeing the lock wakes the one that waits at the head of the list, and only that one leaves it. */
  lemma ReleaseServesFirst(s: Sched)
    requires Inv(s) && s.ops != []
    ensures s.ops[0] in s.op && DoRelease(s).ops == s.ops[1..] && Ready(DoRelease(s), s.op[s.ops[0]].coro)
  {
    assert s.ops[0] in s.ops;
    WithoutHead(s.ops);
    var s0 := s.(owner := None);
    assert FirstLocking(s0, s0.ops) == Some(s.ops[0]);
    NotifyKeeps(Retire(s0, s.ops[0]), s.op[s.ops[0]].coro);
  }

  /** A waiter that resumes has the lock if it is free; if somebody was faster it waits again, ahead of all others. */
  lemma ResumedFirst(s: Sched, c: Coro)
    requires Inv(s) && s.running == None && Ready(s, c) && c in s.awaiting
    ensures var s' := Apply(s, Dispatch(c));
            if s.owner == None then s'.owner == Some(c) && s'.running == Some(c) && c !in s'.awaiting
            else s'.owner == s.owner && s'.running == None && !Ready(s', c) && c in s'.awaiting
                 && (c in s.lockop || s'.ops == [s.awaiting[c]] + s.ops)
  {
    WakeupInv(s, c);
  }

  /** Whoever finds the lock taken goes behind all that wait, and sleeps. */
  lemma EnterWaitsLast(s: Sched, c: Coro, id: OpId)
    requires Inv(s) && s.running == Some(c) && c !in s.lockop && id !in s.op && s.owner.Some? && s.owner != Some(c)
    ensures var s' := Apply(s, Enter(id));
            s'.ops == s.ops + [id] && s'.owner == s.owner && s'.running == None && !Ready(s', c) && c in s'.awaiting
  {
  }

  // ---- Killing a coroutine ----

  /** `kore_python_coro_delete` of a coroutine that is not running. */
  function Kill(s: Sched, c: Coro): (s': Sched) {
    var s1 := if c in s.lockop then Retire(s, s.lockop[c]) else s;
    s1.(awaiting := s1.awaiting - {c}, state := s1.state - {c}, runnable := Without(s1.runnable, c),
        suspended := Without(s1.suspended, c), awake := s1.awake - {c})
  }

  /** Killing a waiter can lose a wake-up, and does so exactly when the lock is free, the victim is the only
      waiter that was woken, and somebody else waits. */
  lemma KillExact(s: Sched, c: Coro)
    requires NoLostWakeup(s) && c in s.state && s.running != Some(c) && s.owner != Some(c)
    ensures !NoLostWakeup(Kill(s, c)) <==>
      && s.owner.None? && c in s.awaiting && Ready(s, c)
      && (exists d :: d in s.awaiting && d != c)
      && (forall d :: d in s.awaiting && d != c ==> !Ready(s, d))
  {
    var s' := Kill(s, c);
    KillFields(s, c);
    if !NoLostWakeup(s') {
      var d :| d in s'.awaiting.Keys;
      assert d in s.awaiting && d in s.awaiting.Keys;
      var r :| r in s.awaiting && Ready(s, r);
      assert r != c ==> r in s'.awaiting && Ready(s', r);
    }
    if d :| d in s.awaiting && d != c {
      assert d in s'.awaiting.Keys;
    }
  }

  lemma KillFields(s: Sched, c: Coro)
    ensures Kill(s, c).owner == s.owner
    ensures forall d :: d in Kill(s, c).awaiting <==> d in s.awaiting && d != c
    ensures forall d :: d != c ==> (Ready(Kill(s, c), d) <==> Ready(s, d))
  {
  }

  lemma {:induction false} RunJoins(s: Sched, a: seq<Step>, b: seq<Step>)
    ensures Run(s, a + b) == Run(Run(s, a), b)
    decreases |a|
  {
    if a == [] {
      assert a + b == b;
    } else {
      assert (a + b)[1..] == a[1..] + b;
      RunJoins(Apply(s, a[0]), a[1..], b);
    }
  }

  lemma {:induction false} RunTwo(s: Sched, a: Step, b: Step)
    ensures Run(s, [a, b]) == Apply(Apply(s, a), b)
  {
    assert [a, b][1..] == [b] && [b][1..] == [];
    assert Run(Apply(s, a), [b]) == Run(Apply(Apply(s, a), b), []);
  }

  /** What a step of a coroutine without a request depends on. */
  datatype View = View(owner: Option<Coro>, ops: seq<OpId>, op: map<OpId, Op>, lockop: map<Coro, OpId>,
                       awaiting: map<Coro, OpId>, state: map<Coro, CoroState>, running: Option<Coro>)

  ghost function ViewOf(s: Sched): View {
    View(s.owner, s.ops, s.op, s.lockop, s.awaiting, s.state, s.running)
  }

  ghost predicate Looks(s: Sched, v: View) {
    ViewOf(s) == v && s.requests == {} && s.awake == {}
  }

  lemma SpawnLooks(s: Sched, v: View, c: Coro)
    requires Looks(s, v) && c !in v.state
    ensures Looks(Apply(s, Spawn(c, false)), v.(state := v.state[c := Runnable]))
  {
  }

  lemma DispatchLooks(s: Sched, v: View, c: Coro)
    requires Looks(s, v) && v.running == None && c in v.state && v.state[c] == Runnable && c !in v.awaiting
    ensures Looks(Apply(s, Dispatch(c)), v.(running := Some(c)))
  {
  }

  lemma EnterFreeLooks(s: Sched, v: View, c: Coro, id: OpId)
    requires Looks(s, v) && v.running == Some(c) && v.owner == None && v.ops == [] && v.lockop == map[] && v.awaiting == map[] && id !in v.op
    ensures Looks(Apply(s, Enter(id)), v.(owner := Some(c), op := v.op[id := Op(c, true, false)]))
  {
    assert Without([id], id) == [];
    assert [] + [id] == [id];
  }

  lemma EnterTakenLooks(s: Sched, v: View, c: Coro, id: OpId)
    requires Looks(s, v) && v.running == Some(c) && v.owner.Some? && v.owner != v.running && id !in v.op
    requires c !in v.lockop && c in v.state && v.state[c] == Runnable
    ensures Looks(Apply(s, Enter(id)), v.(op := v.op[id := Op(c, true, true)], lockop := v.lockop[c := id], ops := v.ops + [id],
              awaiting := v.awaiting[c := id], state := v.state[c := Suspended], running := None))
  {
  }

  lemma YieldLooks(s: Sched, v: View, c: Coro)
    requires Looks(s, v) && v.running == Some(c) && c in v.state && v.state[c] == Runnable
    ensures Looks(Apply(s, Yield), v.(state := v.state[c := Suspended], running := None))
  {
  }

  lemma WakeLooks(s: Sched, v: View, c: Coro)
    requires Looks(s, v) && c in v.state && v.state[c] == Suspended
    ensures Looks(Apply(s, Wake(c)), v.(state := v.state[c := Runnable]))
  {
  }

  lemma {:induction false} ReleaseLooks(s: Sched, v: View, c: Coro, id: OpId, w: Coro)
    requires Looks(s, v) && v.running == Some(c) && v.owner == Some(c) && v.ops != [] && v.ops[0] == id
    requires id in v.op && v.op[id] == Op(w, true, true) && w in v.state && v.state[w] == Suspended
    ensures Looks(Apply(s, Release), v.(owner := None, op := v.op[id := Op(w, true, false)], lockop := v.lockop - {w},
              ops := Without(v.ops, id), state := v.state[w := Runnable]))
  {
  }

  // A run that leaves a woken waiter beside one that is not: 0 takes the lock, 1 and 2 wait for it, 0 frees it.

  ghost predicate Reached(v: View) {
    exists steps :: Looks(Run(IDLE, steps), v)
  }

  lemma {:induction false} ReachOn(steps: seq<Step>, more: seq<Step>, v: View)
    requires Looks(Run(Run(IDLE, steps), more), v)
    ensures Reached(v)
  {
    RunJoins(IDLE, steps, more);
    assert Looks(Run(IDLE, steps + more), v);
  }

  ghost function Started(): View {
    View(None, [], map[], map[], map[], map[0 := Runnable, 1 := Runnable, 2 := Runnable], Some(0))
  }

  ghost function Taken(): View {
    View(Some(0), [], map[10 := Op(0, true, false)], map[], map[], map[0 := Suspended, 1 := Runnable, 2 := Runnable], None)
  }

  ghost function Waiting(): View {
    View(Some(0), [11], map[10 := Op(0, true, false), 11 := Op(1, true, true)], map[1 := 11], map[1 := 11],
         map[0 := Suspended, 1 := Suspended, 2 := Runnable], None)
  }

  ghost function Contended(): View {
    View(Some(0), [11, 12], map[10 := Op(0, true, false), 11 := Op(1, true, true), 12 := Op(2, true, true)],
         map[1 := 11, 2 := 12], map[1 := 11, 2 := 12], map[0 := Suspended, 1 := Suspended, 2 := Suspended], None)
  }

  ghost function Resumed(): View {
    Contended().(state := map[0 := Runnable, 1 := Suspended, 2 := Suspended], running := Some(0))
  }

  ghost function Freed(): View {
    View(None, [12], map[10 := Op(0, true, false), 11 := Op(1, true, false), 12 := Op(2, true, true)],
         map[2 := 12], map[1 := 11, 2 := 12], map[0 := Runnable, 1 := Runnable, 2 := Suspended], Some(0))
  }

  lemma SpawnRun()
    ensures Reached(ViewOf(IDLE).(state := map[0 := Runnable, 1 := Runnable]))
  {
    RunTwo(IDLE, Spawn(0, false), Spawn(1, false));
    SpawnLooks(IDLE, ViewOf(IDLE), 0);
    SpawnLooks(Apply(IDLE, Spawn(0, false)), ViewOf(IDLE).(state := map[0 := Runnable]), 1);
    assert Looks(Run(IDLE, [Spawn(0, false), Spawn(1, false)]), ViewOf(IDLE).(state := map[0 := Runnable, 1 := Runnable]));
  }

  lemma StartRun()
    requires Reached(ViewOf(IDLE).(state := map[0 := Runnable, 1 := Runnable]))
    ensures Reached(Started())
  {
    var v := ViewOf(IDLE).(state := map[0 := Runnable, 1 := Runnable]);
    var steps :| Looks(Run(IDLE, steps), v);
    var s := Run(IDLE, steps);
    RunTwo(s, Spawn(2, false), Dispatch(0));
    SpawnLooks(s, v, 2);
    DispatchLooks(Apply(s, Spawn(2, false)), Started().(running := None), 0);
    ReachOn(steps, [Spawn(2, false), Dispatch(0)], Started());
  }

  lemma TakeRun()
    requires Reached(Started())
    ensures Reached(Taken())
  {
    var steps :| Looks(Run(IDLE, steps), Started());
    var s := Run(IDLE, steps);
    RunTwo(s, Enter(10), Yield);
    EnterFreeLooks(s, Started(), 0, 10);
    YieldLooks(Apply(s, Enter(10)), Started().(owner := Some(0), op := map[10 := Op(0, true, false)]), 0);
    ReachOn(steps, [Enter(10), Yield], Taken());
  }

  lemma WaitRun()
    requires Reached(Taken())
    ensures Reached(Waiting())
  {
    var steps :| Looks(Run(IDLE, steps), Taken());
    var s := Run(IDLE, steps);
    RunTwo(s, Dispatch(1), Enter(11));
    DispatchLooks(s, Taken(), 1);
    EnterTakenLooks(Apply(s, Dispatch(1)), Taken().(running := Some(1)), 1, 11);
    ReachOn(steps, [Dispatch(1), Enter(11)], Waiting());
  }

  lemma ContendRun()
    requires Reached(Waiting())
    ensures Reached(Contended())
  {
    var steps :| Looks(Run(IDLE, steps), Waiting());
    var s := Run(IDLE, steps);
    RunTwo(s, Dispatch(2), Enter(12));
    DispatchLooks(s, Waiting(), 2);
    EnterTakenLooks(Apply(s, Dispatch(2)), Waiting().(running := Some(2)), 2, 12);
    ReachOn(steps, [Dispatch(2), Enter(12)], Contended());
  }

  lemma WokenView()
    ensures Contended().(state := Contended().state[0 := Runnable]) == Resumed().(running := None)
  {
  }

  lemma WakeRun()
    requires Reached(Contended())
    ensures Reached(Resumed().(running := None))
  {
    var steps :| Looks(Run(IDLE, steps), Contended());
    var s := Run(IDLE, steps);
    WakeLooks(s, Contended(), 0);
    WokenView();
    assert Run(s, [Wake(0)]) == Run(Apply(s, Wake(0)), []);
    ReachOn(steps, [Wake(0)], Resumed().(running := None));
  }

  lemma ResumeRun()
    requires Reached(Resumed().(running := None))
    ensures Reached(Resumed())
  {
    var v := Resumed().(running := None);
    var steps :| Looks(Run(IDLE, steps), v);
    var s := Run(IDLE, steps);
    DispatchLooks(s, v, 0);
    assert Run(s, [Dispatch(0)]) == Run(Apply(s, Dispatch(0)), []);
    ReachOn(steps, [Dispatch(0)], Resumed());
  }

  lemma FreedView()
    ensures var v := Resumed();
            v.(owner := None, op := v.op[11 := Op(1, true, false)], lockop := v.lockop - {1}, ops := Without(v.ops, 11),
               state := v.state[1 := Runnable]) == Freed()
  {
    assert Without([11, 12], 11) == Without([12], 11) == [12];
  }

  lemma FreedRun()
    requires Reached(Resumed())
    ensures Reached(Freed())
  {
    var steps :| Looks(Run(IDLE, steps), Resumed());
    var s := Run(IDLE, steps);
    ReleaseLooks(s, Resumed(), 0, 11, 1);
    assert Run(s, [Release]) == Run(Apply(s, Release), []);
    FreedView();
    ReachOn(steps, [Release], Freed());
  }

  ghost predicate LosesWakeup(steps: seq<Step>, c: Coro) {
    var s := Run(IDLE, steps);
    s.running != Some(c) && s.owner != Some(c) && NoLostWakeup(s) && !NoLostWakeup(Kill(s, c))
  }

  lemma {:induction false} OnlyOneWoken(steps: seq<Step>)
    requires Looks(Run(IDLE, steps), Freed())
    ensures LosesWakeup(steps, 1)
  {
    NoLostWakeupInAnyRun(steps);
    assert 2 in Freed().awaiting;
    KillExact(Run(IDLE, steps), 1);
  }

  /** The state in which killing loses a wake-up is reached in a run from the start. */
  lemma KillLosesWakeup()
    ensures exists steps, c :: LosesWakeup(steps, c)
  {
    SpawnRun();
    StartRun();
    TakeRun();
    WaitRun();
    ContendRun();
    WakeRun();
    ResumeRun();
    FreedRun();
    var steps :| Looks(Run(IDLE, steps), Freed());
    OnlyOneWoken(steps);
  }

  // ---- The code ----

  class Scheduler {
    var owner: Option<Coro>
    var ops: seq<OpId>
    var op: map<OpId, Op>
    var lockop: map<Coro, OpId>
    var awaiting: map<Coro, OpId>
    var state: map<Coro, CoroState>
    var runnable: seq<Coro>
    var suspended: seq<Coro>
    var requests: set<Coro>
    var awake: set<Coro>
    var running: Option<Coro>

    ghost function Abs(): Sched
      reads this
    {
      Sched(owner, ops, op, lockop, awaiting, state, runnable, suspended, requests, awake, running)
    }

    /** `python_coro_wakeup` */
    method CoroWakeup(c: Coro)
      modifies this`state, this`suspended, this`runnable
      ensures Abs() == Wakeup(old(Abs()), c)
    {
      if c !in state || state[c] != Suspended {
        return;
      }
      state := state[c := Runnable];
      suspended := Without(suspended, c);
      runnable := runnable + [c];
    }

    /** `python_coro_suspend`, `http_request_sleep` and the end of `python_coro_run` */
    method CoroSuspend(c: Coro)
      modifies this`state, this`suspended, this`runnable, this`awake, this`running
      ensures Abs() == Suspend(old(Abs()), c)
    {
      if c !in state || state[c] != Runnable {
        return;
      }
      state := state[c := Suspended];
      runnable := Without(runnable, c);
      suspended := suspended + [c];
      awake := awake - {c};
      running := None;
    }

    method Remove(id: OpId)
      requires id in op
      modifies this`op, this`lockop, this`ops
      ensures Abs() == Retire(old(Abs()), id)
    {
      lockop := lockop - {op[id].coro};
      op := op[id := op[id].(active := false)];
      ops := Without(ops, id);
    }

    /** `pylock_do_release`: walk the list for the first operation that enters. */
    method Free()
      modifies this
      ensures Abs() == DoRelease(old(Abs()))
    {
      owner := None;
      ghost var s0 := Abs();
      var i := 0;
      while i < |ops|
        invariant 0 <= i <= |ops| && Abs() == s0
        invariant FirstLocking(s0, ops) == FirstLocking(s0, ops[i..])
      {
        var id := ops[i];
        if id in op && op[id].locking {
          var c := op[id].coro;
          Remove(id);
          if c in requests {
            awake := awake + {c};
          } else {
            CoroWakeup(c);
          }
          return;
        }
        assert ops[i..][1..] == ops[i + 1..];
        i := i + 1;
      }
    }

    /** `pylock_op_iternext` of an entering operation, and the suspension it asks for. */
    method EnterNext(c: Coro, id: OpId)
      requires id in op && op[id].coro == c
      modifies this
      ensures Abs() == IterEnter(old(Abs()), c, id)
    {
      if owner.Some? {
        if !op[id].active {
          op := op[id := op[id].(active := true)];
          lockop := lockop[c := id];
          ops := [id] + ops;
        }
        awaiting := awaiting[c := id];
        CoroSuspend(c);
        return;
      }
      owner := Some(c);
      awaiting := awaiting - {c};
      if op[id].active {
        Remove(id);
      }
    }

    /** `pylock_op_iternext` of a leaving operation. */
    method LeaveNext(id: OpId)
      requires id in op
      modifies this
      ensures Abs() == IterLeave(old(Abs()), id)
    {
      Free();
      if id in op && op[id].active {
        Remove(id);
      }
    }

    /** `pylock_trylock` */
    method TryLock() returns (ok: bool)
      requires running.Some?
      modifies this`owner
      ensures Abs() == Apply(old(Abs()), Step.TryLock) && (ok <==> old(owner) == None) && (ok ==> owner == running)
    {
      if owner.Some? {
        return false;
      }
      owner := running;
      return true;
    }

    /** `pylock_release`; false is an error raised in Python. */
    method Release() returns (ok: bool)
      requires running.Some?
      modifies this
      ensures Abs() == Apply(old(Abs()), Step.Release) && (ok <==> old(owner) == old(running)) && (ok ==> owner == None)
    {
      if owner.None? || owner.value != running.value {
        return false;
      }
      Free();
      return true;
    }

    method Append(id: OpId, locking: bool)
      requires running.Some?
      modifies this`op, this`lockop, this`ops
      ensures Abs() == NewOp(old(Abs()), running.value, id, locking)
    {
      op := op[id := Op(running.value, locking, true)];
      lockop := lockop[running.value := id];
      ops := ops + [id];
    }

    /** `pylock_aenter` and the first iteration of the operation it returns. */
    method Enter(id: OpId) returns (ok: bool)
      requires running.Some? && id !in op && running.value !in lockop
      modifies this
      ensures Abs() == Apply(old(Abs()), Step.Enter(id)) && (ok <==> old(owner) != old(running))
    {
      if owner.Some? && owner.value == running.value {
        return false;
      }
      Append(id, true);
      EnterNext(running.value, id);
      return true;
    }

    /** `pylock_aexit` and the first iteration of the operation it returns. */
    method Leave(id: OpId) returns (ok: bool)
      requires running.Some? && id !in op && running.value !in lockop
      modifies this
      ensures Abs() == Apply(old(Abs()), Step.Leave(id)) && (ok <==> old(owner) == old(running)) && (ok ==> owner == None)
    {
      if owner.None? || owner.value != running.value {
        return false;
      }
      Append(id, false);
      LeaveNext(id);
      return true;
    }
  }
}
