/** `workflow.c`: the durable job queue as a protocol between any number of workers and callers. Every step
    is one critical section under the database mutex; a handler runs between a claim and a finish. */
module Workflow {
  import opened Bytes

  const MAX_RETRIES: nat := 5      // WORKFLOW_MAX_RETRIES
  const BACKOFF_BASE: nat := 3     // WORKFLOW_BACKOFF_BASE

  type Id = nat                    // a UUID
  type Worker = nat

  datatype Status = Pending | Running | Done | Failed

  /** A row of the table. */
  datatype Job = Job(kind: string, payload: string, status: Status, retryCount: nat, runAt: int, createdAt: int)

  /** What happened to a job, from the outside: when its handler was started, when it failed, and whether
      the job was cancelled. */
  datatype History = History(starts: seq<int>, fails: seq<int>, cancelled: bool)

  datatype Row = Row(job: Job, hist: History)

  /** What a worker remembers between its two critical sections. */
  datatype Claim = Claim(id: Id, retry: nat)

  datatype Queue = Queue(rows: map<Id, Row>, held: map<Worker, Claim>, clock: int)

  datatype Step =
    | Enqueue(id: Id, kind: string, payload: string, now: int, delay: int)
    | Take(w: Worker, id: Id, now: int)
    | Finish(w: Worker, ok: bool, now: int)
    | Cancel(id: Id)
    | Purge(cutoff: int)

  const EMPTY: Queue := Queue(map[], map[], 0)

  /** `SELECT ... WHERE status='pending' AND run_at <= now ORDER BY run_at LIMIT 1` may return this job. */
  ghost predicate Oldest(rows: map<Id, Row>, id: Id, now: int) {
    && id in rows && rows[id].job.status.Pending? && rows[id].job.runAt <= now
    && forall o :: o in rows && rows[o].job.status.Pending? && rows[o].job.runAt <= now ==> rows[id].job.runAt <= rows[o].job.runAt
  }

  /** The row of a job whose handler has returned to a worker that saw `retry` earlier failures. */
  ghost function Settled(row: Row, retry: nat, ok: bool, now: int): Row {
    if ok then row.(job := row.job.(status := Done))
    else
      var n := retry + 1;
      var hist := row.hist.(fails := row.hist.fails + [now]);
      if n >= MAX_RETRIES then Row(row.job.(status := Failed, retryCount := n), hist)
      else Row(row.job.(status := Pending, retryCount := n, runAt := now + Pow(BACKOFF_BASE, n)), hist)
  }

  ghost function Started(row: Row, now: int): Row {
    Row(row.job.(status := Running), row.hist.(starts := row.hist.starts + [now]))
  }

  ghost predicate Stale(row: Row, cutoff: int) {
    (row.job.status.Done? || row.job.status.Failed?) && row.job.createdAt < cutoff
  }

  /** What a step does; a step that is not possible does nothing. */
  ghost function Apply(q: Queue, step: Step): Queue {
    match step
    case Enqueue(id, kind, payload, now, delay) =>
      if id in q.rows then q
      else q.(rows := q.rows[id := Row(Job(kind, payload, Pending, 0, now + delay, now), History([], [], false))])
    case Take(w, id, now) =>
      if w in q.held || !Oldest(q.rows, id, now) then q
      else Queue(q.rows[id := Started(q.rows[id], now)], q.held[w := Claim(id, q.rows[id].job.retryCount)], now)
    case Finish(w, ok, now) =>
      if w !in q.held then q
      else
        var Claim(id, retry) := q.held[w];
        Queue(if id in q.rows then q.rows[id := Settled(q.rows[id], retry, ok, now)] else q.rows, q.held - {w}, now)
    case Cancel(id) =>
      if id !in q.rows || !q.rows[id].job.status.Pending? then q
      else
        var row := q.rows[id];
        q.(rows := q.rows[id := Row(row.job.(status := Failed), row.hist.(cancelled := true))])
    case Purge(cutoff) =>
      q.(rows := map id | id in q.rows && !Stale(q.rows[id], cutoff) :: q.rows[id])
  }

  /** A job by itself: its retry count is the number of failed runs, its handler is started at most once
      more than it failed and never more than five times, and a cancelled job stays failed. */
  ghost predicate RowOk(row: Row) {
    var Job(_, _, status, retry, _, _) := row.job;
    && |row.hist.fails| == retry
    && |row.hist.starts| == retry + (if status.Running? || status.Done? then 1 else 0)
    && (!status.Failed? ==> retry < MAX_RETRIES) && retry <= MAX_RETRIES
    && (row.hist.cancelled ==> status.Failed?)
  }

  /** Workers and running rows correspond one to one, and a worker's snapshot is still the row's count. */
  ghost predicate HoldsOk(q: Queue) {
    && (forall w :: w in q.held ==>
          q.held[w].id in q.rows && q.rows[q.held[w].id].job.status.Running? && q.rows[q.held[w].id].job.retryCount == q.held[w].retry)
    && (forall w, v :: w in q.held && v in q.held && q.held[w].id == q.held[v].id ==> w == v)
    && (forall id :: id in q.rows && q.rows[id].job.status.Running? ==> HeldBy(q, id))
  }

  ghost predicate HeldBy(q: Queue, id: Id) {
    exists w :: w in q.held && q.held[w].id == id
  }

  ghost predicate Safe(q: Queue) {
    HoldsOk(q) && forall id :: id in q.rows ==> RowOk(q.rows[id])
  }

  lemma TakeSafe(q: Queue, w: Worker, id: Id, now: int)
    requires Safe(q)
    ensures Safe(Apply(q, Take(w, id, now)))
  {
    var q' := Apply(q, Take(w, id, now));
    if w !in q.held && Oldest(q.rows, id, now) {
      assert q'.held[w].id == id;
      forall o | o in q'.rows && q'.rows[o].job.status.Running? && o != id
        ensures HeldBy(q', o)
      {
        assert HeldBy(q, o);
        var v :| v in q.held && q.held[v].id == o;
        assert v in q'.held && q'.held[v].id == o;
      }
    }
  }

  lemma FinishSafe(q: Queue, w: Worker, ok: bool, now: int)
    requires Safe(q)
    ensures Safe(Apply(q, Finish(w, ok, now)))
  {
    var q' := Apply(q, Finish(w, ok, now));
    if w in q.held {
      var id := q.held[w].id;
      assert RowOk(q.rows[id]);
      forall o | o in q'.rows && q'.rows[o].job.status.Running?
        ensures HeldBy(q', o)
      {
        assert o != id;
        assert HeldBy(q, o);
        var v :| v in q.held && q.held[v].id == o;
        assert v in q'.held && q'.held[v].id == o;
      }
    }
  }

  /** Rows that do not run may come, change and go. */
  lemma IdleRows(q: Queue, q': Queue)
    requires Safe(q) && q'.held == q.held
    requires forall id :: id in q'.rows && q'.rows[id].job.status.Running? ==> id in q.rows && q.rows[id].job.status.Running?
    requires forall id :: id in q.rows && q.rows[id].job.status.Running? ==> id in q'.rows && q'.rows[id] == q.rows[id]
    ensures HoldsOk(q')
  {
    forall o | o in q'.rows && q'.rows[o].job.status.Running?
      ensures HeldBy(q', o)
    {
      assert HeldBy(q, o);
    }
  }

  lemma OtherSafe(q: Queue, step: Step)
    requires Safe(q) && !step.Take? && !step.Finish?
    ensures Safe(Apply(q, step))
  {
    IdleRows(q, Apply(q, step));
  }

  lemma StepSafe(q: Queue, step: Step)
    requires Safe(q)
    ensures Safe(Apply(q, step))
  {
    match step
    case Take(w, id, now) => TakeSafe(q, w, id, now);
    case Finish(w, ok, now) => FinishSafe(q, w, ok, now);
    case _ => OtherSafe(q, step);
  }

  ghost function Run(q: Queue, steps: seq<Step>): Queue
    decreases |steps|
  {
    if steps == [] then q else Run(Apply(q, steps[0]), steps[1..])
  }

  /** In every interleaving of any length the queue is safe. */
  lemma {:induction false} RunSafe(q: Queue, steps: seq<Step>)
    requires Safe(q)
    ensures Safe(Run(q, steps))
    decreases |steps|
  {
    if steps != [] {
      StepSafe(q, steps[0]);
      RunSafe(Apply(q, steps[0]), steps[1..]);
    }
  }

  /** No handler is started more than five times, whatever the interleaving. */
  lemma {:induction false} BoundedStarts(steps: seq<Step>, id: Id)
    requires id in Run(EMPTY, steps).rows
    ensures var row := Run(EMPTY, steps).rows[id];
            |row.hist.starts| <= 5 && row.job.retryCount == |row.hist.fails|
  {
    RunSafe(EMPTY, steps);
    assert RowOk(Run(EMPTY, steps).rows[id]);
  }

  lemma StepKeepsFinal(q: Queue, step: Step, id: Id)
    requires Safe(q) && id in q.rows && (q.rows[id].job.status.Done? || q.rows[id].job.status.Failed?)
    requires !(step.Purge? && Stale(q.rows[id], step.cutoff))
    ensures id in Apply(q, step).rows && Apply(q, step).rows[id] == q.rows[id]
  {
  }

  /** Done and failed are final: such a row stays exactly as it is until it is purged. */
  lemma {:induction false} FinalUntilPurged(q: Queue, steps: seq<Step>, id: Id)
    requires Safe(q) && id in q.rows && (q.rows[id].job.status.Done? || q.rows[id].job.status.Failed?)
    requires forall s :: s in steps ==> !(s.Purge? && Stale(q.rows[id], s.cutoff))
    ensures id in Run(q, steps).rows && Run(q, steps).rows[id] == q.rows[id]
    decreases |steps|
  {
    if steps != [] {
      StepSafe(q, steps[0]);
      StepKeepsFinal(q, steps[0], id);
      FinalUntilPurged(Apply(q, steps[0]), steps[1..], id);
    }
  }

  lemma {:induction false} AbsentStays(q: Queue, steps: seq<Step>, id: Id)
    requires id !in q.rows && forall s :: s in steps ==> !(s.Enqueue? && s.id == id)
    ensures id !in Run(q, steps).rows
    decreases |steps|
  {
    if steps != [] {
      assert steps[0] in steps;
      AbsentStays(Apply(q, steps[0]), steps[1..], id);
    }
  }

  /** A final row is as it was or gone, whatever is purged. */
  lemma {:induction false} FinalOrGone(q: Queue, steps: seq<Step>, id: Id)
    requires Safe(q) && id in q.rows && (q.rows[id].job.status.Done? || q.rows[id].job.status.Failed?)
    requires forall s :: s in steps ==> !(s.Enqueue? && s.id == id)
    ensures id in Run(q, steps).rows ==> Run(q, steps).rows[id] == q.rows[id]
    decreases |steps|
  {
    if steps != [] {
      var step := steps[0];
      assert step in steps;
      StepSafe(q, step);
      if step.Purge? && Stale(q.rows[id], step.cutoff) {
        AbsentStays(Apply(q, step), steps[1..], id);
      } else {
        StepKeepsFinal(q, step, id);
        FinalOrGone(Apply(q, step), steps[1..], id);
      }
    }
  }

  /** A cancelled job never runs again: in every later state no worker has it, and as long as its row is there
      it is failed with no further start. (An id is enqueued once; enqueueing it again would be a new job.) */
  lemma {:induction false} CancelledNeverRuns(q: Queue, steps: seq<Step>, id: Id)
    requires Safe(q) && id in q.rows && q.rows[id].job.status.Pending?
    requires forall s :: s in steps ==> !(s.Enqueue? && s.id == id)
    ensures var q' := Run(Apply(q, Cancel(id)), steps);
            && !HeldBy(q', id)
            && (id in q'.rows ==> q'.rows[id].job.status.Failed? && q'.rows[id].hist.starts == q.rows[id].hist.starts)
  {
    var c := Apply(q, Cancel(id));
    StepSafe(q, Cancel(id));
    FinalOrGone(c, steps, id);
    RunSafe(c, steps);
  }

  // ---- Nothing is lost ----

  /** A job that waits or runs is never dropped. */
  lemma LiveStays(q: Queue, step: Step, id: Id)
    requires Safe(q) && id in q.rows && (q.rows[id].job.status == Pending || q.rows[id].job.status == Running)
    ensures id in Apply(q, step).rows
  {
  }

  /** A purge takes the jobs that are done or failed and were created before the cut-off, and leaves everything
      else as it is. */
  lemma PurgeExact(q: Queue, cutoff: int)
    ensures var q' := Apply(q, Purge(cutoff));
            && q'.held == q.held && q'.rows.Keys <= q.rows.Keys
            && (forall id :: id in q.rows ==>
                  (id !in q'.rows <==> q.rows[id].job.status in {Done, Failed} && q.rows[id].job.createdAt < cutoff))
            && (forall id :: id in q'.rows ==> q'.rows[id] == q.rows[id])
  {
  }

  lemma StepKeepsPending(q: Queue, step: Step, id: Id)
    requires Safe(q) && id in q.rows && q.rows[id].job.status == Pending
    requires !(step.Take? && step.id == id) && !(step.Cancel? && step.id == id)
    ensures id in Apply(q, step).rows && Apply(q, step).rows[id] == q.rows[id]
  {
  }

  /** A job that waits is there, waiting and unchanged, through any run in which nobody takes or cancels it. */
  lemma {:induction false} PendingWaits(q: Queue, steps: seq<Step>, id: Id)
    requires Safe(q) && id in q.rows && q.rows[id].job.status == Pending
    requires forall s :: s in steps ==> !(s.Take? && s.id == id) && !(s.Cancel? && s.id == id)
    ensures id in Run(q, steps).rows && Run(q, steps).rows[id] == q.rows[id]
    decreases |steps|
  {
    if steps != [] {
      assert steps[0] in steps;
      StepSafe(q, steps[0]);
      StepKeepsPending(q, steps[0], id);
      PendingWaits(Apply(q, steps[0]), steps[1..], id);
    }
  }

  /** A job that runs goes on until its own worker is finished with it. */
  lemma {:induction false} RunningStays(q: Queue, steps: seq<Step>, w: Worker)
    requires Safe(q) && w in q.held
    requires forall s :: s in steps ==> !(s.Finish? && s.w == w)
    ensures var id := q.held[w].id;
            var q' := Run(q, steps);
            w in q'.held && q'.held[w] == q.held[w] && id in q'.rows && q'.rows[id] == q.rows[id]
    decreases |steps|
  {
    if steps != [] {
      assert steps[0] in steps;
      StepSafe(q, steps[0]);
      StepKeepsRunning(q, steps[0], w);
      RunningStays(Apply(q, steps[0]), steps[1..], w);
    }
  }

  lemma StepKeepsRunning(q: Queue, step: Step, w: Worker)
    requires Safe(q) && w in q.held && !(step.Finish? && step.w == w)
    ensures var id := q.held[w].id;
            var q' := Apply(q, step);
            w in q'.held && q'.held[w] == q.held[w] && id in q'.rows && q'.rows[id] == q.rows[id]
  {
  }

  // ---- Backoff ----

  /** The start after failure number `k` waited for its backoff. */
  ghost predicate Waited(h: History, k: int) {
    1 <= k < |h.starts| && k <= |h.fails| ==> h.starts[k] >= h.fails[k - 1] + Pow(BACKOFF_BASE, k)
  }

  ghost predicate InOrder(h: History, k: int, clock: int) {
    && (0 <= k < |h.starts| ==> h.starts[k] <= clock)
    && (0 <= k < |h.fails| && k < |h.starts| ==> h.starts[k] <= h.fails[k] <= clock)
  }

  /** With a clock that never goes back, every retry waits for its backoff. */
  ghost predicate RowTimed(row: Row, clock: int) {
    && (forall k :: InOrder(row.hist, k, clock)) && (forall k :: Waited(row.hist, k))
    && (row.job.status.Pending? && |row.hist.fails| > 0 ==>
          row.job.runAt >= row.hist.fails[|row.hist.fails| - 1] + Pow(BACKOFF_BASE, |row.hist.fails|))
  }

  ghost predicate Timed(q: Queue) {
    forall id :: id in q.rows ==> RowTimed(q.rows[id], q.clock)
  }

  ghost predicate Ticks(q: Queue, step: Step) {
    (step.Take? || step.Finish?) ==> step.now >= q.clock
  }

  ghost predicate TicksAll(q: Queue, steps: seq<Step>)
    decreases |steps|
  {
    steps == [] || (Ticks(q, steps[0]) && TicksAll(Apply(q, steps[0]), steps[1..]))
  }

  lemma LaterTimed(row: Row, clock: int, clock': int)
    requires RowTimed(row, clock) && clock <= clock'
    ensures RowTimed(row, clock')
  {
    forall k ensures InOrder(row.hist, k, clock') {
      assert InOrder(row.hist, k, clock);
    }
  }

  lemma StartedTimed(row: Row, clock: int, now: int)
    requires RowOk(row) && RowTimed(row, clock) && clock <= now && row.job.status.Pending? && row.job.runAt <= now
    ensures RowTimed(Started(row, now), now)
  {
    var h := Started(row, now).hist;
    forall k ensures InOrder(h, k, now) && Waited(h, k) {
      assert InOrder(row.hist, k, clock) && Waited(row.hist, k);
    }
  }

  lemma SettledTimed(row: Row, clock: int, ok: bool, now: int)
    requires RowOk(row) && RowTimed(row, clock) && clock <= now && row.job.status.Running?
    ensures RowTimed(Settled(row, row.job.retryCount, ok, now), now)
  {
    var h := Settled(row, row.job.retryCount, ok, now).hist;
    forall k ensures InOrder(h, k, now) && Waited(h, k) {
      assert InOrder(row.hist, k, clock) && Waited(row.hist, k);
    }
  }

  lemma TakeTimed(q: Queue, w: Worker, o: Id, now: int, id: Id)
    requires Safe(q) && Timed(q) && now >= q.clock && id in Apply(q, Take(w, o, now)).rows
    ensures RowTimed(Apply(q, Take(w, o, now)).rows[id], Apply(q, Take(w, o, now)).clock)
  {
    LaterTimed(q.rows[id], q.clock, now);
    if o == id && Oldest(q.rows, o, now) {
      StartedTimed(q.rows[id], q.clock, now);
    }
  }

  lemma FinishTimed(q: Queue, w: Worker, ok: bool, now: int, id: Id)
    requires Safe(q) && Timed(q) && now >= q.clock && id in Apply(q, Finish(w, ok, now)).rows
    ensures RowTimed(Apply(q, Finish(w, ok, now)).rows[id], Apply(q, Finish(w, ok, now)).clock)
  {
    LaterTimed(q.rows[id], q.clock, now);
    if w in q.held && q.held[w].id == id {
      SettledTimed(q.rows[id], q.clock, ok, now);
    }
  }

  lemma OtherTimed(q: Queue, step: Step, id: Id)
    requires Timed(q) && !step.Take? && !step.Finish? && id in Apply(q, step).rows
    ensures RowTimed(Apply(q, step).rows[id], q.clock)
  {
    if id in q.rows && Apply(q, step).rows[id] != q.rows[id] {
      assert forall k :: InOrder(q.rows[id].hist, k, q.clock) ==> InOrder(Apply(q, step).rows[id].hist, k, q.clock);
      assert forall k :: Waited(q.rows[id].hist, k) ==> Waited(Apply(q, step).rows[id].hist, k);
    }
  }

  lemma StepTimed(q: Queue, step: Step)
    requires Safe(q) && Timed(q) && Ticks(q, step)
    ensures Timed(Apply(q, step))
  {
    forall id | id in Apply(q, step).rows
      ensures RowTimed(Apply(q, step).rows[id], Apply(q, step).clock)
    {
      match step
      case Take(w, o, now) => TakeTimed(q, w, o, now, id);
      case Finish(w, ok, now) => FinishTimed(q, w, ok, now, id);
      case _ => OtherTimed(q, step, id);
    }
  }

  lemma {:induction false} RunTimed(q: Queue, steps: seq<Step>)
    requires Safe(q) && Timed(q) && TicksAll(q, steps)
    ensures Safe(Run(q, steps)) && Timed(Run(q, steps))
    decreases |steps|
  {
    if steps != [] {
      StepSafe(q, steps[0]);
      StepTimed(q, steps[0]);
      RunTimed(Apply(q, steps[0]), steps[1..]);
    }
  }

  /** The waits add up: attempt `k + 1` comes no earlier than `3 + 9 + ... + 3^k` seconds after the first
      failure. */
  lemma {:induction false} WaitsAddUp(row: Row, clock: int, k: nat)
    requires RowOk(row) && RowTimed(row, clock) && 1 <= k < |row.hist.starts|
    ensures |row.hist.fails| > 0
    ensures 2 * (row.hist.starts[k] - row.hist.fails[0]) >= Pow(BACKOFF_BASE, k + 1) - 3
    decreases k
  {
    var History(starts, fails, _) := row.hist;
    assert Waited(row.hist, k);
    assert Pow(3, k + 1) == 3 * Pow(3, k);
    if k > 1 {
      WaitsAddUp(row, clock, k - 1);
      assert InOrder(row.hist, k - 1, clock);
    } else {
      assert Pow(3, 1) == 3;
    }
  }

  /** The same for every job of every run. */
  lemma BackoffInEveryRun(steps: seq<Step>, id: Id, k: nat)
    requires TicksAll(EMPTY, steps) && id in Run(EMPTY, steps).rows
    requires 1 <= k < |Run(EMPTY, steps).rows[id].hist.starts|
    ensures var h := Run(EMPTY, steps).rows[id].hist;
            && k <= |h.fails| && h.starts[k] >= h.fails[k - 1] + Pow(BACKOFF_BASE, k)
            && 2 * (h.starts[k] - h.fails[0]) >= Pow(BACKOFF_BASE, k + 1) - 3
  {
    RunTimed(EMPTY, steps);
    var q := Run(EMPTY, steps);
    assert RowOk(q.rows[id]) && RowTimed(q.rows[id], q.clock);
    assert Waited(q.rows[id].hist, k);
    WaitsAddUp(q.rows[id], q.clock, k);
  }

  // ---- The code ----

  /** The backoff loop of `worker_pick_one`. */
  method Backoff(n: nat) returns (backoff: nat)
    ensures backoff == Pow(BACKOFF_BASE, n)
  {
    backoff := 1;
    for i := 0 to n
      invariant backoff == Pow(BACKOFF_BASE, i)
    {
      backoff := backoff * BACKOFF_BASE;
    }
  }

  /** The select statement: a pending job that is due, one that has waited longest. */
  method SelectOldest(rows: map<Id, Row>, now: int) returns (r: Option<Id>)
    ensures r.Some? ==> Oldest(rows, r.value, now)
    ensures r.None? ==> forall o :: o in rows ==> !(rows[o].job.status.Pending? && rows[o].job.runAt <= now)
  {
    r := None;
    var left := rows.Keys;
    while left != {}
      invariant left <= rows.Keys
      invariant r.Some? ==> r.value in rows && rows[r.value].job.status.Pending? && rows[r.value].job.runAt <= now
      invariant forall o :: o in rows && o !in left && rows[o].job.status.Pending? && rows[o].job.runAt <= now ==>
        r.Some? && rows[r.value].job.runAt <= rows[o].job.runAt
      decreases left
    {
      var o :| o in left;
      left := left - {o};
      var job := rows[o].job;
      if job.status.Pending? && job.runAt <= now && (r.None? || job.runAt < rows[r.value].job.runAt) {
        r := Some(o);
      }
    }
  }

  lemma PurgedRows(rows: map<Id, Row>, cutoff: int, gone: set<Id>)
    requires forall id :: id in gone <==> id in rows && Stale(rows[id], cutoff)
    ensures rows - gone == map id | id in rows && !Stale(rows[id], cutoff) :: rows[id]
    ensures |rows| == |rows - gone| + |gone|
  {
    var left := rows - gone;
    assert rows.Keys == left.Keys + gone && left.Keys !! gone;
    assert |rows| == |rows.Keys| && |left| == |left.Keys|;
  }

  lemma PurgedAre(rows: map<Id, Row>, cutoff: int, gone: set<Id>)
    requires forall id :: id in gone <==> id in rows && Stale(rows[id], cutoff)
    ensures forall id :: id in rows ==>
      (id !in rows - gone <==> rows[id].job.status in {Done, Failed} && rows[id].job.createdAt < cutoff)
  {
  }

  class JobQueue {
    var rows: map<Id, Row>
    var held: map<Worker, Claim>     // the local variables of the workers inside a handler
    var clock: int                   // the last time a worker read

    ghost function Abs(): Queue
      reads this
    {
      Queue(rows, held, clock)
    }

    constructor ()
      ensures Abs() == EMPTY
    {
      rows, held, clock := map[], map[], 0;
    }

    /** `workflow_enqueue`; a primary key that exists is refused. */
    method Enqueue(id: Id, kind: string, payload: string, now: int, delay: int) returns (ok: bool)
      modifies this`rows
      ensures Abs() == Apply(old(Abs()), Step.Enqueue(id, kind, payload, now, delay))
      ensures ok <==> id !in old(rows)
      ensures ok ==> id in rows && rows[id].job == Job(kind, payload, Pending, 0, now + delay, now)
      ensures rows - {id} == old(rows) - {id}
    {
      ok := id !in rows;
      if ok {
        rows := rows[id := Row(Job(kind, payload, Pending, 0, now + delay, now), History([], [], false))];
      }
    }

    /** The first critical section of `worker_pick_one`. */
    method Take(w: Worker, now: int) returns (r: Option<Id>)
      requires w !in held
      modifies this
      ensures r.Some? ==> Oldest(old(rows), r.value, now) && Abs() == Apply(old(Abs()), Step.Take(w, r.value, now))
      ensures r.Some? ==>
        var (was, id) := (old(rows), r.value);
        && id in was && was[id].job.status == Pending && was[id].job.runAt <= now
        && (forall o :: o in was && was[o].job.status == Pending && was[o].job.runAt <= now ==> was[id].job.runAt <= was[o].job.runAt)
        && id in rows && rows[id].job == was[id].job.(status := Running) && rows - {id} == was - {id}
      ensures r.None? ==> Abs() == old(Abs()) && forall o :: o in rows ==> !(rows[o].job.status.Pending? && rows[o].job.runAt <= now)
    {
      r := SelectOldest(rows, now);
      if r.Some? {
        var row := rows[r.value];
        rows := rows[r.value := Row(row.job.(status := Running), row.hist.(starts := row.hist.starts + [now]))];
        held := held[w := Claim(r.value, row.job.retryCount)];
        clock := now;
      }
    }

    /** The second critical section of `worker_pick_one`, after the handler. */
    method Finish(w: Worker, ok: bool, now: int)
      requires w in held
      modifies this
      ensures Abs() == Apply(old(Abs()), Step.Finish(w, ok, now))
      ensures var Claim(id, n) := old(held)[w];
              && w !in held && rows - {id} == old(rows) - {id}
              && (id in old(rows) ==>
                    var was := old(rows)[id].job;
                    && id in rows
                    && rows[id].job == if ok then was.(status := Done)
                                       else if n + 1 >= 5 then was.(status := Failed, retryCount := n + 1)
                                       else was.(status := Pending, retryCount := n + 1, runAt := now + Pow(3, n + 1)))
    {
      var Claim(id, retry) := held[w];
      held := held - {w};
      clock := now;
      if id in rows {
        var row := rows[id];
        if ok {
          rows := rows[id := row.(job := row.job.(status := Done))];
        } else {
          var n := retry + 1;
          var hist := row.hist.(fails := row.hist.fails + [now]);
          if n >= MAX_RETRIES {
            rows := rows[id := Row(row.job.(status := Failed, retryCount := n), hist)];
          } else {
            var backoff := Backoff(n);
            rows := rows[id := Row(row.job.(status := Pending, retryCount := n, runAt := now + backoff), hist)];
          }
        }
      }
    }

    /** `workflow_cancel_job` */
    method Cancel(id: Id) returns (changed: bool)
      modifies this`rows
      ensures Abs() == Apply(old(Abs()), Step.Cancel(id))
      ensures changed <==> id in old(rows) && old(rows)[id].job.status.Pending?
      ensures changed ==> id in rows && rows[id].job == old(rows)[id].job.(status := Failed) && rows - {id} == old(rows) - {id}
      ensures !changed ==> rows == old(rows)
    {
      changed := id in rows && rows[id].job.status.Pending?;
      if changed {
        rows := rows[id := Row(rows[id].job.(status := Failed), rows[id].hist.(cancelled := true))];
      }
    }

    /** `workflow_purge_done` */
    method Purge(cutoff: int) returns (deleted: nat)
      modifies this`rows
      ensures Abs() == Apply(old(Abs()), Step.Purge(cutoff))
      ensures deleted == |old(rows)| - |rows|
      ensures forall id :: id in old(rows) ==>
        (id !in rows <==> old(rows)[id].job.status in {Done, Failed} && old(rows)[id].job.createdAt < cutoff)
    {
      var gone := set id | id in rows && (rows[id].job.status.Done? || rows[id].job.status.Failed?) && rows[id].job.createdAt < cutoff;
      PurgedRows(rows, cutoff, gone);
      PurgedAre(rows, cutoff, gone);
      rows := rows - gone;
      deleted := |gone|;
    }
  }
}
