/** `timer.c`: a list of timers ordered by when they run next. */
module Timers {
  import opened Bytes

  datatype Timer = Timer(id: nat, nextrun: nat, interval: nat, oneshot: bool)

  ghost predicate Sorted(s: seq<Timer>) {
    forall i, j :: 0 <= i < j < |s| ==> s[i].nextrun <= s[j].nextrun
  }

  ghost predicate DistinctIds(s: seq<Timer>) {
    forall i, j :: 0 <= i < j < |s| ==> s[i].id != s[j].id
  }

  /** `t` goes before the first timer that runs later. */
  function Insert(s: seq<Timer>, t: Timer): (r: seq<Timer>) {
    if s == [] then [t]
    else if s[0].nextrun > t.nextrun then [t] + s
    else [s[0]] + Insert(s[1..], t)
  }

  lemma {:induction false} InsertMembers(s: seq<Timer>, t: Timer)
    ensures forall x :: x in Insert(s, t) <==> x in s || x == t
    decreases |s|
  {
    if s != [] && s[0].nextrun <= t.nextrun {
      InsertMembers(s[1..], t);
    }
  }

  /** Inserting adds just that timer. */
  lemma {:induction false} InsertAdds(s: seq<Timer>, t: Timer)
    ensures multiset(Insert(s, t)) == multiset(s) + multiset{t}
    decreases |s|
  {
    if s != [] && s[0].nextrun <= t.nextrun {
      InsertAdds(s[1..], t);
      assert s == [s[0]] + s[1..];
    }
  }

  /** Inserting keeps the order. */
  lemma {:induction false} InsertSorted(s: seq<Timer>, t: Timer)
    requires Sorted(s)
    ensures Sorted(Insert(s, t))
    decreases |s|
  {
    if s != [] && s[0].nextrun <= t.nextrun {
      InsertSorted(s[1..], t);
      InsertMembers(s[1..], t);
      var r := Insert(s[1..], t);
      assert forall x :: x in s[1..] ==> s[0].nextrun <= x.nextrun;
      assert forall x :: x in r ==> s[0].nextrun <= x.nextrun;
    }
  }

  /** A timer is inserted behind those that do not run later. */
  lemma {:induction false} InsertBehind(a: seq<Timer>, b: seq<Timer>, t: Timer)
    requires forall x :: x in a ==> x.nextrun <= t.nextrun
    ensures Insert(a + b, t) == a + Insert(b, t)
    decreases |a|
  {
    if a == [] {
      assert a + b == b;
    } else {
      assert (a + b)[1..] == a[1..] + b;
      assert a[0] in a;
      InsertBehind(a[1..], b, t);
    }
  }

  function Renewed(t: Timer, now: nat): (t': Timer) {
    t.(nextrun := now + t.interval)
  }

  /** The timers that are due, in the order they run. */
  function Due(s: seq<Timer>, now: nat): (r: seq<Timer>)
    ensures r <= s
    ensures forall x :: x in r ==> x.nextrun <= now
  {
    if s == [] || s[0].nextrun > now then [] else [s[0]] + Due(s[1..], now)
  }

  lemma {:induction false} DueSpec(s: seq<Timer>, now: nat)
    requires Sorted(s)
    ensures forall x :: x in s[|Due(s, now)|..] ==> x.nextrun > now
    decreases |s|
  {
    if s != [] && s[0].nextrun <= now {
      DueSpec(s[1..], now);
      assert s[1..][|Due(s[1..], now)|..] == s[|Due(s, now)|..];
    }
  }

  /** The list after the timers `due` have run: the repeating ones are put back in. */
  function Requeued(due: seq<Timer>, rest: seq<Timer>, now: nat): (s: seq<Timer>) {
    if due == [] then rest
    else Requeued(due[1..], if due[0].oneshot then rest else Insert(rest, Renewed(due[0], now)), now)
  }

  ghost predicate Repeats(t: Timer) {
    !t.oneshot && t.interval == 0
  }

  /** One turn of the loop of `kore_timer_run`. */
  datatype RunState = RunState(list: seq<Timer>, prev: Option<nat>, fired: seq<nat>)

  ghost predicate Halts(r: RunState, now: nat) {
    r.list == [] || r.prev == Some(r.list[0].id) || r.list[0].nextrun > now
  }

  ghost function Turn(r: RunState, now: nat): RunState
    requires !Halts(r, now)
  {
    var t, rest := r.list[0], r.list[1..];
    if t.oneshot then RunState(rest, r.prev, r.fired + [t.id])
    else RunState(Insert(rest, Renewed(t, now)), Some(t.id), r.fired + [t.id])
  }

  ghost function Turns(r: RunState, now: nat, n: nat): RunState
    decreases n
  {
    if n == 0 || Halts(r, now) then r else Turns(Turn(r, now), now, n - 1)
  }

  function Ids(s: seq<Timer>): (r: seq<nat>) {
    if s == [] then [] else [s[0].id] + Ids(s[1..])
  }

  /** At most one timer that repeats without an interval. */
  ghost predicate LoneRepeat(s: seq<Timer>) {
    forall i, j :: 0 <= i < j < |s| ==> !(Repeats(s[i]) && Repeats(s[j]))
  }

  ghost predicate Spinning(rest: seq<Timer>, now: nat) {
    rest != [] && rest[0].nextrun <= now
  }

  /** In the future, but for a first timer that repeats without an interval. */
  ghost predicate Asleep(rest: seq<Timer>, now: nat) {
    forall i :: 0 <= i < |rest| ==> rest[i].nextrun > now || (i == 0 && Repeats(rest[0]) && rest[0].nextrun == now)
  }

  ghost predicate HasPeriodic(s: seq<Timer>) {
    exists x :: x in s && !x.oneshot
  }

  /** Partway through: `due` are still to run, and everything else on the list has run or is in the future. */
  ghost predicate Partway(r: RunState, due: seq<Timer>, rest: seq<Timer>, now: nat) {
    && r.list == due + rest && DistinctIds(due + rest)
    && (forall x :: x in due ==> x.nextrun <= now && r.prev != Some(x.id))
    && Asleep(rest, now) && LoneRepeat(due)
    && (Spinning(rest, now) ==> forall x :: x in due ==> !Repeats(x))
  }

  /** The timer that runs a second time, if there is one: it repeats without an interval, and a periodic timer
      runs behind it, so that it is not the one put back last when it comes up again. */
  ghost function Again(due: seq<Timer>): (r: seq<nat>)
    ensures |r| <= 1
  {
    if due == [] then []
    else if Repeats(due[0]) && HasPeriodic(due[1..]) then [due[0].id]
    else Again(due[1..])
  }

  /** The same from partway through. */
  ghost function Refire(prev: Option<nat>, due: seq<Timer>, rest: seq<Timer>, now: nat): (r: seq<nat>)
    ensures |r| <= 1
  {
    if !Spinning(rest, now) then Again(due)
    else if HasPeriodic(due) || prev != Some(rest[0].id) then [rest[0].id]
    else []
  }

  ghost function Left(prev: Option<nat>, due: seq<Timer>, rest: seq<Timer>, now: nat): (n: nat) {
    |due| + |Refire(prev, due, rest, now)|
  }

  lemma {:induction false} NoneAgain(due: seq<Timer>)
    requires forall x :: x in due ==> !Repeats(x)
    ensures Again(due) == []
    decreases |due|
  {
    if due != [] {
      assert due[0] in due;
      NoneAgain(due[1..]);
    }
  }

  lemma {:induction false} InsertFuture(rest: seq<Timer>, t: Timer, now: nat)
    requires Asleep(rest, now) && t.nextrun > now
    ensures var r := Insert(rest, t);
            Asleep(r, now) && (Spinning(r, now) <==> Spinning(rest, now)) && (Spinning(rest, now) ==> r[0] == rest[0])
  {
    InsertMembers(rest, t);
    if Spinning(rest, now) {
      InsertMembers(rest[1..], t);
      assert Insert(rest, t) == [rest[0]] + Insert(rest[1..], t);
      assert forall x :: x in rest[1..] ==> x.nextrun > now;
    } else {
      assert forall x :: x in rest ==> x.nextrun > now;
    }
  }

  /** The places of a turn: the head leaves the front and, unless it is one-shot, goes behind those due. */
  lemma {:induction false} TurnList(r: RunState, due: seq<Timer>, rest: seq<Timer>, now: nat)
    requires r.list == due + rest && due != [] && (forall x :: x in due ==> x.nextrun <= now) && !Halts(r, now)
    ensures var t := Renewed(due[0], now);
            Turn(r, now).list == due[1..] + if due[0].oneshot then rest else Insert(rest, t)
  {
    assert r.list[0] == due[0] && r.list[1..] == due[1..] + rest;
    assert forall x :: x in due[1..] ==> x in due;
    InsertBehind(due[1..], rest, Renewed(due[0], now));
  }

  lemma {:induction false} TurnDistinct(due: seq<Timer>, rest: seq<Timer>, now: nat)
    requires due != [] && DistinctIds(due + rest) && forall x :: x in due ==> x.nextrun <= now
    ensures DistinctIds(due[1..] + rest)
    ensures DistinctIds(due[1..] + Insert(rest, Renewed(due[0], now)))
    ensures forall x :: x in due[1..] + rest ==> x.id != due[0].id
  {
    var t, l := Renewed(due[0], now), due[1..] + rest;
    assert forall i :: 0 <= i < |l| ==> l[i] == (due + rest)[i + 1];
    assert (due + rest)[0] == due[0];
    assert forall x :: x in due[1..] ==> x in due;
    InsertBehind(due[1..], rest, t);
    InsertDistinct(l, t);
  }

  ghost function After(due: seq<Timer>, rest: seq<Timer>, now: nat): (rest': seq<Timer>)
    requires due != []
  {
    if due[0].oneshot then rest else Insert(rest, Renewed(due[0], now))
  }

  /** What the timer put back does to the ones that are not to run any more. */
  lemma AfterAsleep(due: seq<Timer>, rest: seq<Timer>, now: nat)
    requires due != [] && Asleep(rest, now) && LoneRepeat(due) && (Spinning(rest, now) ==> forall x :: x in due ==> !Repeats(x))
    ensures var rest' := After(due, rest, now);
            && Asleep(rest', now) && LoneRepeat(due[1..]) && (Spinning(rest', now) ==> forall x :: x in due[1..] ==> !Repeats(x))
            && (Spinning(rest', now) <==> Spinning(rest, now) || Repeats(due[0]))
            && (Spinning(rest', now) ==> rest'[0].id == if Repeats(due[0]) then due[0].id else rest[0].id)
  {
    var t := Renewed(due[0], now);
    assert due[0] in due;
    if !due[0].oneshot {
      if t.nextrun > now {
        InsertFuture(rest, t, now);
      } else {
        assert Insert(rest, t) == [t] + rest;
      }
    }
  }

  lemma TurnPartway(r: RunState, due: seq<Timer>, rest: seq<Timer>, now: nat)
    requires Partway(r, due, rest, now) && due != []
    ensures !Halts(r, now) && Turn(r, now).fired == r.fired + [due[0].id]
    ensures Partway(Turn(r, now), due[1..], After(due, rest, now), now)
  {
    assert r.list[0] == due[0] && due[0] in due;
    TurnList(r, due, rest, now);
    TurnDistinct(due, rest, now);
    AfterAsleep(due, rest, now);
    assert forall x :: x in due[1..] ==> x in due && x in due[1..] + rest;
  }

  lemma TurnRefire(r: RunState, due: seq<Timer>, rest: seq<Timer>, now: nat)
    requires Partway(r, due, rest, now) && due != [] && !Halts(r, now)
    ensures Refire(Turn(r, now).prev, due[1..], After(due, rest, now), now) == Refire(r.prev, due, rest, now)
  {
    var t, d, rest' := due[0], due[1..], After(due, rest, now);
    assert r.list[0] == t && t in due;
    AfterAsleep(due, rest, now);
    assert due == [t] + d;
    assert HasPeriodic(due) <==> !t.oneshot || HasPeriodic(d);
    if Spinning(rest, now) {
      assert (due + rest)[|due|] == rest[0] && (due + rest)[0] == t;
    } else if Repeats(t) {
      forall x | x in d
        ensures !Repeats(x)
      {
        var i :| 0 <= i < |d| && d[i] == x;
        assert due[i + 1] == x;
      }
      NoneAgain(d);
    }
  }

  lemma HeadBack(rest: seq<Timer>, now: nat)
    requires Asleep(rest, now) && Spinning(rest, now)
    ensures !rest[0].oneshot && Insert(rest[1..], Renewed(rest[0], now)) == rest
  {
    var t := rest[0];
    assert Renewed(t, now) == t;
    assert rest[1..] != [] ==> rest[1..][0] == rest[1];
    assert [t] + rest[1..] == rest;
  }

  /** The head that has run already runs once more. */
  lemma SpinOnce(r: RunState, rest: seq<Timer>, now: nat)
    requires Partway(r, [], rest, now) && !Halts(r, now)
    ensures Spinning(rest, now) && Turn(r, now) == RunState(rest, Some(rest[0].id), r.fired + [rest[0].id])
    ensures Halts(Turn(r, now), now) && Partway(Turn(r, now), [], rest, now)
  {
    assert [] + rest == rest;
    HeadBack(rest, now);
  }

  /** One turn less is left, and what all of them fire and leave is unchanged. */
  ghost predicate Follows(r: RunState, due: seq<Timer>, rest: seq<Timer>, r': RunState, due': seq<Timer>, rest': seq<Timer>, now: nat) {
    && Requeued(due', rest', now) == Requeued(due, rest, now)
    && Left(r'.prev, due', rest', now) + 1 == Left(r.prev, due, rest, now)
    && r'.fired + (Ids(due') + Refire(r'.prev, due', rest', now)) == r.fired + (Ids(due) + Refire(r.prev, due, rest, now))
  }

  lemma DueFollows(r: RunState, due: seq<Timer>, rest: seq<Timer>, r': RunState, now: nat)
    requires due != [] && r'.fired == r.fired + [due[0].id]
    requires Refire(r'.prev, due[1..], After(due, rest, now), now) == Refire(r.prev, due, rest, now)
    ensures Follows(r, due, rest, r', due[1..], After(due, rest, now), now)
  {
    var again := Refire(r.prev, due, rest, now);
    assert r.fired + [due[0].id] + (Ids(due[1..]) + again) == r.fired + ([due[0].id] + Ids(due[1..]) + again);
  }

  lemma NextPartway(r: RunState, due: seq<Timer>, rest: seq<Timer>, now: nat) returns (due': seq<Timer>, rest': seq<Timer>)
    requires Partway(r, due, rest, now) && !Halts(r, now)
    ensures Partway(Turn(r, now), due', rest', now) && Follows(r, due, rest, Turn(r, now), due', rest', now)
  {
    if due == [] {
      SpinOnce(r, rest, now);
      due', rest' := [], rest;
    } else {
      due', rest' := due[1..], After(due, rest, now);
      TurnRefire(r, due, rest, now);
      TurnPartway(r, due, rest, now);
      DueFollows(r, due, rest, Turn(r, now), now);
    }
  }

  lemma HaltsLast(r: RunState, due: seq<Timer>, rest: seq<Timer>, now: nat)
    requires Partway(r, due, rest, now) && Halts(r, now)
    ensures due == [] && Refire(r.prev, due, rest, now) == [] && r.list == rest
  {
    if due != [] {
      TurnPartway(r, due, rest, now);
    }
    assert [] + rest == rest;
  }

  lemma {:induction false} RunPartway(r: RunState, due: seq<Timer>, rest: seq<Timer>, now: nat)
    requires Partway(r, due, rest, now)
    ensures var r' := Turns(r, now, Left(r.prev, due, rest, now));
            && Halts(r', now) && r'.list == Requeued(due, rest, now)
            && r'.fired == r.fired + (Ids(due) + Refire(r.prev, due, rest, now))
    decreases Left(r.prev, due, rest, now)
  {
    if Halts(r, now) {
      HaltsLast(r, due, rest, now);
      assert r.fired + ([] + []) == r.fired;
    } else {
      var due', rest' := NextPartway(r, due, rest, now);
      RunPartway(Turn(r, now), due', rest', now);
    }
  }

  lemma {:induction false} RequeuedFuture(due: seq<Timer>, rest: seq<Timer>, now: nat)
    requires (forall x :: x in due ==> !Repeats(x)) && forall x :: x in rest ==> x.nextrun > now
    ensures forall x :: x in Requeued(due, rest, now) ==> x.nextrun > now
    decreases |due|
  {
    if due != [] {
      assert due[0] in due;
      InsertMembers(rest, Renewed(due[0], now));
      RequeuedFuture(due[1..], After(due, rest, now), now);
    }
  }

  // ---- Two timers that repeat without an interval ----

  ghost predicate HasRepeat(d: seq<Timer>, id: nat) {
    exists x :: x in d && x.id == id && Repeats(x)
  }

  /** Two of them are due, and the timer put back last is behind every other that is due. */
  ghost predicate Spin(r: RunState, d: seq<Timer>, f: seq<Timer>, now: nat, a: nat, b: nat) {
    && r.list == d + f && DistinctIds(d) && a != b && HasRepeat(d, a) && HasRepeat(d, b)
    && (forall x :: x in d ==> x.nextrun <= now) && (forall x :: x in f ==> x.nextrun > now)
    && forall i :: 0 <= i < |d| - 1 ==> r.prev != Some(d[i].id)
  }

  lemma RepeatStays(d: seq<Timer>, d': seq<Timer>, id: nat, now: nat)
    requires d != [] && HasRepeat(d, id) && (forall x :: x in d[1..] ==> x in d')
    requires Repeats(d[0]) ==> Renewed(d[0], now) in d'
    ensures HasRepeat(d', id)
  {
    var x :| x in d && x.id == id && Repeats(x);
    if x == d[0] {
      assert Repeats(Renewed(x, now)) && Renewed(x, now).id == id;
    } else {
      assert x in d[1..];
    }
  }

  lemma TwoDue(d: seq<Timer>, a: nat, b: nat)
    requires a != b && HasRepeat(d, a) && HasRepeat(d, b)
    ensures |d| > 1
  {
    var x :| x in d && x.id == a && Repeats(x);
    var y :| y in d && y.id == b && Repeats(y);
  }

  /** A timer that goes behind the others that are due keeps the identifiers apart. */
  lemma BackDistinct(d: seq<Timer>, t: Timer)
    requires DistinctIds(d) && d != [] && t.id == d[0].id
    ensures DistinctIds(d[1..]) && DistinctIds(d[1..] + [t])
    ensures forall i :: 0 <= i < |d[1..]| ==> d[1..][i].id != t.id
  {
  }

  lemma SpinBack(r: RunState, d: seq<Timer>, f: seq<Timer>, now: nat, a: nat, b: nat)
    requires Spin(r, d, f, now, a, b) && !Halts(r, now) && Repeats(d[0])
    ensures Spin(Turn(r, now), d[1..] + [Renewed(d[0], now)], f, now, a, b)
  {
    var t' := Renewed(d[0], now);
    assert r.list[0] == d[0] && d[0] in d;
    TurnList(r, d, f, now);
    assert Insert(f, t') == [t'] + f;
    assert d[1..] + ([t'] + f) == d[1..] + [t'] + f;
    BackDistinct(d, t');
    RepeatStays(d, d[1..] + [t'], a, now);
    RepeatStays(d, d[1..] + [t'], b, now);
  }

  lemma SpinAway(r: RunState, d: seq<Timer>, f: seq<Timer>, now: nat, a: nat, b: nat)
    requires Spin(r, d, f, now, a, b) && !Halts(r, now) && !Repeats(d[0])
    ensures Spin(Turn(r, now), d[1..], After(d, f, now), now, a, b)
  {
    assert r.list[0] == d[0] && d[0] in d;
    TurnList(r, d, f, now);
    InsertMembers(f, Renewed(d[0], now));
    BackDistinct(d, d[0]);
    RepeatStays(d, d[1..], a, now);
    RepeatStays(d, d[1..], b, now);
  }

  lemma SpinTurn(r: RunState, d: seq<Timer>, f: seq<Timer>, now: nat, a: nat, b: nat) returns (d': seq<Timer>, f': seq<Timer>)
    requires Spin(r, d, f, now, a, b)
    ensures !Halts(r, now) && Spin(Turn(r, now), d', f', now, a, b)
  {
    TwoDue(d, a, b);
    assert r.list[0] == d[0] && d[0] in d;
    if Repeats(d[0]) {
      d', f' := d[1..] + [Renewed(d[0], now)], f;
      SpinBack(r, d, f, now, a, b);
    } else {
      d', f' := d[1..], After(d, f, now);
      SpinAway(r, d, f, now, a, b);
    }
  }

  lemma {:induction false} SpinForever(r: RunState, d: seq<Timer>, f: seq<Timer>, now: nat, a: nat, b: nat, n: nat)
    requires Spin(r, d, f, now, a, b)
    ensures !Halts(Turns(r, now, n), now)
    decreases n
  {
    var d', f' := SpinTurn(r, d, f, now, a, b);
    if n > 0 {
      SpinForever(Turn(r, now), d', f', now, a, b, n - 1);
    }
  }

  // ---- Whole runs ----

  ghost predicate EndsAfter(s: seq<Timer>, now: nat, n: nat) {
    Halts(Turns(RunState(s, None, []), now, n), now)
  }

  lemma TwoSpin(due: seq<Timer>, rest: seq<Timer>, now: nat, i: nat, j: nat)
    requires DistinctIds(due + rest) && (forall x :: x in due ==> x.nextrun <= now) && (forall x :: x in rest ==> x.nextrun > now)
    requires i < j < |due| && Repeats(due[i]) && Repeats(due[j])
    ensures Spin(RunState(due + rest, None, []), due, rest, now, due[i].id, due[j].id)
  {
    assert forall k :: 0 <= k < |due| ==> (due + rest)[k] == due[k];
    assert due[i] in due && due[j] in due;
  }

  /** `kore_timer_run` ends exactly if at most one due timer repeats without an interval: two of them take turns
      for ever. */
  lemma {:induction false} RunEnds(s: seq<Timer>, now: nat)
    requires Sorted(s) && DistinctIds(s)
    ensures (exists n :: EndsAfter(s, now, n)) <==> LoneRepeat(Due(s, now))
  {
    var due := Due(s, now);
    var rest := s[|due|..];
    DueSpec(s, now);
    assert s == due + rest;
    if LoneRepeat(due) {
      WholeRun(s, now);
      assert EndsAfter(s, now, Left(None, due, rest, now));
    } else {
      var i, j :| 0 <= i < j < |due| && Repeats(due[i]) && Repeats(due[j]);
      forall n: nat
        ensures !EndsAfter(s, now, n)
      {
        TwoSpin(due, rest, now, i, j);
        SpinForever(RunState(s, None, []), due, rest, now, due[i].id, due[j].id, n);
      }
    }
  }

  /** A zero-interval timer that is due stays due, however many turns are taken. */
  lemma {:induction false} RepeatsStay(r: RunState, now: nat, n: nat, id: nat)
    requires exists x :: x in r.list && x.id == id && Repeats(x) && x.nextrun <= now
    ensures exists x :: x in Turns(r, now, n).list && x.id == id && Repeats(x) && x.nextrun <= now
    decreases n
  {
    if n > 0 && !Halts(r, now) {
      var x :| x in r.list && x.id == id && Repeats(x) && x.nextrun <= now;
      var t, rest := r.list[0], r.list[1..];
      var r' := Turn(r, now);
      InsertMembers(rest, Renewed(t, now));
      if x == t {
        assert Renewed(t, now) in r'.list && Repeats(Renewed(t, now));
      } else {
        assert x in rest;
        assert x in r'.list;
      }
      RepeatsStay(r', now, n - 1, id);
    }
  }

  /** It ends with nothing due, after running every due timer once in order, exactly if no due timer repeats
      without an interval. */
  lemma {:induction false} RunExact(s: seq<Timer>, now: nat)
    requires Sorted(s) && DistinctIds(s)
    ensures (forall x :: x in Due(s, now) ==> !Repeats(x)) <==>
      exists n :: RunsOnce(s, now, n)
  {
    var due := Due(s, now);
    var r := RunState(s, None, []);
    if forall x :: x in due ==> !Repeats(x) {
      assert LoneRepeat(due) by {
        assert forall i :: 0 <= i < |due| ==> due[i] in due;
      }
      WholeRun(s, now);
      NoneAgain(due);
      assert RunsOnce(s, now, |due|);
    } else {
      var x :| x in due && Repeats(x);
      assert x in s;
      forall n | RunsOnce(s, now, n)
        ensures false
      {
        RepeatsStay(r, now, n, x.id);
      }
    }
  }

  ghost predicate RunsOnce(s: seq<Timer>, now: nat, n: nat) {
    var r := Turns(RunState(s, None, []), now, n);
    Halts(r, now) && r.fired == Ids(Due(s, now)) && forall x :: x in r.list ==> x.nextrun > now
  }

  /** Putting timers back keeps the list in order and every timer on it once. */
  lemma {:induction false} RequeuedValid(due: seq<Timer>, rest: seq<Timer>, now: nat)
    requires Sorted(rest) && DistinctIds(due + rest) && forall x :: x in due ==> x.nextrun <= now
    ensures Sorted(Requeued(due, rest, now)) && DistinctIds(Requeued(due, rest, now))
    decreases |due|
  {
    if due == [] {
      assert due + rest == rest;
    } else {
      var t, d := Renewed(due[0], now), due[1..];
      assert (due + rest)[1..] == d + rest && (due + rest)[0] == due[0];
      assert DistinctIds(d + rest);
      if !due[0].oneshot {
        assert forall i :: 0 <= i < |d + rest| ==> (d + rest)[i] == (due + rest)[i + 1];
        InsertSorted(rest, t);
        InsertBehind(d, rest, t);
        InsertDistinct(d + rest, t);
        RequeuedValid(d, Insert(rest, t), now);
      } else {
        RequeuedValid(d, rest, now);
      }
    }
  }

  lemma {:induction false} StartPartway(s: seq<Timer>, now: nat)
    requires Sorted(s) && DistinctIds(s) && LoneRepeat(Due(s, now))
    ensures var due := Due(s, now);
            Partway(RunState(s, None, []), due, s[|due|..], now) && forall x :: x in s[|due|..] ==> x.nextrun > now
  {
    DueSpec(s, now);
    var due := Due(s, now);
    assert s == due + s[|due|..];
    FuturePartway(due, s[|due|..], now);
  }

  lemma FuturePartway(due: seq<Timer>, rest: seq<Timer>, now: nat)
    requires DistinctIds(due + rest) && LoneRepeat(due)
    requires (forall x :: x in due ==> x.nextrun <= now) && forall x :: x in rest ==> x.nextrun > now
    ensures Partway(RunState(due + rest, None, []), due, rest, now)
  {
    assert forall i :: 0 <= i < |rest| ==> rest[i] in rest;
  }

  /** What the whole loop amounts to: every due timer runs once in order, then the one that repeats without an
      interval once more if a periodic timer ran behind it; the list is in order again, and only that timer is
      still due. */
  lemma {:induction false} WholeRun(s: seq<Timer>, now: nat)
    requires Sorted(s) && DistinctIds(s) && LoneRepeat(Due(s, now))
    ensures var due := Due(s, now);
            var rest := s[|due|..];
            var r' := Turns(RunState(s, None, []), now, Left(None, due, rest, now));
            && Halts(r', now) && r'.fired == Ids(due) + Again(due)
            && r'.list == Requeued(due, rest, now) && Sorted(r'.list) && DistinctIds(r'.list)
            && ((forall x :: x in due ==> !Repeats(x)) ==> forall x :: x in r'.list ==> x.nextrun > now)
            && Left(None, due, rest, now) == |due| + |Again(due)|
  {
    var due := Due(s, now);
    var rest := s[|due|..];
    StartPartway(s, now);
    assert s == due + rest;
    assert !Spinning(rest, now);
    RunPartway(RunState(s, None, []), due, rest, now);
    RequeuedValid(due, rest, now);
    assert [] + (Ids(due) + Again(due)) == Ids(due) + Again(due);
    if forall x :: x in due ==> !Repeats(x) {
      RequeuedFuture(due, rest, now);
    }
  }

  /** Every timer that ran and is periodic is on the list again, an interval from now; nothing else is new. */
  lemma {:induction false} RequeuedMembers(due: seq<Timer>, rest: seq<Timer>, now: nat, x: Timer)
    ensures x in Requeued(due, rest, now) <==>
      x in rest || exists t :: t in due && !t.oneshot && x == Timer(t.id, now + t.interval, t.interval, false)
    decreases |due|
  {
    if due != [] {
      InsertMembers(rest, Renewed(due[0], now));
      RequeuedMembers(due[1..], if due[0].oneshot then rest else Insert(rest, Renewed(due[0], now)), now, x);
      assert forall t :: t in due <==> t == due[0] || t in due[1..];
    }
  }

  /** `x` is on the list after a run exactly if it was in the future, or is a periodic timer that was due and runs
      again an interval from now. */
  ghost predicate Accounted(s: seq<Timer>, s': seq<Timer>, now: nat, x: Timer) {
    x in s' <==>
    (x in s && x.nextrun > now)
    || exists t :: t in s && t.nextrun <= now && !t.oneshot && x == Timer(t.id, now + t.interval, t.interval, false)
  }

  ghost predicate RanTo(s: seq<Timer>, s': seq<Timer>, now: nat) {
    forall x {:trigger Accounted(s, s', now, x)} :: Accounted(s, s', now, x)
  }

  lemma RequeuedAre(s: seq<Timer>, now: nat)
    requires Sorted(s)
    ensures var due := Due(s, now);
            RanTo(s, Requeued(due, s[|due|..], now), now)
  {
    var due := Due(s, now);
    var rest := s[|due|..];
    DueSpec(s, now);
    assert s == due + rest;
    forall x
      ensures Accounted(s, Requeued(due, rest, now), now, x)
    {
      RequeuedMembers(due, rest, now, x);
      assert forall t :: t in s <==> t in due || t in rest;
    }
  }

  lemma {:induction false} InsertPast(s: seq<Timer>, t: Timer, i: nat)
    requires i < |s| && s[i].nextrun <= t.nextrun
    ensures s[..i] + Insert(s[i..], t) == s[..i + 1] + Insert(s[i + 1..], t)
  {
    assert s[i..][1..] == s[i + 1..];
    assert s[..i] + [s[i]] == s[..i + 1];
  }

  class TimerList {
    var list: seq<Timer>     // `kore_timers`

    ghost predicate Valid()
      reads this
    {
      Sorted(list) && DistinctIds(list)
    }

    constructor ()
      ensures Valid() && list == []
    {
      list := [];
    }

    /** The walk that puts a timer in its place. */
    method Place(t: Timer)
      modifies this
      ensures list == Insert(old(list), t)
    {
      var i := 0;
      while i < |list| && list[i].nextrun <= t.nextrun
        invariant 0 <= i <= |list| && list == old(list)
        invariant Insert(list, t) == list[..i] + Insert(list[i..], t)
      {
        InsertPast(list, t, i);
        i := i + 1;
      }
      list := list[..i] + [t] + list[i..];
    }

    /** `kore_timer_add` */
    method Add(id: nat, interval: nat, oneshot: bool, now: nat)
      requires Valid() && forall x :: x in list ==> x.id != id
      modifies this
      ensures Valid() && multiset(list) == multiset(old(list)) + multiset{Timer(id, now + interval, interval, oneshot)}
    {
      var t := Timer(id, now + interval, interval, oneshot);
      InsertAdds(list, t);
      InsertSorted(list, t);
      InsertDistinct(list, t);
      Place(t);
    }

    /** `kore_timer_remove` */
    method Remove(id: nat)
      requires Valid() && exists x :: x in list && x.id == id
      modifies this
      ensures Valid() && forall x :: x in list <==> x in old(list) && x.id != id
    {
      var i := 0;
      while list[i].id != id
        invariant 0 <= i < |list| && forall j :: 0 <= j < i ==> list[j].id != id
        decreases |list| - i
      {
        i := i + 1;
      }
      list := list[..i] + list[i + 1..];
    }

    /** `kore_timer_next_run`: how long until the next timer; `None` is to wait for ever. */
    method NextRun(now: nat) returns (wait: Option<nat>)
      requires Valid()
      ensures wait.None? <==> list == []
      ensures wait.Some? && wait.value > 0 ==>
        (forall x :: x in list ==> x.nextrun >= now + wait.value) && exists x :: x in list && x.nextrun == now + wait.value
      ensures wait == Some(0) ==> exists x :: x in list && x.nextrun <= now
    {
      if list == [] {
        return None;
      }
      return Some(if list[0].nextrun > now then list[0].nextrun - now else 0);
    }

    /** The body of the loop of `kore_timer_run`. */
    method Fire(now: nat, prev: Option<nat>, fired: seq<nat>) returns (prev': Option<nat>, fired': seq<nat>)
      requires !Halts(RunState(list, prev, fired), now)
      modifies this
      ensures RunState(list, prev', fired') == Turn(old(RunState(list, prev, fired)), now)
    {
      var t := list[0];
      list := list[1..];
      prev', fired' := prev, fired + [t.id];
      if !t.oneshot {
        prev' := Some(t.id);
        Place(Renewed(t, now));
      }
    }

    /** `kore_timer_run` with callbacks that leave the list alone, wherever it ends at all: every due timer runs
        once, in order, the one that repeats without an interval possibly once more, and all others that are
        left are in the future. The test against the timer put back last skips none. */
    method Run(now: nat) returns (fired: seq<nat>)
      requires Valid() && LoneRepeat(Due(list, now))
      modifies this
      ensures Valid() && fired == Ids(Due(old(list), now)) + Again(Due(old(list), now))
      ensures list == Requeued(Due(old(list), now), old(list)[|Due(old(list), now)|..], now)
      ensures RanTo(old(list), list, now)
      ensures (forall x :: x in Due(old(list), now) ==> !Repeats(x)) ==> forall x :: x in list ==> x.nextrun > now
    {
      WholeRun(list, now);
      ghost var due := Due(list, now);
      fired := Loop(now, Left(None, due, list[|due|..], now));
      RequeuedAre(old(list), now);
    }

    /** Its loop, when `left` turns are to come. */
    method Loop(now: nat, ghost left: nat) returns (fired: seq<nat>)
      requires Halts(Turns(RunState(list, None, []), now, left), now)
      modifies this
      ensures var final := Turns(RunState(old(list), None, []), now, left);
              list == final.list && fired == final.fired
    {
      fired := [];
      var prev: Option<nat> := None;
      ghost var more := left;
      while list != [] && prev != Some(list[0].id) && list[0].nextrun <= now
        invariant Turns(RunState(list, prev, fired), now, more) == Turns(RunState(old(list), None, []), now, left)
        decreases more
      {
        prev, fired := Fire(now, prev, fired);
        more := more - 1;
      }
    }
  }

  lemma {:induction false} InsertDistinct(s: seq<Timer>, t: Timer)
    requires DistinctIds(s) && forall x :: x in s ==> x.id != t.id
    ensures DistinctIds(Insert(s, t))
    decreases |s|
  {
    InsertMembers(s[if s == [] then 0 else 1..], t);
    if s != [] && s[0].nextrun <= t.nextrun {
      assert forall x :: x in s[1..] ==> x in s;
      assert forall x :: x in s[1..] ==> x.id != s[0].id;
      InsertDistinct(s[1..], t);
    }
  }
}
