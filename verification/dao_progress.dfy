/**
  What the pool monitor promises to the DAO calls that share it: conservation of the
  connections, freedom from deadlock while fewer threads than connections are inside
  `GetFriendList`, completion of every run, and what `close` does to sleeping threads.
*/
module DaoProgress {
  import opened Wrappers
  import opened PoolMonitor

  // ---------------------------------------------------------------- conservation

  function Conns(t: Thread): set<Conn> {
    (if t.outer.Some? then {t.outer.value} else {}) + (if t.inner.Some? then {t.inner.value} else {})
  }

  /** The connections that are out on loan. */
  function Borrowed(ts: seq<Thread>): set<Conn> {
    if ts == [] then {} else Conns(ts[0]) + Borrowed(ts[1..])
  }

  lemma {:induction false} BorrowedHolds(ts: seq<Thread>, c: Conn)
    ensures c in Borrowed(ts) <==> exists i :: 0 <= i < |ts| && Holds(ts[i], c)
  {
    if ts != [] {
      BorrowedHolds(ts[1..], c);
      if c in Conns(ts[0]) {
        assert Holds(ts[0], c);
      }
      if c in Borrowed(ts[1..]) {
        var i :| 0 <= i < |ts[1..]| && Holds(ts[1..][i], c);
        assert Holds(ts[i + 1], c);
      }
      if i :| 0 <= i < |ts| && Holds(ts[i], c) {
        if i > 0 {
          assert Holds(ts[1..][i - 1], c);
        }
      }
    }
  }

  lemma {:induction false} BorrowedSize(ts: seq<Thread>)
    requires forall i, j, c :: 0 <= i < j < |ts| && Holds(ts[i], c) ==> !Holds(ts[j], c)
    requires forall i :: 0 <= i < |ts| && ts[i].inner.Some? ==> ts[i].outer != ts[i].inner
    ensures |Borrowed(ts)| == Sum(ts, Held)
  {
    if ts != [] {
      var rest := ts[1..];
      assert forall i :: 0 <= i < |rest| ==> rest[i] == ts[i + 1];
      BorrowedSize(rest);
      forall c | c in Conns(ts[0]) ensures c !in Borrowed(rest) {
        BorrowedHolds(rest, c);
        assert Holds(ts[0], c);
      }
      assert Conns(ts[0]) !! Borrowed(rest);
      assert |Conns(ts[0])| == Held(ts[0]);
    }
  }

  lemma SameSizeSubset(a: set<Conn>, b: set<Conn>)
    requires a <= b && |a| == |b|
    ensures a == b
  {
    assert |b - a| == |b| - |a|;
  }

  function IdleSet(s: Monitor): set<Conn> {
    set c | c in s.idle
  }

  lemma BorrowedInside(s: Monitor)
    requires Exclusive(s)
    ensures Borrowed(s.threads) <= s.all && Borrowed(s.threads) !! IdleSet(s) && IdleSet(s) <= s.all
  {
    forall c | c in Borrowed(s.threads) ensures c in s.all && c !in s.idle {
      BorrowedHolds(s.threads, c);
    }
  }

  lemma ConservedState(s: Monitor)
    requires Inv(s) && !s.stopped
    ensures IdleSet(s) + Borrowed(s.threads) == s.all
    ensures IdleSet(s) !! Borrowed(s.threads)
    ensures |s.idle| + |Borrowed(s.threads)| == |s.all|
  {
    DistinctSize(s.idle);
    BorrowedSize(s.threads);
    BorrowedInside(s);
    SameSizeSubset(IdleSet(s) + Borrowed(s.threads), s.all);
  }

  /** In every run until close, the idle queue and the borrowed connections are exactly the
      connections the pool was built with: none lost, none duplicated. */
  lemma Conservation(conns: seq<Conn>, steps: seq<Step>)
    requires forall i, j :: 0 <= i < j < |conns| ==> conns[i] != conns[j]
    requires Runs(Fresh(conns), steps) && !After(Fresh(conns), steps).stopped
    ensures var s := After(Fresh(conns), steps);
            && IdleSet(s) + Borrowed(s.threads) == (set c | c in conns)
            && IdleSet(s) !! Borrowed(s.threads)
            && |s.idle| + |Borrowed(s.threads)| == |conns|
  {
    FreshInv(conns);
    DistinctSize(conns);
    RunKeepsInv(Fresh(conns), steps);
    ConservedState(After(Fresh(conns), steps));
  }

  // ---------------------------------------------------------------- progress

  /** Steps a thread inside a DAO call takes by itself. */
  predicate Own(step: Step) {
    step.Test? || step.Park? || step.Return? || step.Nest? || step.Abort?
  }

  ghost predicate SomeUnfinished(s: Monitor) {
    exists i :: 0 <= i < |s.threads| && !s.threads[i].pc.Finished?
  }

  ghost predicate NoOwnStep(s: Monitor) {
    forall step :: Own(step) ==> !Enabled(s, step)
  }

  lemma {:induction false} SumZero(ts: seq<Thread>, w: Thread -> nat)
    requires forall i :: 0 <= i < |ts| ==> w(ts[i]) == 0
    ensures Sum(ts, w) == 0
  {
    if ts != [] {
      assert forall i :: 0 <= i < |ts[1..]| ==> ts[1..][i] == ts[i + 1];
      SumZero(ts[1..], w);
    }
  }

  /** Everybody asleep: then no connection is idle, and each is the first connection of a
      thread inside GetFriendList with a row to look up. */
  lemma AllAsleep(s: Monitor)
    requires Inv(s) && !s.stopped && SomeUnfinished(s)
    requires forall i :: 0 <= i < |s.threads| ==> s.threads[i].pc.Finished? || s.threads[i].pc.Blocked?
    ensures s.idle == [] && |s.all| <= Sum(s.threads, Nesting)
  {
    SumZero(s.threads, Wanting);
    assert SomeBlocked(s);
    forall i | 0 <= i < |s.threads| ensures Held(s.threads[i]) <= Nesting(s.threads[i]) {
      assert ValidThread(s.threads[i]);
    }
    SumMonotone(s.threads, Held, Nesting);
  }

  /** Deadlock freedom: while fewer threads are inside GetFriendList, with a row to look up,
      than there are connections, some unfinished call can take a step, without any spurious
      wake-up. */
  lemma Progress(s: Monitor) returns (step: Step)
    requires Inv(s) && !s.stopped && SomeUnfinished(s)
    requires Sum(s.threads, Nesting) < |s.all|
    ensures Own(step) && !step.Abort? && Enabled(s, step)
  {
    if s.mutex.Some? {
      step := Park(s.mutex.value);
    } else if t :| 0 <= t < |s.threads| && s.threads[t].pc.Want? {
      step := Test(t);
    } else if t :| 0 <= t < |s.threads| && s.threads[t].pc.Working? {
      assert ValidThread(s.threads[t]);
      if !CanReturn(s.threads[t]) {
        step := Nest(t);
      } else if w :| 0 <= w < |s.threads| && s.threads[w].pc.Blocked? {
        step := Return(t, Some(w));
      } else {
        step := Return(t, None);
      }
    } else {
      AllAsleep(s);
      assert false;
    }
  }

  // ---------------------------------------------------------------- completion

  /** A bound on the own steps a thread can still take. */
  function Work(t: Thread): nat {
    match t.pc
    case Finished => 0
    case Working => 8 * Left(t) + (if t.inner.Some? then 1 else 3)
    case Want => 8 * Left(t) + (if t.outer.None? then 4 else 2)
    case Parked => 8 * Left(t) + (if t.outer.None? then 3 else 1)
    case Blocked => 8 * Left(t) + (if t.outer.None? then 2 else 0)
  }

  lemma GiveBackWork(t: Thread)
    requires ValidThread(t) && CanReturn(t)
    ensures Work(GiveBack(t)) + 3 <= Work(t)
    ensures ListCall(GiveBack(t)) <= ListCall(t)
  {
  }

  /** A return pays for the thread it wakes. */
  lemma ReturnWorks(s: Monitor, t: nat, woken: Option<nat>)
    requires Inv(s) && Enabled(s, Return(t, woken))
    ensures var s' := Next(s, Return(t, woken));
            Sum(s'.threads, Work) < Sum(s.threads, Work) && Sum(s'.threads, ListCall) <= Sum(s.threads, ListCall)
  {
    assert ValidThread(s.threads[t]);
    var back := GiveBack(s.threads[t]);
    var ts := s.threads[t := back];
    GiveBackWork(s.threads[t]);
    SumUpdate(s.threads, t, back, Work);
    SumUpdate(s.threads, t, back, ListCall);
    if woken.Some? {
      var w := woken.value;
      SumUpdate(ts, w, Wake(ts[w]), Work);
      SumUpdate(ts, w, Wake(ts[w]), ListCall);
    }
  }

  lemma OwnStepWorks(s: Monitor, step: Step)
    requires Inv(s) && Own(step) && Enabled(s, step)
    ensures Sum(Next(s, step).threads, Work) < Sum(s.threads, Work)
    ensures Sum(Next(s, step).threads, ListCall) <= Sum(s.threads, ListCall)
    ensures Next(s, step).stopped == s.stopped
  {
    var s' := Next(s, step);
    if step.Return? {
      ReturnWorks(s, step.t, step.woken);
    } else {
      var t := step.t;
      assert ValidThread(s.threads[t]);
      SumUpdate(s.threads, t, s'.threads[t], Work);
      SumUpdate(s.threads, t, s'.threads[t], ListCall);
    }
  }

  lemma ListCallsBoundHolders(s: Monitor)
    requires Inv(s)
    ensures Sum(s.threads, Nesting) <= Sum(s.threads, ListCall)
  {
    forall i | 0 <= i < |s.threads| ensures Nesting(s.threads[i]) <= ListCall(s.threads[i]) {
      assert ValidThread(s.threads[i]);
    }
    SumMonotone(s.threads, Nesting, ListCall);
  }

  function OwnSteps(steps: seq<Step>): nat
    decreases |steps|
  {
    if steps == [] then 0 else (if Own(steps[0]) then 1 else 0) + OwnSteps(steps[1..])
  }

  /** Completion: with fewer GetFriendList calls that have a row than connections, no schedule of
      the calls in progress, the keep-alive pass turning the queue in between as it likes, runs
      for ever or stops early: the calls take at most `Work` steps, and can take no more only
      when every one has finished and given back what it borrowed. */
  lemma {:induction false} EveryRunFinishes(s: Monitor, steps: seq<Step>)
    requires Inv(s) && !s.stopped && Sum(s.threads, ListCall) < |s.all|
    requires Runs(s, steps) && forall k :: 0 <= k < |steps| ==> Own(steps[k]) || steps[k].Rotate?
    ensures OwnSteps(steps) <= Sum(s.threads, Work)
    ensures NoOwnStep(After(s, steps)) ==>
              !SomeUnfinished(After(s, steps)) && |After(s, steps).idle| == |s.all|
    decreases |steps|
  {
    if steps == [] {
      if NoOwnStep(s) {
        AllDone(s);
      }
    } else {
      StepKeepsInv(s, steps[0]);
      if Own(steps[0]) {
        OwnStepWorks(s, steps[0]);
      }
      EveryRunFinishes(Next(s, steps[0]), steps[1..]);
    }
  }

  /** Nothing left to do: everybody has finished. */
  lemma AllDone(s: Monitor)
    requires Inv(s) && !s.stopped && Sum(s.threads, ListCall) < |s.all| && NoOwnStep(s)
    ensures !SomeUnfinished(s) && |s.idle| == |s.all|
  {
    if SomeUnfinished(s) {
      ListCallsBoundHolders(s);
      var step := Progress(s);
      assert false;
    }
    assert forall i :: 0 <= i < |s.threads| ==> ValidThread(s.threads[i]);
    SumZero(s.threads, Held);
  }

  // ---------------------------------------------------------------- one look-up per row

  /** A nested getConnection of thread `i` returns: with a connection, or from a stopped pool with
      nullptr. */
  predicate NestedGet(s: Monitor, step: Step, i: nat) {
    step == Test(i) && i < |s.threads| && s.threads[i].outer.Some? && (s.stopped || s.idle != [])
  }

  function NestedGets(s: Monitor, steps: seq<Step>, i: nat): nat
    requires Runs(s, steps)
    decreases |steps|
  {
    if steps == [] then 0
    else (if NestedGet(s, steps[0], i) then 1 else 0) + NestedGets(Next(s, steps[0]), steps[1..], i)
  }

  /** A call that entered with `rows` rows, after `gets` nested gets: it has the others still to
      make; it ends with none left, or before its first one, on a stopped pool. */
  ghost predicate OnSchedule(s: Monitor, i: nat, rows: nat, gets: nat)
    requires i < |s.threads|
  {
    var t := s.threads[i];
    && ValidThread(t)
    && Left(t) - (if t.inner.Some? then 1 else 0) + gets == rows
    && (t.outer.None? ==> Left(t) == rows || (t.pc.Finished? && Left(t) == 0))
    && (t.pc.Finished? && Left(t) > 0 ==> s.stopped)
  }

  lemma ScheduleStep(s: Monitor, step: Step, i: nat, rows: nat, gets: nat)
    requires Formed(s) && Enabled(s, step) && step != Abort(i) && i < |s.threads| && OnSchedule(s, i, rows, gets)
    ensures i < |Next(s, step).threads|
    ensures OnSchedule(Next(s, step), i, rows, gets + if NestedGet(s, step, i) then 1 else 0)
  {
    StepKeepsFormed(s, step);
  }

  lemma {:induction false} ScheduleRun(s: Monitor, steps: seq<Step>, i: nat, rows: nat, gets: nat)
    requires Formed(s) && i < |s.threads| && Runs(s, steps) && OnSchedule(s, i, rows, gets)
    requires forall k :: 0 <= k < |steps| ==> steps[k] != Abort(i)
    ensures i < |After(s, steps).threads|
    ensures OnSchedule(After(s, steps), i, rows, gets + NestedGets(s, steps, i))
    decreases |steps|
  {
    if steps != [] {
      ScheduleStep(s, steps[0], i, rows, gets);
      StepKeepsFormed(s, steps[0]);
      ScheduleRun(Next(s, steps[0]), steps[1..], i, rows, gets + if NestedGet(s, steps[0], i) then 1 else 0);
    }
  }

  /** A GetFriendList call that no exception breaks off makes one nested look-up per row, also on a
      pool that is closed meanwhile: when it has finished, exactly that many have returned; or
      none, if the pool was closed before it got its own connection. */
  lemma OneLookUpPerRow(s: Monitor, rows: nat, steps: seq<Step>)
    requires Inv(s) && Runs(Next(s, Arrive(FriendList(rows))), steps)
    requires forall k :: 0 <= k < |steps| ==> steps[k] != Abort(|s.threads|)
    ensures var entered, i := Next(s, Arrive(FriendList(rows))), |s.threads|;
            var end, gets := After(entered, steps), NestedGets(entered, steps, i);
            && i < |end.threads| && gets <= rows
            && (end.threads[i].pc.Finished? ==> gets == rows || (gets == 0 && end.stopped))
  {
    var entered, i := Next(s, Arrive(FriendList(rows))), |s.threads|;
    StepKeepsInv(s, Arrive(FriendList(rows)));
    assert ValidThread(entered.threads[i]);
    ScheduleRun(entered, steps, i, rows, 0);
  }

  /** After an exception the call makes no further look-up, whatever happens. */
  lemma {:induction false} NoLookUpAfterAbort(s: Monitor, steps: seq<Step>, i: nat)
    requires Formed(s) && Enabled(s, Abort(i)) && Runs(Next(s, Abort(i)), steps)
    ensures NestedGets(Next(s, Abort(i)), steps, i) == 0
  {
    var s' := Next(s, Abort(i));
    StepKeepsFormed(s, Abort(i));
    NoRowsNoLookUps(s', steps, i);
  }

  lemma {:induction false} NoRowsNoLookUps(s: Monitor, steps: seq<Step>, i: nat)
    requires Formed(s) && Runs(s, steps) && i < |s.threads| && Left(s.threads[i]) == 0 && s.threads[i].outer.Some?
    ensures NestedGets(s, steps, i) == 0
    decreases |steps|
  {
    assert ValidThread(s.threads[i]);
    if steps != [] {
      StepKeepsFormed(s, steps[0]);
      if Next(s, steps[0]).threads[i].outer.Some? {
        NoRowsNoLookUps(Next(s, steps[0]), steps[1..], i);
      } else {
        FinishedNoLookUps(Next(s, steps[0]), steps[1..], i);
      }
    }
  }

  lemma {:induction false} FinishedNoLookUps(s: Monitor, steps: seq<Step>, i: nat)
    requires Runs(s, steps) && i < |s.threads| && s.threads[i].pc.Finished?
    ensures NestedGets(s, steps, i) == 0
    decreases |steps|
  {
    if steps != [] {
      FinishedNoLookUps(Next(s, steps[0]), steps[1..], i);
    }
  }

  // ---------------------------------------------------------------- exactly when a deadlock can happen

  /** The calls that enter the pool during a run. */
  function Arrivals(steps: seq<Step>): seq<Call> {
    if steps == [] then []
    else
      var rest := Arrivals(steps[..|steps| - 1]);
      if steps[|steps| - 1].Arrive? then rest + [steps[|steps| - 1].call] else rest
  }

  /** How many of them are GetFriendList calls with a row. */
  function Rowful(calls: seq<Call>): nat {
    if calls == [] then 0
    else (if calls[0].FriendList? && calls[0].left > 0 then 1 else 0) + Rowful(calls[1..])
  }

  ghost predicate Deadlocked(s: Monitor) {
    !s.stopped && SomeUnfinished(s) && NoOwnStep(s)
  }

  /** `t` is the end of a run in which exactly `calls` entered. */
  ghost predicate Reaches(s: Monitor, calls: seq<Call>, t: Monitor) {
    exists steps :: Runs(s, steps) && Arrivals(steps) == calls && After(s, steps) == t
  }

  lemma {:induction false} RunAppend(s: Monitor, steps: seq<Step>, step: Step)
    requires Runs(s, steps) && Enabled(After(s, steps), step)
    ensures Runs(s, steps + [step]) && After(s, steps + [step]) == Next(After(s, steps), step)
    decreases |steps|
  {
    if steps == [] {
      assert steps + [step] == [step];
      assert [step][1..] == [];
    } else {
      assert (steps + [step])[1..] == steps[1..] + [step];
      RunAppend(Next(s, steps[0]), steps[1..], step);
    }
  }

  lemma {:induction false} RunFront(s: Monitor, steps: seq<Step>, step: Step)
    requires Runs(s, steps + [step])
    ensures Runs(s, steps) && Enabled(After(s, steps), step)
    ensures After(s, steps + [step]) == Next(After(s, steps), step)
    decreases |steps|
  {
    if steps == [] {
      assert steps + [step] == [step];
      assert [step][1..] == [];
    } else {
      assert (steps + [step])[1..] == steps[1..] + [step];
      RunFront(Next(s, steps[0]), steps[1..], step);
    }
  }

  lemma ReachesNext(s: Monitor, calls: seq<Call>, t: Monitor, step: Step)
    requires Reaches(s, calls, t) && Enabled(t, step)
    ensures Reaches(s, if step.Arrive? then calls + [step.call] else calls, Next(t, step))
  {
    var steps :| Runs(s, steps) && Arrivals(steps) == calls && After(s, steps) == t;
    RunAppend(s, steps, step);
    assert (steps + [step])[..|steps|] == steps;
  }

  function HasRow(t: Thread): nat {
    if Left(t) > 0 then 1 else 0
  }

  lemma {:induction false} RowfulAppend(calls: seq<Call>, call: Call)
    ensures Rowful(calls + [call]) == Rowful(calls) + (if call.FriendList? && call.left > 0 then 1 else 0)
  {
    if calls == [] {
      assert calls + [call] == [call];
    } else {
      assert (calls + [call])[1..] == calls[1..] + [call];
      RowfulAppend(calls[1..], call);
    }
  }

  lemma ReturnKeepsRows(s: Monitor, t: nat, woken: Option<nat>)
    requires Enabled(s, Return(t, woken))
    ensures Sum(Next(s, Return(t, woken)).threads, HasRow) <= Sum(s.threads, HasRow)
  {
    var ts := s.threads[t := GiveBack(s.threads[t])];
    SumUpdate(s.threads, t, GiveBack(s.threads[t]), HasRow);
    if woken.Some? {
      SumUpdate(ts, woken.value, Wake(ts[woken.value]), HasRow);
    }
  }

  /** Rows only get fewer. */
  lemma StepKeepsRows(s: Monitor, step: Step)
    requires Enabled(s, step) && !step.Arrive?
    ensures Sum(Next(s, step).threads, HasRow) <= Sum(s.threads, HasRow)
    ensures |Next(s, step).threads| == |s.threads|
  {
    match step
    case Return(t, woken) => ReturnKeepsRows(s, t, woken);
    case Rotate =>
    case Stop =>
    case NotifyAll => WakeKeepsRows(s.threads);
    case Test(t) => SumUpdate(s.threads, t, Next(s, step).threads[t], HasRow);
    case Park(t) => SumUpdate(s.threads, t, Next(s, step).threads[t], HasRow);
    case Nest(t) => SumUpdate(s.threads, t, Next(s, step).threads[t], HasRow);
    case Abort(t) => SumUpdate(s.threads, t, Next(s, step).threads[t], HasRow);
    case Spurious(t) => SumUpdate(s.threads, t, Next(s, step).threads[t], HasRow);
  }

  lemma {:induction false} WakeKeepsRows(ts: seq<Thread>)
    ensures Sum(WakeAll(ts), HasRow) == Sum(ts, HasRow)
  {
    if ts != [] {
      WakeKeepsRows(ts[1..]);
    }
  }

  /** Threads and rows of a run come from the calls that entered. */
  lemma {:induction false} RowsFromArrivals(conns: seq<Conn>, steps: seq<Step>)
    requires Runs(Fresh(conns), steps)
    ensures |After(Fresh(conns), steps).threads| == |Arrivals(steps)|
    ensures Sum(After(Fresh(conns), steps).threads, HasRow) <= Rowful(Arrivals(steps))
    decreases |steps|
  {
    if steps != [] {
      var before, last := steps[..|steps| - 1], steps[|steps| - 1];
      assert steps == before + [last];
      RunFront(Fresh(conns), before, last);
      RowsFromArrivals(conns, before);
      var s := After(Fresh(conns), before);
      if last.Arrive? {
        SumAppend(s.threads, Thread(last.call, None, None, Want), HasRow);
        RowfulAppend(Arrivals(before), last.call);
      } else {
        StepKeepsRows(s, last);
      }
    }
  }

  /** Fewer calls with rows than connections: no run of them ends in a deadlock. */
  lemma FewListersNoDeadlock(conns: seq<Conn>, steps: seq<Step>)
    requires forall i, j :: 0 <= i < j < |conns| ==> conns[i] != conns[j]
    requires Runs(Fresh(conns), steps) && Deadlocked(After(Fresh(conns), steps))
    ensures Arrivals(steps) != [] && |conns| <= Rowful(Arrivals(steps))
  {
    var s := After(Fresh(conns), steps);
    FreshInv(conns);
    DistinctSize(conns);
    RunKeepsInv(Fresh(conns), steps);
    RowsFromArrivals(conns, steps);
    SumMonotone(s.threads, Nesting, HasRow);
    if Sum(s.threads, Nesting) < |s.all| {
      var step := Progress(s);
      assert false;
    }
  }

  // Conversely, enough of them can be driven into one.

  ghost predicate NobodyWorks(s: Monitor) {
    !s.stopped && forall i :: 0 <= i < |s.threads| ==> !s.threads[i].pc.Working? && !s.threads[i].pc.Finished?
  }

  /** Nobody works and nothing is idle: the calls test and go to sleep, one after the other. */
  lemma {:induction false} Drain(start: Monitor, calls: seq<Call>, s: Monitor) returns (end: Monitor)
    requires Reaches(start, calls, s) && Inv(s) && NobodyWorks(s) && s.idle == [] && s.threads != []
    ensures Reaches(start, calls, end) && Deadlocked(end) && NobodyWorks(end) && |end.threads| == |s.threads|
    decreases Sum(s.threads, Work)
  {
    if s.mutex.Some? {
      end := DrainStep(start, calls, s, Park(s.mutex.value));
    } else if t :| 0 <= t < |s.threads| && s.threads[t].pc.Want? {
      end := DrainStep(start, calls, s, Test(t));
    } else {
      end := s;
      assert !s.threads[0].pc.Finished?;
    }
  }

  lemma {:induction false} DrainStep(start: Monitor, calls: seq<Call>, s: Monitor, step: Step) returns (end: Monitor)
    requires Reaches(start, calls, s) && Inv(s) && NobodyWorks(s) && s.idle == [] && s.threads != []
    requires (step.Park? || step.Test?) && Enabled(s, step)
    ensures Reaches(start, calls, end) && Deadlocked(end) && NobodyWorks(end) && |end.threads| == |s.threads|
    decreases Sum(s.threads, Work), 0
  {
    ReachesNext(start, calls, s, step);
    StepKeepsInv(s, step);
    OwnStepWorks(s, step);
    end := Drain(start, calls, Next(s, step));
  }

  /** Calls that have not asked for anything yet. */
  ghost predicate Waiting(s: Monitor, from: nat) {
    from <= |s.threads| && forall i :: from <= i < |s.threads| ==> s.threads[i].pc.Want? && s.threads[i].outer.None?
  }

  /** Call number `i`, which has a row, takes an idle connection and leaves off where it asks
      for a second. */
  lemma OccupyOne(start: Monitor, calls: seq<Call>, s: Monitor, i: nat) returns (s2: Monitor)
    requires Reaches(start, calls, s) && Inv(s) && NobodyWorks(s) && s.mutex.None? && s.idle != []
    requires i < |s.threads| && s.threads[i].pc.Want? && s.threads[i].outer.None? && HasRow(s.threads[i]) == 1
    ensures Reaches(start, calls, s2) && Inv(s2) && NobodyWorks(s2) && s2.mutex.None?
    ensures s2.idle == s.idle[1..] && |s2.threads| == |s.threads| && s2.threads[i + 1..] == s.threads[i + 1..]
  {
    ReachesNext(start, calls, s, Test(i));
    StepKeepsInv(s, Test(i));
    var s1 := Next(s, Test(i));
    ReachesNext(start, calls, s1, Nest(i));
    StepKeepsInv(s1, Nest(i));
    s2 := Next(s1, Nest(i));
  }

  lemma WaitingLater(s: Monitor, t: Monitor, i: nat)
    requires Waiting(s, i) && i < |s.threads| == |t.threads| && t.threads[i + 1..] == s.threads[i + 1..]
    ensures Waiting(t, i + 1)
  {
    forall k | i + 1 <= k < |t.threads| ensures t.threads[k].pc.Want? && t.threads[k].outer.None? {
      assert t.threads[k] == t.threads[i + 1..][k - i - 1] == s.threads[i + 1..][k - i - 1];
    }
  }

  /** The calls from number `i` on with a row take the idle connections. */
  lemma {:induction false} Occupy(start: Monitor, calls: seq<Call>, s: Monitor, i: nat) returns (end: Monitor)
    requires Reaches(start, calls, s) && Inv(s) && NobodyWorks(s) && s.mutex.None? && s.threads != []
    requires Waiting(s, i) && |s.idle| <= Sum(s.threads[i..], HasRow)
    ensures Reaches(start, calls, end) && Deadlocked(end) && NobodyWorks(end) && |end.threads| == |s.threads|
    decreases |s.threads| - i
  {
    if s.idle == [] {
      end := Drain(start, calls, s);
    } else {
      assert s.threads[i..] != [];
      assert s.threads[i..][1..] == s.threads[i + 1..];
      if HasRow(s.threads[i]) == 0 {
        end := Occupy(start, calls, s, i + 1);
      } else {
        var s2 := OccupyOne(start, calls, s, i);
        WaitingLater(s, s2, i);
        end := Occupy(start, calls, s2, i + 1);
      }
    }
  }

  /** All calls have entered and none has asked for anything. */
  lemma {:induction false} AllArrive(conns: seq<Conn>, calls: seq<Call>) returns (s: Monitor)
    requires forall i, j :: 0 <= i < j < |conns| ==> conns[i] != conns[j]
    ensures Reaches(Fresh(conns), calls, s) && Inv(s) && s.idle == conns && s.mutex.None? && !s.stopped
    ensures |s.threads| == |calls| && Waiting(s, 0)
    ensures Sum(s.threads, HasRow) == Rowful(calls)
  {
    if calls == [] {
      s := Fresh(conns);
      FreshInv(conns);
      assert Runs(s, []) && Arrivals([]) == [] && After(s, []) == s;
    } else {
      var front, call := calls[..|calls| - 1], calls[|calls| - 1];
      assert calls == front + [call];
      var s0 := AllArrive(conns, front);
      ReachesNext(Fresh(conns), front, s0, Arrive(call));
      StepKeepsInv(s0, Arrive(call));
      s := Next(s0, Arrive(call));
      SumAppend(s0.threads, Thread(call, None, None, Want), HasRow);
      RowfulAppend(front, call);
    }
  }

  /** A pool can be brought into a deadlock by a given list of calls exactly when at least as
      many of them as it has connections are GetFriendList calls with a row. */
  lemma DeadlockExactly(conns: seq<Conn>, calls: seq<Call>)
    requires forall i, j :: 0 <= i < j < |conns| ==> conns[i] != conns[j]
    ensures (exists s :: Reaches(Fresh(conns), calls, s) && Deadlocked(s)) <==>
            calls != [] && |conns| <= Rowful(calls)
  {
    if s :| Reaches(Fresh(conns), calls, s) && Deadlocked(s) {
      var steps :| Runs(Fresh(conns), steps) && Arrivals(steps) == calls && After(Fresh(conns), steps) == s;
      FewListersNoDeadlock(conns, steps);
    }
    if calls != [] && |conns| <= Rowful(calls) {
      var s := AllArrive(conns, calls);
      assert s.threads[0..] == s.threads;
      var end := Occupy(Fresh(conns), calls, s, 0);
    }
  }

  // ---------------------------------------------------------------- close

  predicate Asleep(t: Thread) {
    t.pc.Parked? || t.pc.Blocked?
  }

  /** Once the flag is set, over every run: no connection is handed out, a call that entered
      later never gets one, and nobody goes to sleep but a thread that was already on its way:
      it had found the queue empty and has not released the mutex since. */
  lemma {:induction false} StoppedPoolRefuses(s: Monitor, steps: seq<Step>, i: nat)
    requires Formed(s) && s.stopped && Runs(s, steps) && i < |After(s, steps).threads|
    ensures var s' := After(s, steps);
            && s'.stopped && |s.threads| <= |s'.threads| && |s'.idle| == |s.idle|
            && Conns(s'.threads[i]) <= (if i < |s.threads| then Conns(s.threads[i]) else {})
            && (Asleep(s'.threads[i]) ==> i < |s.threads| && Asleep(s.threads[i]))
            && (s'.threads[i].pc.Parked? <==>
                i < |s.threads| && s.threads[i].pc.Parked? && Park(i) !in steps)
    decreases |steps|
  {
    if steps != [] {
      StepKeepsFormed(s, steps[0]);
      StoppedPoolRefuses(Next(s, steps[0]), steps[1..], i);
      StoppedStep(s, steps[0], i);
      assert Park(i) in steps <==> steps[0] == Park(i) || Park(i) in steps[1..];
    }
  }

  lemma StoppedStep(s: Monitor, step: Step, i: nat)
    requires Formed(s) && s.stopped && Enabled(s, step)
    ensures var s' := Next(s, step);
            && |s.threads| <= |s'.threads| && |s'.idle| == |s.idle| && s'.stopped
            && (i < |s.threads| ==> Conns(s'.threads[i]) <= Conns(s.threads[i]))
            && (i < |s.threads| && Asleep(s'.threads[i]) ==> Asleep(s.threads[i]))
            && (i < |s.threads| ==> (s'.threads[i].pc.Parked? <==> s.threads[i].pc.Parked? && step != Park(i)))
            && (|s.threads| <= i < |s'.threads| ==> Conns(s'.threads[i]) == {} && !Asleep(s'.threads[i]))
  {
  }

  /** Steps other than a spurious wake-up or a second notification. */
  predicate Quiet(step: Step) {
    !step.NotifyAll? && !step.Spurious?
  }

  /** After the notification nobody is woken any more. */
  lemma {:induction false} SleepersStay(s: Monitor, steps: seq<Step>, i: nat)
    requires Formed(s) && s.stopped && i < |s.threads| && Asleep(s.threads[i])
    requires Runs(s, steps) && forall k :: 0 <= k < |steps| ==> Quiet(steps[k])
    ensures i < |After(s, steps).threads| && Asleep(After(s, steps).threads[i])
    decreases |steps|
  {
    if steps != [] {
      StepKeepsFormed(s, steps[0]);
      SleepersStay(Next(s, steps[0]), steps[1..], i);
    }
  }

  lemma FreeMutex(s: Monitor)
    requires Formed(s) && NoOwnStep(s)
    ensures s.mutex.None?
  {
    if s.mutex.Some? {
      var step := Park(s.mutex.value);
      assert Own(step) && Enabled(s, step);
    }
  }

  /** Nothing can step in a stopped pool: who is not finished is asleep. */
  lemma RestIsAsleep(s: Monitor, i: nat)
    requires Formed(s) && s.stopped && NoOwnStep(s) && i < |s.threads|
    ensures s.threads[i].pc.Finished? <==> !Asleep(s.threads[i])
  {
    FreeMutex(s);
    assert !Enabled(s, Test(i)) && !Enabled(s, Return(i, None)) && !Enabled(s, Nest(i));
    assert ValidThread(s.threads[i]);
  }

  /** Seen from the notification: it strands the thread between test and sleep. */
  lemma StrandedByNotify(s: Monitor, steps: seq<Step>, i: nat)
    requires Formed(s) && s.stopped && Runs(Next(s, NotifyAll), steps)
    requires forall k :: 0 <= k < |steps| ==> Quiet(steps[k])
    requires Formed(After(Next(s, NotifyAll), steps)) && NoOwnStep(After(Next(s, NotifyAll), steps))
    requires i < |After(Next(s, NotifyAll), steps).threads|
    ensures !After(Next(s, NotifyAll), steps).threads[i].pc.Finished? <==> i < |s.threads| && s.threads[i].pc.Parked?
  {
    var notified := Next(s, NotifyAll);
    StepKeepsFormed(s, NotifyAll);
    StoppedPoolRefuses(notified, steps, i);
    RestIsAsleep(After(notified, steps), i);
    if i < |s.threads| && s.threads[i].pc.Parked? {
      SleepersStay(notified, steps, i);
    }
  }

  /** close() does not take the mutex, so its notification can fall between a thread's test and
      its sleep. Let `s` be the state in which it sets the flag, `before` what happens until it
      notifies and `after` what happens then. Once no call can step, the unfinished calls are
      exactly those that were between test and sleep all that time. */
  lemma StrandedExactly(s: Monitor, before: seq<Step>, after: seq<Step>, i: nat)
    requires Inv(s) && Runs(Next(s, Stop), before)
    requires Enabled(After(Next(s, Stop), before), NotifyAll)
    requires var notified := Next(After(Next(s, Stop), before), NotifyAll);
             && Runs(notified, after) && (forall k :: 0 <= k < |after| ==> Quiet(after[k]))
             && NoOwnStep(After(notified, after)) && i < |After(notified, after).threads|
    ensures var end := After(Next(After(Next(s, Stop), before), NotifyAll), after);
            !end.threads[i].pc.Finished? <==>
            i < |s.threads| && s.threads[i].pc.Parked? && Park(i) !in before
  {
    var stopped := Next(s, Stop);
    var waiting := After(stopped, before);
    StepKeepsInv(s, Stop);
    RunKeepsInv(stopped, before);
    StepKeepsInv(waiting, NotifyAll);
    RunKeepsInv(Next(waiting, NotifyAll), after);
    StrandedByNotify(waiting, after, i);
    ThreadsStay(stopped, before);
    if i < |waiting.threads| {
      StoppedPoolRefuses(stopped, before, i);
    }
  }

  lemma {:induction false} ThreadsStay(s: Monitor, steps: seq<Step>)
    requires Runs(s, steps)
    ensures |s.threads| <= |After(s, steps).threads|
    decreases |steps|
  {
    if steps != [] {
      ThreadsStay(Next(s, steps[0]), steps[1..]);
    }
  }

  /** The first of two calls has the only connection, the second has found none. */
  function Window(conn: Conn): Monitor {
    Monitor({conn}, [], [Thread(Single, Some(conn), None, Working), Thread(Single, None, None, Parked)], Some(1), false)
  }

  lemma WindowReachable(conn: Conn)
    ensures Reaches(Fresh([conn]), [Single, Single], Window(conn))
  {
    var start, s2 := Fresh([conn]), TwoWaiting(conn);
    TwoWaitingReachable(conn);
    ReachesNext(start, [Single, Single], s2, Test(0));
    var s3 := Next(s2, Test(0));
    assert s3.threads == [Thread(Single, Some(conn), None, Working), Thread(Single, None, None, Want)];
    ReachesNext(start, [Single, Single], s3, Test(1));
    assert Next(s3, Test(1)).threads == Window(conn).threads;
  }

  function TwoWaiting(conn: Conn): Monitor {
    Monitor({conn}, [conn], [Thread(Single, None, None, Want), Thread(Single, None, None, Want)], None, false)
  }

  lemma TwoWaitingReachable(conn: Conn)
    ensures Reaches(Fresh([conn]), [Single, Single], TwoWaiting(conn))
  {
    var start := Fresh([conn]);
    assert Runs(start, []) && Arrivals([]) == [] && After(start, []) == start;
    ReachesNext(start, [], start, Arrive(Single));
    var s1 := Next(start, Arrive(Single));
    assert [] + [Single] == [Single];
    ReachesNext(start, [Single], s1, Arrive(Single));
    assert [Single] + [Single] == [Single, Single];
    assert Next(s1, Arrive(Single)).threads == TwoWaiting(conn).threads && start.all == {conn};
  }

  /** In a stopped pool, once notified, the calls in progress do not go on for ever. */
  lemma {:induction false} StoppedRunEnds(s: Monitor, steps: seq<Step>)
    requires Inv(s) && s.stopped && Runs(s, steps)
    requires forall k :: 0 <= k < |steps| ==> Own(steps[k]) || steps[k].Rotate?
    ensures OwnSteps(steps) <= Sum(s.threads, Work)
    decreases |steps|
  {
    if steps != [] {
      StepKeepsInv(s, steps[0]);
      if Own(steps[0]) {
        OwnStepWorks(s, steps[0]);
      }
      StoppedRunEnds(Next(s, steps[0]), steps[1..]);
    }
  }

  /** A run that leaves a call asleep for ever: close() comes and goes before it sleeps. */
  lemma StrandedReachable(conn: Conn) returns (end: Monitor)
    ensures Reaches(Fresh([conn]), [Single, Single], end) && NoOwnStep(end)
    ensures end.stopped && |end.threads| == 2 && end.threads[1].pc.Blocked?
  {
    var start, calls, s4 := Fresh([conn]), [Single, Single], Window(conn);
    WindowReachable(conn);
    ReachesNext(start, calls, s4, Stop);
    var s5 := Next(s4, Stop);
    ReachesNext(start, calls, s5, NotifyAll);
    var s6 := Next(s5, NotifyAll);
    ReachesNext(start, calls, s6, Park(1));
    var s7 := Next(s6, Park(1));
    ReachesNext(start, calls, s7, Return(0, None));
    end := Next(s7, Return(0, None));
  }
}
