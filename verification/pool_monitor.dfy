/**
  The connection pool as a monitor shared by threads that are inside DAO calls
  (MySQLConnectPool.cpp, MySQLDao.cpp; ChatConPool and GPCConnectPool are the same monitor).

  The machine goes down to the condition variable: a thread that finds the wait predicate
  false still owns the mutex (`Parked`) before it sleeps (`Blocked`), a return notifies one
  sleeper, and `close` sets the stop flag (`Stop`) and then notifies all of them (`NotifyAll`)
  without taking the mutex. `GetFriendList` is the one call that asks for a second connection,
  through `GetUser`, while it holds the first.
*/
module PoolMonitor {
  import opened Wrappers

  type Conn = int

  /** `FriendList(left)`: `left` rows of the friend table are still to be looked up. */
  datatype Call = Single | FriendList(left: nat)

  datatype Pc =
    | Want      // in getConnection, about to lock and test the wait predicate
    | Parked    // the predicate was false; the mutex is still owned
    | Blocked   // asleep on the condition variable
    | Working   // owns what it asked for
    | Finished

  /** `outer` is the connection of the call itself, `inner` the one of a nested `GetUser`. */
  datatype Thread = Thread(call: Call, outer: Option<Conn>, inner: Option<Conn>, pc: Pc)

  datatype Monitor = Monitor(
    all: set<Conn>,          // the connections the pool was built with
    idle: seq<Conn>,         // _pool
    threads: seq<Thread>,
    mutex: Option<nat>,      // owner between two steps
    stopped: bool)           // _is_stop

  function Fresh(conns: seq<Conn>): Monitor {
    Monitor((set c | c in conns), conns, [], None, false)
  }

  datatype Step =
    | Arrive(call: Call)                      // a thread enters a DAO method
    | Test(t: nat)                            // lock, evaluate the wait predicate, take or park
    | Park(t: nat)                            // release the mutex and sleep
    | Return(t: nat, woken: Option<nat>)      // returnConnection, with its notify_one
    | Nest(t: nat)                            // GetFriendList calls GetUser for the next row
    | Abort(t: nat)                           // an SQLException skips the remaining rows
    | Spurious(t: nat)                        // a wake-up nobody asked for
    | Rotate                                  // checkConnection, front to back once
    | Stop                                    // close() sets _is_stop: no mutex
    | NotifyAll                               // close() notifies: no mutex

  function Left(t: Thread): nat {
    if t.call.FriendList? then t.call.left else 0
  }

  /** What a working thread gives back next: its inner connection, or its last one. */
  predicate CanReturn(t: Thread) {
    t.pc.Working? && t.outer.Some? && (t.inner.Some? || Left(t) == 0)
  }

  predicate Is(s: Monitor, t: nat, pc: Pc) {
    t < |s.threads| && s.threads[t].pc == pc
  }

  /** notify_one wakes a sleeper whenever there is one. */
  predicate Notifies(s: Monitor, woken: Option<nat>) {
    match woken
    case Some(w) => Is(s, w, Blocked)
    case None => forall i :: 0 <= i < |s.threads| ==> !s.threads[i].pc.Blocked?
  }

  predicate Enabled(s: Monitor, step: Step) {
    match step
    case Arrive(call) => true
    case Test(t) => s.mutex.None? && Is(s, t, Want)
    case Park(t) => s.mutex == Some(t) && Is(s, t, Parked)
    case Return(t, woken) =>
      && s.mutex.None? && t < |s.threads| && CanReturn(s.threads[t])
      && (s.stopped ==> woken.None?)
      && (!s.stopped ==> Notifies(s, woken))
    case Nest(t) =>
      Is(s, t, Working) && s.threads[t].outer.Some? && s.threads[t].inner.None? && Left(s.threads[t]) > 0
    case Abort(t) =>
      Is(s, t, Working) && s.threads[t].outer.Some? && s.threads[t].inner.None? && Left(s.threads[t]) > 0
    case Spurious(t) => Is(s, t, Blocked)
    case Rotate => s.mutex.None? && s.idle != []
    case Stop => true
    case NotifyAll => s.stopped
  }

  /** A thread after it was handed connection `c`. */
  function Take(t: Thread, c: Conn): Thread {
    if t.outer.None? then t.(outer := Some(c), pc := Working) else t.(inner := Some(c), pc := Working)
  }

  /** A thread after getConnection answered nullptr: the call ends, a nested lookup is skipped. */
  function Refuse(t: Thread): Thread {
    if t.outer.None? then t.(pc := Finished)
    else t.(call := FriendList(if Left(t) > 0 then Left(t) - 1 else 0), pc := Working)
  }

  function Returned(t: Thread): Conn
    requires CanReturn(t)
  {
    if t.inner.Some? then t.inner.value else t.outer.value
  }

  /** A thread after it gave a connection back. */
  function GiveBack(t: Thread): Thread
    requires CanReturn(t)
  {
    if t.inner.Some? then t.(call := FriendList(if Left(t) > 0 then Left(t) - 1 else 0), inner := None)
    else t.(outer := None, pc := Finished)
  }

  function Wake(t: Thread): Thread {
    if t.pc.Blocked? then t.(pc := Want) else t
  }

  function WakeAll(ts: seq<Thread>): (r: seq<Thread>)
    ensures |r| == |ts|
    ensures forall i :: 0 <= i < |ts| ==> r[i] == Wake(ts[i])
  {
    if ts == [] then [] else [Wake(ts[0])] + WakeAll(ts[1..])
  }

  function Next(s: Monitor, step: Step): Monitor
    requires Enabled(s, step)
  {
    match step
    case Arrive(call) => s.(threads := s.threads + [Thread(call, None, None, Want)])
    case Test(t) =>
      var th := s.threads[t];
      if s.stopped then s.(threads := s.threads[t := Refuse(th)])
      else if s.idle != [] then s.(idle := s.idle[1..], threads := s.threads[t := Take(th, s.idle[0])])
      else s.(threads := s.threads[t := th.(pc := Parked)], mutex := Some(t))
    case Park(t) => s.(threads := s.threads[t := s.threads[t].(pc := Blocked)], mutex := None)
    case Return(t, woken) =>
      var th := s.threads[t];
      var ts := s.threads[t := GiveBack(th)];
      if s.stopped then s.(threads := ts)
      else
        s.(idle := s.idle + [Returned(th)],
           threads := if woken.Some? then ts[woken.value := Wake(ts[woken.value])] else ts)
    case Nest(t) => s.(threads := s.threads[t := s.threads[t].(pc := Want)])
    case Abort(t) => s.(threads := s.threads[t := s.threads[t].(call := FriendList(0))])
    case Spurious(t) => s.(threads := s.threads[t := Wake(s.threads[t])])
    case Rotate => s.(idle := s.idle[1..] + [s.idle[0]])
    case Stop => s.(stopped := true)
    case NotifyAll => s.(threads := WakeAll(s.threads))
  }

  predicate Runs(s: Monitor, steps: seq<Step>)
    decreases |steps|
  {
    steps == [] || (Enabled(s, steps[0]) && Runs(Next(s, steps[0]), steps[1..]))
  }

  function After(s: Monitor, steps: seq<Step>): Monitor
    requires Runs(s, steps)
    decreases |steps|
  {
    if steps == [] then s else After(Next(s, steps[0]), steps[1..])
  }

  // ---------------------------------------------------------------- counting over threads

  function Sum(ts: seq<Thread>, w: Thread -> nat): nat {
    if ts == [] then 0 else w(ts[0]) + Sum(ts[1..], w)
  }

  lemma {:induction false} SumUpdate(ts: seq<Thread>, i: nat, t: Thread, w: Thread -> nat)
    requires i < |ts|
    ensures Sum(ts[i := t], w) + w(ts[i]) == Sum(ts, w) + w(t)
  {
    if i > 0 {
      assert ts[i := t][1..] == ts[1..][i - 1 := t];
      SumUpdate(ts[1..], i - 1, t, w);
    } else {
      assert ts[i := t][1..] == ts[1..];
    }
  }

  lemma {:induction false} SumAppend(ts: seq<Thread>, t: Thread, w: Thread -> nat)
    ensures Sum(ts + [t], w) == Sum(ts, w) + w(t)
  {
    if ts == [] {
      assert ts + [t] == [t];
    } else {
      assert (ts + [t])[1..] == ts[1..] + [t];
      SumAppend(ts[1..], t, w);
    }
  }

  lemma {:induction false} SumMonotone(ts: seq<Thread>, v: Thread -> nat, w: Thread -> nat)
    requires forall i :: 0 <= i < |ts| ==> v(ts[i]) <= w(ts[i])
    ensures Sum(ts, v) <= Sum(ts, w)
  {
    if ts != [] {
      assert forall i :: 0 <= i < |ts[1..]| ==> ts[1..][i] == ts[i + 1];
      SumMonotone(ts[1..], v, w);
    }
  }

  /** Connections held by a thread. */
  function Held(t: Thread): nat {
    (if t.outer.Some? then 1 else 0) + (if t.inner.Some? then 1 else 0)
  }

  function Wanting(t: Thread): nat {
    if t.pc.Want? then 1 else 0
  }

  /** Inside GetFriendList with the first connection in hand and a row still to look up. */
  function Nesting(t: Thread): nat {
    if t.outer.Some? && Left(t) > 0 then 1 else 0
  }

  /** Unfinished GetFriendList calls with a row still to look up. */
  function ListCall(t: Thread): nat {
    if Left(t) > 0 && !t.pc.Finished? then 1 else 0
  }

  // ---------------------------------------------------------------- invariants

  predicate ValidThread(t: Thread) {
    && (t.call.Single? ==> t.inner.None?)
    && (t.inner.Some? ==> t.outer.Some? && t.pc.Working? && Left(t) > 0)
    && (t.pc.Working? ==> t.outer.Some?)
    && (t.pc.Finished? ==> t.outer.None?)
    && (t.outer.Some? && !t.pc.Working? ==> Left(t) > 0)
  }

  predicate Holds(t: Thread, c: Conn) {
    t.outer == Some(c) || t.inner == Some(c)
  }

  /** No connection is held twice, or held and idle. */
  ghost predicate Exclusive(s: Monitor) {
    && (forall i :: 0 <= i < |s.idle| ==> s.idle[i] in s.all)
    && (forall i, j :: 0 <= i < j < |s.idle| ==> s.idle[i] != s.idle[j])
    && (forall i, c :: 0 <= i < |s.threads| && Holds(s.threads[i], c) ==> c in s.all && c !in s.idle)
    && (forall i, j, c :: 0 <= i < j < |s.threads| && Holds(s.threads[i], c) ==> !Holds(s.threads[j], c))
    && (forall i :: 0 <= i < |s.threads| && s.threads[i].inner.Some? ==> s.threads[i].outer != s.threads[i].inner)
  }

  ghost predicate SomeBlocked(s: Monitor) {
    exists i :: 0 <= i < |s.threads| && s.threads[i].pc.Blocked?
  }

  /** Threads are well formed and the mutex owner is the one parked thread. */
  ghost predicate Formed(s: Monitor) {
    && (forall i :: 0 <= i < |s.threads| ==> ValidThread(s.threads[i]))
    && (s.mutex.Some? ==> s.mutex.value < |s.threads| && s.threads[s.mutex.value].pc.Parked?)
    && (forall i :: 0 <= i < |s.threads| && s.threads[i].pc.Parked? ==> s.mutex == Some(i))
    && (!s.stopped && s.mutex.Some? ==> s.idle == [])
  }

  /** Until close: idle and borrowed together are as many as the pool was built with, and no
      wake-up is lost: while somebody sleeps, every idle connection has a thread on its way. */
  ghost predicate Balanced(s: Monitor) {
    !s.stopped ==>
      && |s.idle| + Sum(s.threads, Held) == |s.all|
      && (SomeBlocked(s) ==> |s.idle| <= Sum(s.threads, Wanting))
  }

  ghost predicate Shape(s: Monitor) {
    Formed(s) && Balanced(s)
  }

  ghost predicate Inv(s: Monitor) {
    Shape(s) && Exclusive(s)
  }

  lemma FreshInv(conns: seq<Conn>)
    requires forall i, j :: 0 <= i < j < |conns| ==> conns[i] != conns[j]
    ensures Inv(Fresh(conns))
  {
    DistinctSize(conns);
  }

  lemma {:induction false} DistinctSize(conns: seq<Conn>)
    requires forall i, j :: 0 <= i < j < |conns| ==> conns[i] != conns[j]
    ensures |set c | c in conns| == |conns|
  {
    if conns != [] {
      DistinctSize(conns[1..]);
      assert conns[0] !in conns[1..];
      assert (set c | c in conns) == {conns[0]} + (set c | c in conns[1..]);
    }
  }

  // ---------------------------------------------------------------- steps keep Exclusive

  /** A step that moves no connection. */
  lemma SameHoldings(s: Monitor, s': Monitor)
    requires Exclusive(s) && s'.all == s.all && s'.idle == s.idle && |s'.threads| == |s.threads|
    requires forall i :: 0 <= i < |s.threads| ==>
               s'.threads[i].outer == s.threads[i].outer && s'.threads[i].inner == s.threads[i].inner
    ensures Exclusive(s')
  {
    assert forall i, c :: 0 <= i < |s.threads| ==> (Holds(s'.threads[i], c) <==> Holds(s.threads[i], c));
  }

  lemma TakeKeepsExclusive(s: Monitor, t: nat)
    requires Exclusive(s) && Enabled(s, Test(t)) && !s.stopped && s.idle != []
    requires ValidThread(s.threads[t])
    ensures Exclusive(Next(s, Test(t)))
  {
    var s' := Next(s, Test(t));
    var c0 := s.idle[0];
    assert forall i :: 0 <= i < |s'.idle| ==> s'.idle[i] == s.idle[i + 1];
    assert c0 !in s'.idle;
    forall i, c | 0 <= i < |s'.threads| && Holds(s'.threads[i], c)
      ensures (i == t && c == c0) || Holds(s.threads[i], c)
    {
    }
    forall i, c | 0 <= i < |s'.threads| && Holds(s'.threads[i], c)
      ensures c in s.all && c !in s'.idle
    {
      assert c !in s.idle || c == c0;
    }
  }

  lemma ReturnKeepsExclusive(s: Monitor, t: nat, woken: Option<nat>)
    requires Exclusive(s) && Enabled(s, Return(t, woken))
    ensures Exclusive(Next(s, Return(t, woken)))
  {
    var s' := Next(s, Return(t, woken));
    var back := Returned(s.threads[t]);
    assert Holds(s.threads[t], back);
    forall i, c | 0 <= i < |s'.threads| && Holds(s'.threads[i], c)
      ensures Holds(s.threads[i], c) && c != back
    {
    }
    if !s.stopped {
      assert forall i :: 0 <= i < |s'.idle| ==> s'.idle[i] == if i < |s.idle| then s.idle[i] else back;
      assert back !in s.idle;
    }
  }

  lemma ArriveKeepsExclusive(s: Monitor, call: Call)
    requires Exclusive(s)
    ensures Exclusive(Next(s, Arrive(call)))
  {
    var s' := Next(s, Arrive(call));
    assert forall i, c :: 0 <= i < |s'.threads| && Holds(s'.threads[i], c) ==> i < |s.threads| && Holds(s.threads[i], c);
  }

  lemma RotateKeepsExclusive(s: Monitor)
    requires Exclusive(s) && Enabled(s, Rotate)
    ensures Exclusive(Next(s, Rotate))
  {
    var s' := Next(s, Rotate);
    var n := |s.idle|;
    assert forall i :: 0 <= i < n ==> s'.idle[i] == s.idle[if i < n - 1 then i + 1 else 0];
    assert forall c :: c in s'.idle <==> c in s.idle;
  }

  lemma StepKeepsExclusive(s: Monitor, step: Step)
    requires Inv(s) && Enabled(s, step)
    ensures Exclusive(Next(s, step))
  {
    match step
    case Arrive(call) => ArriveKeepsExclusive(s, call);
    case Test(t) =>
      if !s.stopped && s.idle != [] {
        TakeKeepsExclusive(s, t);
      } else {
        SameHoldings(s, Next(s, step));
      }
    case Return(t, woken) => ReturnKeepsExclusive(s, t, woken);
    case Rotate => RotateKeepsExclusive(s);
    case _ => SameHoldings(s, Next(s, step));
  }

  // ---------------------------------------------------------------- steps keep Shape

  lemma ArriveKeepsBalanced(s: Monitor, call: Call)
    requires Balanced(s)
    ensures Balanced(Next(s, Arrive(call)))
  {
    var th := Thread(call, None, None, Want);
    var s' := Next(s, Arrive(call));
    SumAppend(s.threads, th, Held);
    SumAppend(s.threads, th, Wanting);
    assert forall i :: 0 <= i < |s.threads| ==> s'.threads[i] == s.threads[i];
  }

  /** Test, Park, Nest, Abort, Spurious: one thread moves. */
  lemma LocalKeepsBalanced(s: Monitor, t: nat, step: Step)
    requires Shape(s) && Enabled(s, step)
    requires step == Test(t) || step == Park(t) || step == Nest(t) || step == Abort(t) || step == Spurious(t)
    ensures Balanced(Next(s, step))
  {
    var s' := Next(s, step);
    SumUpdate(s.threads, t, s'.threads[t], Held);
    SumUpdate(s.threads, t, s'.threads[t], Wanting);
    if !s'.stopped && SomeBlocked(s') && !step.Park? {
      var i :| 0 <= i < |s'.threads| && s'.threads[i].pc.Blocked?;
      assert s.threads[i].pc.Blocked?;
    }
  }

  lemma ReturnKeepsBalanced(s: Monitor, t: nat, woken: Option<nat>)
    requires Shape(s) && Enabled(s, Return(t, woken))
    ensures Balanced(Next(s, Return(t, woken)))
  {
    var s' := Next(s, Return(t, woken));
    var back := GiveBack(s.threads[t]);
    var ts := s.threads[t := back];
    SumUpdate(s.threads, t, back, Held);
    SumUpdate(s.threads, t, back, Wanting);
    if woken.Some? {
      var w := woken.value;
      SumUpdate(ts, w, Wake(ts[w]), Held);
      SumUpdate(ts, w, Wake(ts[w]), Wanting);
    }
    if !s'.stopped && SomeBlocked(s') {
      var i :| 0 <= i < |s'.threads| && s'.threads[i].pc.Blocked?;
      assert s.threads[i].pc.Blocked?;
    }
  }

  lemma ReturnKeepsFormed(s: Monitor, t: nat, woken: Option<nat>)
    requires Formed(s) && Enabled(s, Return(t, woken))
    ensures Formed(Next(s, Return(t, woken)))
  {
  }

  lemma TestKeepsFormed(s: Monitor, t: nat)
    requires Formed(s) && Enabled(s, Test(t))
    ensures Formed(Next(s, Test(t)))
  {
  }

  lemma StepKeepsFormed(s: Monitor, step: Step)
    requires Formed(s) && Enabled(s, step)
    ensures Formed(Next(s, step))
  {
    match step
    case Return(t, woken) => ReturnKeepsFormed(s, t, woken);
    case Test(t) => TestKeepsFormed(s, t);
    case _ =>
  }

  lemma StepKeepsShape(s: Monitor, step: Step)
    requires Shape(s) && Enabled(s, step)
    ensures Shape(Next(s, step))
  {
    StepKeepsFormed(s, step);
    match step
    case Arrive(call) => ArriveKeepsBalanced(s, call);
    case Return(t, woken) => ReturnKeepsBalanced(s, t, woken);
    case Rotate => assert SomeBlocked(Next(s, Rotate)) <==> SomeBlocked(s);
    case Stop =>
    case NotifyAll =>
    case Test(t) => LocalKeepsBalanced(s, t, step);
    case Park(t) => LocalKeepsBalanced(s, t, step);
    case Nest(t) => LocalKeepsBalanced(s, t, step);
    case Abort(t) => LocalKeepsBalanced(s, t, step);
    case Spurious(t) => LocalKeepsBalanced(s, t, step);
  }

  lemma StepKeepsInv(s: Monitor, step: Step)
    requires Inv(s) && Enabled(s, step)
    ensures Inv(Next(s, step)) && Next(s, step).all == s.all
  {
    StepKeepsShape(s, step);
    StepKeepsExclusive(s, step);
  }

  lemma {:induction false} RunKeepsInv(s: Monitor, steps: seq<Step>)
    requires Inv(s) && Runs(s, steps)
    ensures Inv(After(s, steps)) && After(s, steps).all == s.all
    decreases |steps|
  {
    if steps != [] {
      StepKeepsInv(s, steps[0]);
      RunKeepsInv(Next(s, steps[0]), steps[1..]);
    }
  }
}
