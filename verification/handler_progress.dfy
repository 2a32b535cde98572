/**
  Do the handlers of a chat server come to an end? DealChatTextMsgHandler saves the message first,
  and SaveChatMessage waits for a connection of the server's pool (MySQLDao.cpp), which other calls
  share, GetFriendList among them. Here the requests of one server of a cluster and its pool are
  one machine: a save takes as long as the pool makes it wait.

  A remote call, with its wait for a stub, is taken to return.
*/
module HandlerProgress {
  import opened Wrappers
  import R = ClusterRouting
  import P = PoolMonitor
  import D = DaoProgress

  /** `pool` is that of server `home`; `saving` gives the pool's thread of each of its requests
      that has called SaveChatMessage. */
  datatype Joint = Joint(home: R.Server, cluster: R.Cluster, pool: P.Monitor, saving: map<nat, nat>)

  datatype Step =
    | Chat(move: R.Step)           // any step of the cluster, but not a save on `home`
    | Enter(r: nat)                // SaveChatMessage is called
    | Leave(r: nat, ok: bool)      // SaveChatMessage has given back its connection and returns
    | Pool(step: P.Step)           // any step of a thread in the pool, or of another DAO call

  predicate Local(s: Joint, r: nat) {
    r < |s.cluster.requests| && s.cluster.requests[r].home == s.home
  }

  predicate Enabled(s: Joint, step: Step) {
    match step
    case Chat(st) => R.Enabled(s.cluster, st) && !(st.Save? && Local(s, st.r))
    case Enter(r) => Local(s, r) && s.cluster.requests[r].pc.Received? && r !in s.saving
    case Leave(r, ok) =>
      && Local(s, r) && s.cluster.requests[r].pc.Received?
      && r in s.saving && s.saving[r] < |s.pool.threads| && s.pool.threads[s.saving[r]].pc.Finished?
    case Pool(st) => P.Enabled(s.pool, st)
  }

  function Next(s: Joint, step: Step): Joint
    requires Enabled(s, step)
  {
    match step
    case Chat(st) => s.(cluster := R.Next(s.cluster, st))
    case Enter(r) =>
      s.(pool := P.Next(s.pool, P.Arrive(P.Single)), saving := s.saving[r := |s.pool.threads|])
    case Leave(r, ok) => s.(cluster := R.Next(s.cluster, R.Save(r, ok)))
    case Pool(st) => s.(pool := P.Next(s.pool, st))
  }

  predicate Runs(s: Joint, steps: seq<Step>)
    decreases |steps|
  {
    steps == [] || (Enabled(s, steps[0]) && Runs(Next(s, steps[0]), steps[1..]))
  }

  function After(s: Joint, steps: seq<Step>): Joint
    requires Runs(s, steps)
    decreases |steps|
  {
    if steps == [] then s else After(Next(s, steps[0]), steps[1..])
  }

  // ---------------------------------------------------------------- what the server does by itself

  /** Steps of a handler after its save. */
  predicate Handling(s: Joint, st: R.Step) {
    && (st.Route? || st.LookUp? || st.Push? || st.Rpc? || st.RpcReturns? || st.Respond?)
    && Local(s, st.r)
  }

  /** Steps of the server's handlers and of the calls in its pool. */
  predicate Ours(s: Joint, step: Step) {
    match step
    case Chat(st) => Handling(s, st)
    case Enter(_) => true
    case Leave(_, _) => true
    case Pool(st) => D.Own(st)
  }

  /** Those, and anything that neither brings the server new work nor closes its pool: whatever
      other servers, logins and the keep-alive pass do. */
  predicate Tame(s: Joint, step: Step) {
    || Ours(s, step)
    || (step.Chat? && !(step.move.Arrive? && step.move.home == s.home))
    || step == Pool(P.Rotate)
  }

  predicate TameRun(s: Joint, steps: seq<Step>)
    requires Runs(s, steps)
    decreases |steps|
  {
    steps == [] || (Tame(s, steps[0]) && TameRun(Next(s, steps[0]), steps[1..]))
  }

  function OurSteps(s: Joint, steps: seq<Step>): nat
    requires Runs(s, steps)
    decreases |steps|
  {
    if steps == [] then 0
    else (if Ours(s, steps[0]) then 1 else 0) + OurSteps(Next(s, steps[0]), steps[1..])
  }

  /** The server can do nothing more by itself. */
  ghost predicate AtRest(s: Joint) {
    forall step :: Ours(s, step) ==> !Enabled(s, step)
  }

  ghost predicate Inv(s: Joint) {
    && P.Inv(s.pool) && !s.pool.stopped
    && (forall r :: r in s.saving ==> s.saving[r] < |s.pool.threads|)
  }

  /** Fewer unfinished GetFriendList calls with a row than connections. */
  ghost predicate Roomy(s: Joint) {
    P.Sum(s.pool.threads, P.ListCall) < |s.pool.all|
  }

  // ---------------------------------------------------------------- a measure

  /** Steps a request has left, and those its save adds to the pool. */
  function Weight(s: Joint, r: nat): nat {
    if !Local(s, r) then 0
    else
      var pc := s.cluster.requests[r].pc;
      R.Stage(pc) + if pc.Received? && r !in s.saving then 5 else 0
  }

  function Weights(s: Joint, n: nat): nat {
    if n == 0 then 0 else Weights(s, n - 1) + Weight(s, n - 1)
  }

  lemma {:induction false} WeightsChange(s: Joint, t: Joint, n: nat, r: nat)
    requires forall i :: 0 <= i < n && i != r ==> Weight(t, i) == Weight(s, i)
    ensures r >= n ==> Weights(t, n) == Weights(s, n)
    ensures r < n ==> Weights(t, n) + Weight(s, r) == Weights(s, n) + Weight(t, r)
  {
    if n > 0 {
      WeightsChange(s, t, n - 1, r);
    }
  }

  function Measure(s: Joint): nat {
    Weights(s, |s.cluster.requests|) + P.Sum(s.pool.threads, D.Work)
  }

  /** A step of the cluster leaves the requests it does not handle where they are. */
  lemma Unhandled(c: R.Cluster, step: R.Step, i: nat)
    requires R.Enabled(c, step) && i < |c.requests| && !R.Handles(step, i)
    ensures i < |R.Next(c, step).requests|
    ensures R.Next(c, step).requests[i].pc == c.requests[i].pc && R.Next(c, step).requests[i].home == c.requests[i].home
  {
  }

  lemma HandledStage(c: R.Cluster, step: R.Step, i: nat)
    requires R.Enabled(c, step) && R.Handles(step, i)
    ensures i < |c.requests| == |R.Next(c, step).requests|
    ensures R.Stage(R.Next(c, step).requests[i].pc) < R.Stage(c.requests[i].pc)
    ensures R.Next(c, step).requests[i].home == c.requests[i].home
    ensures !R.Next(c, step).requests[i].pc.Received?
  {
  }

  lemma NewRequest(c: R.Cluster, step: R.Step)
    requires R.Enabled(c, step)
    ensures |R.Next(c, step).requests| == |c.requests| + if step.Arrive? then 1 else 0
    ensures step.Arrive? ==> R.Next(c, step).requests[|c.requests|].home == step.home
  {
  }

  lemma HandlerLowers(s: Joint, r: nat, st: R.Step, t: Joint)
    requires R.Enabled(s.cluster, st) && R.Handles(st, r) && Local(s, r)
    requires t == s.(cluster := R.Next(s.cluster, st))
    ensures Measure(t) < Measure(s)
  {
    HandledStage(s.cluster, st, r);
    var n := |s.cluster.requests|;
    forall i | 0 <= i < n && i != r ensures Weight(t, i) == Weight(s, i) {
      Unhandled(s.cluster, st, i);
    }
    WeightsChange(s, t, n, r);
  }

  /** Steps of the cluster that are no business of this server. */
  lemma OthersKeep(s: Joint, st: R.Step)
    requires Enabled(s, Chat(st)) && !Handling(s, st) && !(st.Arrive? && st.home == s.home)
    ensures Measure(Next(s, Chat(st))) == Measure(s)
  {
    var t, n := Next(s, Chat(st)), |s.cluster.requests|;
    NewRequest(s.cluster, st);
    forall i | 0 <= i < n ensures Weight(t, i) == Weight(s, i) {
      if R.Handles(st, i) {
        HandledStage(s.cluster, st, i);
      } else {
        Unhandled(s.cluster, st, i);
      }
    }
    WeightsChange(s, t, n, n);
    if st.Arrive? {
      assert Weight(t, n) == 0;
    }
  }

  lemma EnterLowers(s: Joint, r: nat)
    requires Enabled(s, Enter(r))
    ensures Measure(Next(s, Enter(r))) < Measure(s)
    ensures P.Sum(Next(s, Enter(r)).pool.threads, P.ListCall) == P.Sum(s.pool.threads, P.ListCall)
  {
    var t := Next(s, Enter(r));
    var thread := P.Thread(P.Single, None, None, P.Want);
    P.SumAppend(s.pool.threads, thread, D.Work);
    P.SumAppend(s.pool.threads, thread, P.ListCall);
    WeightsChange(s, t, |s.cluster.requests|, r);
  }

  lemma PoolStepCounts(s: Joint, st: P.Step)
    requires Inv(s) && Enabled(s, Pool(st)) && (D.Own(st) || st.Rotate?)
    ensures var t := Next(s, Pool(st));
            && Inv(t) && P.Sum(t.pool.threads, P.ListCall) <= P.Sum(s.pool.threads, P.ListCall)
            && (if D.Own(st) then Measure(t) < Measure(s) else Measure(t) == Measure(s))
  {
    var t := Next(s, Pool(st));
    P.StepKeepsInv(s.pool, st);
    WeightsChange(s, t, |s.cluster.requests|, |s.cluster.requests|);
    if D.Own(st) {
      D.OwnStepWorks(s.pool, st);
      D.ThreadsStay(s.pool, [st]);
    }
  }

  lemma TameStep(s: Joint, step: Step)
    requires Inv(s) && Roomy(s) && Enabled(s, step) && Tame(s, step)
    ensures Inv(Next(s, step)) && Roomy(Next(s, step))
    ensures Measure(Next(s, step)) <= Measure(s)
    ensures Ours(s, step) ==> Measure(Next(s, step)) < Measure(s)
  {
    match step
    case Chat(st) =>
      if Handling(s, st) {
        HandlerLowers(s, st.r, st, Next(s, step));
      } else {
        OthersKeep(s, st);
      }
    case Enter(r) =>
      P.StepKeepsInv(s.pool, P.Arrive(P.Single));
      EnterLowers(s, r);
    case Leave(r, ok) => HandlerLowers(s, r, R.Save(r, ok), Next(s, step));
    case Pool(st) => PoolStepCounts(s, st);
  }

  // ---------------------------------------------------------------- progress

  /** A handler past its save always has its next step. */
  lemma HandlerGoesOn(s: Joint, r: nat) returns (step: Step)
    requires Local(s, r) && !s.cluster.requests[r].pc.Received? && !s.cluster.requests[r].pc.Finished?
    ensures Ours(s, step) && Enabled(s, step)
  {
    match s.cluster.requests[r].pc
    case Saved => step := Chat(R.Route(r));
    case Find => step := Chat(R.LookUp(r));
    case Deliver(_) => step := Chat(R.Push(r));
    case Call(_) => step := Chat(R.Rpc(r, true));
    case Waiting => step := Chat(R.RpcReturns(r));
    case Reply(_) => step := Chat(R.Respond(r));
  }

  /** While not every connection is held by a call that asks for another, an unfinished request
      means that something can step. */
  lemma ServerGoesOn(s: Joint, r: nat) returns (step: Step)
    requires Inv(s) && P.Sum(s.pool.threads, P.Nesting) < |s.pool.all| && Local(s, r) && !s.cluster.requests[r].pc.Finished?
    ensures Ours(s, step) && Enabled(s, step)
  {
    if !s.cluster.requests[r].pc.Received? {
      step := HandlerGoesOn(s, r);
    } else if r !in s.saving {
      step := Enter(r);
    } else if s.pool.threads[s.saving[r]].pc.Finished? {
      step := Leave(r, true);
    } else {
      assert D.SomeUnfinished(s.pool);
      var st := D.Progress(s.pool);
      step := Pool(st);
    }
  }

  /** With fewer GetFriendList calls in its pool than connections, the handlers of a server all
      come to their end. Whatever other servers, logins and the keep-alive pass do in between,
      the server takes at most `Measure` steps, and can take no more only when every one of its
      requests has been answered or has failed to save. */
  lemma {:induction false} HandlersFinish(s: Joint, steps: seq<Step>)
    requires Inv(s) && Roomy(s) && Runs(s, steps) && TameRun(s, steps)
    ensures OurSteps(s, steps) <= Measure(s)
    ensures AtRest(After(s, steps)) ==>
              forall r: nat :: Local(After(s, steps), r) ==> After(s, steps).cluster.requests[r].pc.Finished?
    decreases |steps|
  {
    if steps == [] {
      if AtRest(s) {
        D.ListCallsBoundHolders(s.pool);
        forall r: nat | Local(s, r) ensures s.cluster.requests[r].pc.Finished? {
          if !s.cluster.requests[r].pc.Finished? {
            var step := ServerGoesOn(s, r);
            assert false;
          }
        }
      }
    } else {
      TameStep(s, steps[0]);
      HandlersFinish(Next(s, steps[0]), steps[1..]);
    }
  }

  // ---------------------------------------------------------------- exactly when they can get stuck

  function Begin(home: R.Server, peers: set<(R.Server, R.Server)>, conns: seq<P.Conn>): Joint {
    Joint(home, R.Start(peers), P.Fresh(conns), map[])
  }

  /** The DAO calls, other than saves of text messages, that enter the pool. */
  function CallsOf(step: Step): seq<P.Call> {
    if step.Pool? && step.step.Arrive? then [step.step.call] else []
  }

  function OtherCalls(steps: seq<Step>): seq<P.Call> {
    if steps == [] then [] else OtherCalls(steps[..|steps| - 1]) + CallsOf(steps[|steps| - 1])
  }

  /** A request is unfinished and the server can do nothing by itself. */
  ghost predicate Stuck(s: Joint) {
    !s.pool.stopped && AtRest(s) && exists r: nat :: Local(s, r) && !s.cluster.requests[r].pc.Finished?
  }

  ghost predicate Reaches(s: Joint, calls: seq<P.Call>, t: Joint) {
    exists steps :: Runs(s, steps) && OtherCalls(steps) == calls && After(s, steps) == t
  }

  lemma {:induction false} RunFront(s: Joint, steps: seq<Step>, step: Step)
    requires Runs(s, steps + [step])
    ensures Runs(s, steps) && Enabled(After(s, steps), step)
    ensures After(s, steps + [step]) == Next(After(s, steps), step)
    decreases |steps|
  {
    if steps == [] {
      assert steps + [step] == [step];
      assert [step][1..] == [];
    } else {
      assert (steps + [step])[1..] == steps[1..] + [step];
      RunFront(Next(s, steps[0]), steps[1..], step);
    }
  }

  lemma {:induction false} RunAppend(s: Joint, steps: seq<Step>, step: Step)
    requires Runs(s, steps) && Enabled(After(s, steps), step)
    ensures Runs(s, steps + [step]) && After(s, steps + [step]) == Next(After(s, steps), step)
    decreases |steps|
  {
    if steps == [] {
      assert steps + [step] == [step];
      assert [step][1..] == [];
    } else {
      assert (steps + [step])[1..] == steps[1..] + [step];
      RunAppend(Next(s, steps[0]), steps[1..], step);
    }
  }

  /** What the pool sees of a step, and of a run. */
  function MovesOf(step: Step): seq<P.Step> {
    match step
    case Pool(st) => [st]
    case Enter(_) => [P.Arrive(P.Single)]
    case _ => []
  }

  function PoolMoves(steps: seq<Step>): seq<P.Step> {
    if steps == [] then [] else PoolMoves(steps[..|steps| - 1]) + MovesOf(steps[|steps| - 1])
  }

  lemma ArrivalsNext(moves: seq<P.Step>, st: P.Step)
    ensures D.Arrivals(moves + [st]) == D.Arrivals(moves) + if st.Arrive? then [st.call] else []
  {
    assert (moves + [st])[..|moves|] == moves;
  }

  /** `moves` is what the pool has seen, with the rows that `calls` brought. */
  ghost predicate Follows(s: Joint, conns: seq<P.Conn>, moves: seq<P.Step>, calls: seq<P.Call>) {
    && P.Runs(P.Fresh(conns), moves) && P.After(P.Fresh(conns), moves) == s.pool
    && D.Rowful(D.Arrivals(moves)) == D.Rowful(calls)
    && (forall r :: r in s.saving ==> s.saving[r] < |s.pool.threads|)
  }

  lemma FollowsNext(s: Joint, step: Step, conns: seq<P.Conn>, moves: seq<P.Step>, calls: seq<P.Call>)
    requires Follows(s, conns, moves, calls) && Enabled(s, step)
    ensures Follows(Next(s, step), conns, moves + MovesOf(step), calls + CallsOf(step))
  {
    match step
    case Pool(st) =>
      PoolRunNext(conns, moves, st);
      if st.Arrive? {
        D.RowfulAppend(D.Arrivals(moves), st.call);
        D.RowfulAppend(calls, st.call);
      } else {
        assert calls + [] == calls;
      }
    case Enter(r) =>
      PoolRunNext(conns, moves, P.Arrive(P.Single));
      D.RowfulAppend(D.Arrivals(moves), P.Single);
      assert calls + [] == calls;
    case _ =>
      assert moves + [] == moves && calls + [] == calls;
  }

  lemma {:induction false} PoolRun(home: R.Server, peers: set<(R.Server, R.Server)>, conns: seq<P.Conn>, steps: seq<Step>)
    requires Runs(Begin(home, peers, conns), steps)
    ensures Follows(After(Begin(home, peers, conns), steps), conns, PoolMoves(steps), OtherCalls(steps))
    decreases |steps|
  {
    if steps != [] {
      var before, last := steps[..|steps| - 1], steps[|steps| - 1];
      assert steps == before + [last];
      RunFront(Begin(home, peers, conns), before, last);
      PoolRun(home, peers, conns, before);
      FollowsNext(After(Begin(home, peers, conns), before), last, conns, PoolMoves(before), OtherCalls(before));
    }
  }

  lemma PoolRunNext(conns: seq<P.Conn>, moves: seq<P.Step>, st: P.Step)
    requires P.Runs(P.Fresh(conns), moves) && P.Enabled(P.After(P.Fresh(conns), moves), st)
    ensures P.Runs(P.Fresh(conns), moves + [st])
    ensures P.After(P.Fresh(conns), moves + [st]) == P.Next(P.After(P.Fresh(conns), moves), st)
    ensures D.Arrivals(moves + [st]) == D.Arrivals(moves) + if st.Arrive? then [st.call] else []
    ensures |P.After(P.Fresh(conns), moves).threads| <= |P.After(P.Fresh(conns), moves + [st]).threads|
  {
    D.RunAppend(P.Fresh(conns), moves, st);
    ArrivalsNext(moves, st);
    D.ThreadsStay(P.After(P.Fresh(conns), moves), [st]);
  }

  lemma StuckNeedsListers(home: R.Server, peers: set<(R.Server, R.Server)>, conns: seq<P.Conn>, steps: seq<Step>)
    requires forall i, j :: 0 <= i < j < |conns| ==> conns[i] != conns[j]
    requires Runs(Begin(home, peers, conns), steps) && Stuck(After(Begin(home, peers, conns), steps))
    ensures |conns| <= D.Rowful(OtherCalls(steps))
  {
    var s := After(Begin(home, peers, conns), steps);
    PoolRun(home, peers, conns, steps);
    P.FreshInv(conns);
    P.DistinctSize(conns);
    P.RunKeepsInv(P.Fresh(conns), PoolMoves(steps));
    D.RowsFromArrivals(conns, PoolMoves(steps));
    P.SumMonotone(s.pool.threads, P.Nesting, D.HasRow);
    if P.Sum(s.pool.threads, P.Nesting) < |s.pool.all| {
      var r: nat :| Local(s, r) && !s.cluster.requests[r].pc.Finished?;
      var step := ServerGoesOn(s, r);
      assert false;
    }
  }

  lemma ReachesNext(s: Joint, calls: seq<P.Call>, t: Joint, step: Step)
    requires Reaches(s, calls, t) && Enabled(t, step) && !(step.Pool? && step.step.Arrive?)
    ensures Reaches(s, calls, Next(t, step))
  {
    var steps :| Runs(s, steps) && OtherCalls(steps) == calls && After(s, steps) == t;
    RunAppend(s, steps, step);
    assert (steps + [step])[..|steps|] == steps;
    assert calls + [] == calls;
  }

  lemma ReachesArrival(s: Joint, calls: seq<P.Call>, t: Joint, call: P.Call)
    requires Reaches(s, calls, t)
    ensures Reaches(s, calls + [call], Next(t, Pool(P.Arrive(call))))
  {
    var steps :| Runs(s, steps) && OtherCalls(steps) == calls && After(s, steps) == t;
    RunAppend(s, steps, Pool(P.Arrive(call)));
    assert (steps + [Pool(P.Arrive(call))])[..|steps|] == steps;
  }

  /** A run of the pool is a run of the server, during which its handlers do nothing. */
  lemma {:induction false} PoolAlone(s: Joint, calls: seq<P.Call>, t: Joint, moves: seq<P.Step>)
    requires Reaches(s, calls, t) && P.Runs(t.pool, moves)
    ensures Reaches(s, calls + D.Arrivals(moves), t.(pool := P.After(t.pool, moves)))
    decreases |moves|
  {
    if moves == [] {
      assert calls + [] == calls;
    } else {
      var before, last := moves[..|moves| - 1], moves[|moves| - 1];
      assert moves == before + [last];
      D.RunFront(t.pool, before, last);
      PoolAlone(s, calls, t, before);
      var u := t.(pool := P.After(t.pool, before));
      if last.Arrive? {
        ReachesArrival(s, calls + D.Arrivals(before), u, last.call);
        assert calls + D.Arrivals(before) + [last.call] == calls + D.Arrivals(moves);
      } else {
        ReachesNext(s, calls + D.Arrivals(before), u, Pool(last));
      }
    }
  }

  /** The other calls have entered the pool. */
  lemma ReachesCalls(start: Joint, conns: seq<P.Conn>, calls: seq<P.Call>) returns (p: P.Monitor)
    requires forall i, j :: 0 <= i < j < |conns| ==> conns[i] != conns[j]
    requires start.pool == P.Fresh(conns)
    ensures Reaches(start, calls, start.(pool := p)) && P.Inv(p) && p.idle == conns && p.mutex.None? && !p.stopped
    ensures |p.threads| == |calls| && D.Waiting(p, 0) && P.Sum(p.threads, D.HasRow) == D.Rowful(calls)
  {
    assert Runs(start, []) && OtherCalls([]) == [] && After(start, []) == start;
    p := D.AllArrive(conns, calls);
    var moves :| P.Runs(P.Fresh(conns), moves) && D.Arrivals(moves) == calls && P.After(P.Fresh(conns), moves) == p;
    PoolAlone(start, [], start, moves);
    assert [] + calls == calls;
  }

  /** Then a request comes in and calls SaveChatMessage. */
  lemma ReachesSave(home: R.Server, peers: set<(R.Server, R.Server)>, conns: seq<P.Conn>, calls: seq<P.Call>, msg: R.Message)
    returns (s: Joint)
    requires forall i, j :: 0 <= i < j < |conns| ==> conns[i] != conns[j]
    ensures Reaches(Begin(home, peers, conns), calls, s) && s.home == home && P.Inv(s.pool)
    ensures s.cluster.requests == [R.Request(home, 0, msg, None, R.Received, R.Idle)]
    ensures s.saving == map[0 := |calls|] && |s.pool.threads| == |calls| + 1
    ensures s.pool.idle == conns && s.pool.mutex.None? && !s.pool.stopped && D.Waiting(s.pool, 0)
    ensures P.Sum(s.pool.threads, D.HasRow) == D.Rowful(calls)
  {
    var start := Begin(home, peers, conns);
    var p := ReachesCalls(start, conns, calls);
    var s1 := start.(pool := p);
    var arrive := Chat(R.Arrive(home, 0, msg));
    ReachesNext(start, calls, s1, arrive);
    var s2 := Next(s1, arrive);
    ReachesNext(start, calls, s2, Enter(0));
    s := Next(s2, Enter(0));
    P.StepKeepsInv(p, P.Arrive(P.Single));
    P.SumAppend(p.threads, P.Thread(P.Single, None, None, P.Want), D.HasRow);
  }

  lemma ListersBlock(home: R.Server, peers: set<(R.Server, R.Server)>, conns: seq<P.Conn>, calls: seq<P.Call>, msg: R.Message)
    returns (t: Joint)
    requires forall i, j :: 0 <= i < j < |conns| ==> conns[i] != conns[j]
    requires |conns| <= D.Rowful(calls)
    ensures Reaches(Begin(home, peers, conns), calls, t) && Stuck(t)
  {
    var s := ReachesSave(home, peers, conns, calls, msg);
    assert P.Runs(s.pool, []) && D.Arrivals([]) == [] && P.After(s.pool, []) == s.pool;
    assert s.pool.threads[0..] == s.pool.threads;
    var end := D.Occupy(s.pool, [], s.pool, 0);
    var moves :| P.Runs(s.pool, moves) && D.Arrivals(moves) == [] && P.After(s.pool, moves) == end;
    PoolAlone(Begin(home, peers, conns), calls, s, moves);
    assert calls + [] == calls;
    t := s.(pool := end);
    assert Local(t, 0) && !t.cluster.requests[0].pc.Finished?;
    assert !end.threads[|calls|].pc.Finished?;
    BlockedIsAtRest(t);
  }

  lemma BlockedIsAtRest(t: Joint)
    requires |t.cluster.requests| == 1 && t.cluster.requests[0].pc.Received?
    requires 0 in t.saving && t.saving[0] < |t.pool.threads| && !t.pool.threads[t.saving[0]].pc.Finished?
    requires D.NoOwnStep(t.pool)
    ensures AtRest(t)
  {
  }

  /** A server can come to a standstill with a request unanswered exactly when at least as many
      GetFriendList calls with a row as it has connections can be in its pool. */
  lemma StuckExactly(home: R.Server, peers: set<(R.Server, R.Server)>, conns: seq<P.Conn>, calls: seq<P.Call>)
    requires forall i, j :: 0 <= i < j < |conns| ==> conns[i] != conns[j]
    ensures (exists s :: Reaches(Begin(home, peers, conns), calls, s) && Stuck(s)) <==> |conns| <= D.Rowful(calls)
  {
    if s :| Reaches(Begin(home, peers, conns), calls, s) && Stuck(s) {
      var steps :| Runs(Begin(home, peers, conns), steps) && OtherCalls(steps) == calls
                   && After(Begin(home, peers, conns), steps) == s;
      StuckNeedsListers(home, peers, conns, steps);
    }
    if |conns| <= D.Rowful(calls) {
      var t := ListersBlock(home, peers, conns, calls, R.Message("", 0, 0, "", 0, 0));
    }
  }
}
