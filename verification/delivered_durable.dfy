/**
  The cluster and its database together: chat servers save a text message and then deliver it
  (ClusterRouting), and the save runs on a pooled connection that a friend request may have left
  in the middle of a transaction (FriendTransactions). When is a delivered message in the
  committed table?

  The two statements of a save are one step here: their connection is out of the pool meanwhile,
  and steps on other connections do not depend on them.
*/
module DeliveredDurable {
  import opened Wrappers
  import R = ClusterRouting
  import T = FriendTransactions

  datatype Joint = Joint(cluster: R.Cluster, db: T.Db)

  datatype Step =
    | Chat(step: R.Step)                     // any step of a chat server but a save
    | SaveOn(r: nat, c: nat, failsAt: nat)   // request r saves on connection c; 2 or more: returns true
    | Sql(e: T.Event)                        // friend requests and reconnects

  predicate Enabled(s: Joint, step: Step) {
    match step
    case Chat(st) => !st.Save? && R.Enabled(s.cluster, st)
    case SaveOn(r, c, failsAt) =>
      && R.Enabled(s.cluster, R.Save(r, failsAt >= 2))
      && c < |s.db.sessions| && s.db.sessions[c].task.NoTask?
    case Sql(e) => !e.Write? && T.Enabled(s.db, e)
  }

  function MessageId(s: Joint, r: nat): string
    requires r < |s.cluster.requests|
  {
    s.cluster.requests[r].msg.msgId
  }

  function Next(s: Joint, step: Step): Joint
    requires Enabled(s, step)
  {
    match step
    case Chat(st) => s.(cluster := R.Next(s.cluster, st))
    case SaveOn(r, c, failsAt) =>
      Joint(R.Next(s.cluster, R.Save(r, failsAt >= 2)), T.Saved(s.db, c, r, MessageId(s, r), failsAt))
    case Sql(e) => s.(db := T.Next(s.db, e))
  }

  predicate Runs(s: Joint, steps: seq<Step>)
    decreases |steps|
  {
    steps == [] || (Enabled(s, steps[0]) && Runs(Next(s, steps[0]), steps[1..]))
  }

  function After(s: Joint, steps: seq<Step>): Joint
    requires Runs(s, steps)
    decreases |steps|
  {
    if steps == [] then s else After(Next(s, steps[0]), steps[1..])
  }

  function Start(peers: set<(R.Server, R.Server)>, connections: nat): Joint {
    Joint(R.Start(peers), T.Fresh(connections))
  }

  // ---------------------------------------------------------------- the two sides of a run

  function EventsOf(s: Joint, step: Step): seq<T.Event>
    requires Enabled(s, step)
  {
    match step
    case Chat(_) => []
    case SaveOn(r, c, failsAt) =>
      if failsAt == 0 then []
      else if failsAt == 1 then [T.Write(c, T.MessageRow(r, MessageId(s, r)))]
      else [T.Write(c, T.MessageRow(r, MessageId(s, r)))] + [T.Write(c, T.RelationRow(r, MessageId(s, r)))]
    case Sql(e) => [e]
  }

  function Events(s: Joint, steps: seq<Step>): seq<T.Event>
    requires Runs(s, steps)
    decreases |steps|
  {
    if steps == [] then [] else EventsOf(s, steps[0]) + Events(Next(s, steps[0]), steps[1..])
  }

  lemma OneEvent(db: T.Db, e: T.Event)
    requires T.Enabled(db, e)
    ensures T.Runs(db, [e]) && T.After(db, [e]) == T.Next(db, e)
  {
    assert [e][1..] == [];
  }

  lemma StepEvents(s: Joint, step: Step)
    requires Enabled(s, step)
    ensures T.Runs(s.db, EventsOf(s, step)) && T.After(s.db, EventsOf(s, step)) == Next(s, step).db
  {
    match step
    case Chat(_) =>
    case Sql(e) => OneEvent(s.db, e);
    case SaveOn(r, c, failsAt) =>
      if failsAt > 0 {
        var w := T.Write(c, T.MessageRow(r, MessageId(s, r)));
        OneEvent(s.db, w);
        if failsAt > 1 {
          var v := T.Write(c, T.RelationRow(r, MessageId(s, r)));
          OneEvent(T.Next(s.db, w), v);
          T.RunAppend(s.db, [w], [v]);
        }
      }
  }

  /** The database sees a run of its own. */
  lemma {:induction false} DatabaseRun(s: Joint, steps: seq<Step>)
    requires Runs(s, steps)
    ensures T.Runs(s.db, Events(s, steps)) && T.After(s.db, Events(s, steps)) == After(s, steps).db
    decreases |steps|
  {
    if steps != [] {
      var s' := Next(s, steps[0]);
      StepEvents(s, steps[0]);
      DatabaseRun(s', steps[1..]);
      T.RunAppend(s.db, EventsOf(s, steps[0]), Events(s', steps[1..]));
    }
  }

  function MovesOf(step: Step): seq<R.Step> {
    match step
    case Chat(st) => [st]
    case SaveOn(r, _, failsAt) => [R.Save(r, failsAt >= 2)]
    case Sql(_) => []
  }

  function Moves(steps: seq<Step>): seq<R.Step> {
    if steps == [] then [] else MovesOf(steps[0]) + Moves(steps[1..])
  }

  /** So do the chat servers; what is proved of their runs holds here. */
  lemma {:induction false} ClusterRun(s: Joint, steps: seq<Step>)
    requires Runs(s, steps)
    ensures R.Runs(s.cluster, Moves(steps)) && R.After(s.cluster, Moves(steps)) == After(s, steps).cluster
    decreases |steps|
  {
    if steps != [] {
      ClusterRun(Next(s, steps[0]), steps[1..]);
      var rest := Moves(steps[1..]);
      if !steps[0].Sql? {
        var move := MovesOf(steps[0])[0];
        assert ([move] + rest)[1..] == rest;
      } else {
        assert [] + rest == rest;
      }
    }
  }

  // ---------------------------------------------------------------- requests and rows

  /** One step, seen by one request of the cluster. */
  lemma RequestKept(c: R.Cluster, step: R.Step, r: nat)
    requires R.Enabled(c, step) && r < |c.requests|
    ensures var c' := R.Next(c, step);
            && |c.requests| <= |c'.requests|
            && c'.requests[r].msg == c.requests[r].msg
            && (!c.requests[r].pc.Received? ==> !c'.requests[r].pc.Received?)
            && (c.requests[r].pc.Finished? ==> c'.requests[r].pc == c.requests[r].pc)
  {
  }

  /** Only its save takes a request past its arrival. */
  lemma RequestUnsaved(c: R.Cluster, step: R.Step, r: nat)
    requires R.Enabled(c, step) && !(step.Save? && step.r == r)
    requires r < |c.requests| ==> c.requests[r].pc.Received?
    ensures r < |R.Next(c, step).requests| ==> R.Next(c, step).requests[r].pc.Received?
  {
  }

  lemma RequestStep(s: Joint, step: Step, r: nat)
    requires Enabled(s, step) && r < |s.cluster.requests|
    ensures var s' := Next(s, step);
            && r < |s'.cluster.requests| && MessageId(s', r) == MessageId(s, r)
            && (!s.cluster.requests[r].pc.Received? ==> !s'.cluster.requests[r].pc.Received?)
            && (s.cluster.requests[r].pc.Finished? ==> s'.cluster.requests[r].pc == s.cluster.requests[r].pc)
  {
    if !step.Sql? {
      RequestKept(s.cluster, MovesOf(step)[0], r);
    }
  }

  lemma UnsavedStep(s: Joint, step: Step, r: nat)
    requires Enabled(s, step) && !(step.SaveOn? && step.r == r)
    requires r < |s.cluster.requests| ==> s.cluster.requests[r].pc.Received?
    ensures r < |Next(s, step).cluster.requests| ==> Next(s, step).cluster.requests[r].pc.Received?
  {
    if !step.Sql? {
      RequestUnsaved(s.cluster, MovesOf(step)[0], r);
    }
  }

  /** A save step, seen by its request. */
  lemma SaveStep(s: Joint, step: Step)
    requires Enabled(s, step) && step.SaveOn?
    ensures step.r < |s.cluster.requests| && s.cluster.requests[step.r].pc.Received?
    ensures step.r < |Next(s, step).cluster.requests|
    ensures Next(s, step).cluster.requests[step.r].pc == if step.failsAt >= 2 then R.Saved else R.Finished(false)
  {
  }

  lemma {:induction false} RequestsStay(s: Joint, steps: seq<Step>, r: nat)
    requires Runs(s, steps) && r < |s.cluster.requests|
    ensures r < |After(s, steps).cluster.requests| && MessageId(After(s, steps), r) == MessageId(s, r)
    ensures !s.cluster.requests[r].pc.Received? ==> !After(s, steps).cluster.requests[r].pc.Received?
    ensures s.cluster.requests[r].pc == R.Finished(false) ==>
              After(s, steps).cluster.requests[r].pc == R.Finished(false)
    decreases |steps|
  {
    if steps != [] {
      RequestStep(s, steps[0], r);
      RequestsStay(Next(s, steps[0]), steps[1..], r);
    }
  }

  predicate Attempted(s: Joint, r: nat) {
    r < |s.cluster.requests| && !s.cluster.requests[r].pc.Received?
  }

  /** Every row, committed or not, is of a request whose save was attempted. */
  ghost predicate RowsAttempted(s: Joint) {
    && (forall row :: row in s.db.rows ==> Attempted(s, row.save))
    && (forall c, row :: 0 <= c < |s.db.sessions| && row in s.db.sessions[c].rows ==> Attempted(s, row.save))
  }

  lemma NewRows(s: Joint, step: Step)
    requires Enabled(s, step)
    ensures var s' := Next(s, step);
            && (forall row :: row in s'.db.rows ==> KnownRow(s, step, row))
            && (forall c, row :: 0 <= c < |s'.db.sessions| && row in s'.db.sessions[c].rows ==> KnownRow(s, step, row))
  {
  }

  /** A row that was there, or that this step wrote. */
  ghost predicate KnownRow(s: Joint, step: Step, row: T.Row) {
    || row in s.db.rows
    || (exists c :: 0 <= c < |s.db.sessions| && row in s.db.sessions[c].rows)
    || (step.SaveOn? && row.save == step.r)
  }

  lemma KnownIsAttempted(s: Joint, step: Step, row: T.Row)
    requires RowsAttempted(s) && Enabled(s, step) && KnownRow(s, step, row)
    ensures Attempted(Next(s, step), row.save)
  {
    if step.SaveOn? && row.save == step.r {
      SaveStep(s, step);
    } else {
      RequestStep(s, step, row.save);
    }
  }

  lemma StepKeepsAttempted(s: Joint, step: Step)
    requires RowsAttempted(s) && Enabled(s, step)
    ensures RowsAttempted(Next(s, step))
  {
    NewRows(s, step);
    forall row | KnownRow(s, step, row) ensures Attempted(Next(s, step), row.save) {
      KnownIsAttempted(s, step, row);
    }
  }

  /** Once its save was attempted, nobody writes a request's row again. */
  lemma {:induction false} NotWrittenAgain(s: Joint, steps: seq<Step>, r: nat, msgId: string)
    requires Runs(s, steps) && Attempted(s, r)
    ensures T.NotSavedAgain(Events(s, steps), T.MessageRow(r, msgId))
    decreases |steps|
  {
    if steps != [] {
      var s' := Next(s, steps[0]);
      RequestStep(s, steps[0], r);
      NotWrittenAgain(s', steps[1..], r, msgId);
      OthersWrite(s, steps[0], r, msgId);
      JoinedEvents(EventsOf(s, steps[0]), Events(s', steps[1..]), T.MessageRow(r, msgId));
    }
  }

  lemma OthersWrite(s: Joint, step: Step, r: nat, msgId: string)
    requires Enabled(s, step) && Attempted(s, r)
    ensures T.NotSavedAgain(EventsOf(s, step), T.MessageRow(r, msgId))
  {
    if step.SaveOn? {
      SaveStep(s, step);
    }
  }

  lemma JoinedEvents(xs: seq<T.Event>, ys: seq<T.Event>, row: T.Row)
    requires T.NotSavedAgain(xs, row) && T.NotSavedAgain(ys, row)
    ensures T.NotSavedAgain(xs + ys, row)
  {
  }

  // ---------------------------------------------------------------- the theorem

  lemma StepKeepsInv(s: Joint, step: Step)
    requires T.Inv(s.db) && Enabled(s, step)
    ensures T.Inv(Next(s, step).db)
  {
    StepEvents(s, step);
    T.RunKeepsInv(s.db, EventsOf(s, step));
  }

  /** The save of request `r` found its connection in autocommit mode, or the transaction it
      became part of was committed before the run ended. */
  ghost predicate SaveCommits(s: Joint, steps: seq<Step>, r: nat)
    requires Runs(s, steps)
    decreases |steps|
  {
    steps != [] &&
    var s' := Next(s, steps[0]);
    if steps[0].SaveOn? && steps[0].r == r then
      DatabaseRun(s', steps[1..]);
      var c := steps[0].c;
      s.db.sessions[c].autocommit || T.FateOf(s'.db, Events(s', steps[1..]), c).Committed?
    else SaveCommits(s', steps[1..], r)
  }

  lemma SavedRow(s: Joint, steps: seq<Step>, r: nat)
    requires T.Inv(s.db) && RowsAttempted(s) && Runs(s, steps)
    requires steps != [] && steps[0].SaveOn? && steps[0].r == r && steps[0].failsAt >= 2
    ensures T.MessageRow(r, MessageId(s, r)) in After(s, steps).db.rows <==> SaveCommits(s, steps, r)
  {
    var s', c, id := Next(s, steps[0]), steps[0].c, MessageId(s, r);
    var row, rel := T.MessageRow(r, id), T.RelationRow(r, id);
    var es := Events(s', steps[1..]);
    SaveStep(s, steps[0]);
    NotWrittenAgain(s', steps[1..], r, id);
    DatabaseRun(s', steps[1..]);
    var one := T.Next(s.db, T.Write(c, row));
    T.RunCons(one, T.Write(c, rel), es);
    assert ([T.Write(c, rel)] + es)[1..] == es;
    assert T.NotSavedAgain([T.Write(c, rel)] + es, row);
    T.SaveIsDurableExactly(s.db, c, row, [T.Write(c, rel)] + es);
  }

  lemma {:induction false} RowOfRequest(s: Joint, steps: seq<Step>, r: nat)
    requires T.Inv(s.db) && RowsAttempted(s) && Runs(s, steps)
    requires r < |s.cluster.requests| ==> s.cluster.requests[r].pc.Received?
    requires r < |After(s, steps).cluster.requests| && R.WasSaved(After(s, steps).cluster.requests[r])
    ensures T.MessageRow(r, MessageId(After(s, steps), r)) in After(s, steps).db.rows <==> SaveCommits(s, steps, r)
    decreases |steps|
  {
    if steps != [] {
      var s' := Next(s, steps[0]);
      StepKeepsInv(s, steps[0]);
      StepKeepsAttempted(s, steps[0]);
      if steps[0].SaveOn? && steps[0].r == r {
        SaveStep(s, steps[0]);
        RequestsStay(s, steps, r);
        RequestsStay(s', steps[1..], r);
        SavedRow(s, steps, r);
      } else {
        UnsavedStep(s, steps[0], r);
        RowOfRequest(s', steps[1..], r);
      }
    }
  }

  /** In every run of the cluster and its database: a message that was delivered to its recipient
      is in the committed table at the end exactly when its save found the connection in
      autocommit mode or a friend request committed the transaction it had joined. */
  lemma DeliveredIsDurableExactly(peers: set<(R.Server, R.Server)>, connections: nat, steps: seq<Step>, k: nat)
    requires Runs(Start(peers, connections), steps)
    requires k < |After(Start(peers, connections), steps).cluster.log|
    requires After(Start(peers, connections), steps).cluster.log[k].packet.Notify?
    ensures var s := After(Start(peers, connections), steps);
            var r := s.cluster.log[k].req;
            && r < |s.cluster.requests|
            && (T.MessageRow(r, MessageId(s, r)) in s.db.rows <==> SaveCommits(Start(peers, connections), steps, r))
  {
    var start := Start(peers, connections);
    var s := After(start, steps);
    ClusterRun(start, steps);
    R.RunKeepsInv(R.Start(peers), Moves(steps));
    assert R.SentInv(s.cluster, s.cluster.log[k]);
    RowOfRequest(start, steps, s.cluster.log[k].req);
  }

  // ---------------------------------------------------------------- a delivered message that is lost

  ghost predicate Reaches(s: Joint, t: Joint) {
    exists steps :: Runs(s, steps) && After(s, steps) == t
  }

  lemma {:induction false} RunAppend(s: Joint, steps: seq<Step>, step: Step)
    requires Runs(s, steps) && Enabled(After(s, steps), step)
    ensures Runs(s, steps + [step]) && After(s, steps + [step]) == Next(After(s, steps), step)
    decreases |steps|
  {
    if steps == [] {
      assert steps + [step] == [step];
      assert [step][1..] == [];
    } else {
      assert (steps + [step])[1..] == steps[1..] + [step];
      RunAppend(Next(s, steps[0]), steps[1..], step);
    }
  }

  lemma ReachesNext(s: Joint, t: Joint, step: Step)
    requires Reaches(s, t) && Enabled(t, step)
    ensures Reaches(s, Next(t, step))
  {
    var steps :| Runs(s, steps) && After(s, steps) == t;
    RunAppend(s, steps, step);
  }

  /** Friend requests go through while no message moves. */
  lemma {:induction false} ReachesBySql(s: Joint, t: Joint, es: seq<T.Event>)
    requires Reaches(s, t) && T.Runs(t.db, es) && forall k :: 0 <= k < |es| ==> !es[k].Write?
    ensures Reaches(s, t.(db := T.After(t.db, es)))
    decreases |es|
  {
    if es != [] {
      ReachesNext(s, t, Sql(es[0]));
      assert forall k :: 0 <= k < |es[1..]| ==> es[1..][k] == es[k + 1];
      ReachesBySql(s, Next(t, Sql(es[0])), es[1..]);
    }
  }

  /** The pool's only connection has served a friend request. */
  lemma ReachesOneFriend() returns (s: Joint)
    ensures Reaches(Start({}, 1), s) && s.cluster == R.Start({})
    ensures s.db.rows == [] && s.db.sessions == [T.Session(false, {}, [], T.NoTask)]
  {
    var start := Start({}, 1);
    assert Runs(start, []) && After(start, []) == start;
    var db := T.AfterOneFriend();
    ReachesBySql(start, start, T.Befriend(1, 2));
    s := start.(db := db);
  }

  /** The recipient is logged in on the sender's server, and the pool's only connection has
      served a friend request. */
  lemma ReachesLogin(msg: R.Message) returns (s: Joint)
    ensures Reaches(Start({}, 1), s) && s.db.rows == [] && s.db.sessions == [T.Session(false, {}, [], T.NoTask)]
    ensures s.cluster.requests == [R.Request("A", 1, msg, None, R.Received, R.Idle)] && s.cluster.log == []
    ensures s.cluster.routing == map[msg.toUid := "A"] && s.cluster.bound == map[("A", msg.toUid) := 7]
  {
    var start := Start({}, 1);
    var s1 := ReachesOneFriend();
    var login := Chat(R.SetRoute(msg.toUid, "A"));
    ReachesNext(start, s1, login);
    var s2 := Next(s1, login);
    var bind := Chat(R.Bind("A", msg.toUid, 7));
    ReachesNext(start, s2, bind);
    var s3 := Next(s2, bind);
    var arrive := Chat(R.Arrive("A", 1, msg));
    ReachesNext(start, s3, arrive);
    s := Next(s3, arrive);
  }

  /** It is saved and delivered. */
  lemma ReachesDelivery(msg: R.Message) returns (s: Joint)
    ensures Reaches(Start({}, 1), s) && s.db.rows == []
    ensures |s.db.sessions| == 1 && s.db.sessions[0].task.NoTask?
    ensures |s.cluster.log| == 1 && s.cluster.log[0].packet.Notify? && s.cluster.log[0].req == 0
    ensures |s.cluster.requests| == 1 && s.cluster.requests[0].msg == msg
  {
    var start := Start({}, 1);
    var s3 := ReachesLogin(msg);
    ReachesNext(start, s3, SaveOn(0, 0, 2));
    var s4 := Next(s3, SaveOn(0, 0, 2));
    ReachesNext(start, s4, Chat(R.Route(0)));
    var s5 := Next(s4, Chat(R.Route(0)));
    ReachesNext(start, s5, Chat(R.LookUp(0)));
    var s6 := Next(s5, Chat(R.LookUp(0)));
    ReachesNext(start, s6, Chat(R.Push(0)));
    s := Next(s6, Chat(R.Push(0)));
  }

  /** A message that its recipient has read and that is in no table: its save joined the
      transaction left open on its connection, and the next friend request there failed. */
  lemma DeliveredThenLost(msg: R.Message) returns (s: Joint)
    ensures Reaches(Start({}, 1), s)
    ensures |s.cluster.log| == 1 && s.cluster.log[0].packet.Notify? && s.cluster.log[0].req == 0
    ensures |s.cluster.requests| == 1 && s.cluster.requests[0].msg == msg
    ensures s.db.rows == [] && |s.db.sessions| == 1 && s.db.sessions[0].rows == []
  {
    var start := Start({}, 1);
    var s1 := ReachesDelivery(msg);
    ReachesNext(start, s1, Sql(T.Start(0, 3, 4)));
    var s2 := Next(s1, Sql(T.Start(0, 3, 4)));
    ReachesNext(start, s2, Sql(T.Throw(0)));
    s := Next(s2, Sql(T.Throw(0)));
  }
}
