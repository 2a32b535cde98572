/**
  Transactions on pooled connections (MySQLDao.cpp, AddFriend and SaveChatMessage).

  AddFriend turns autocommit off on the connection it borrowed and never turns it on again,
  so the connection goes back to the pool in that mode. Only the keep-alive pass of the pool
  ends it, by giving an idle connection that no longer answers a new session. The machine below
  interleaves the statements of any number of AddFriend and SaveChatMessage calls with such
  reconnects.
*/
module FriendTransactions {
  type Pair = (int, int)

  /** What SaveChatMessage inserts for a message, one row per statement. Message ids need not be
      unique in the tables; rows are told apart by the number of the call that wrote them. */
  datatype Row = MessageRow(save: nat, msgId: string) | RelationRow(save: nat, msgId: string)

  /** The AddFriend call a connection is busy with. `done` counts executed statements:
      1 session settings, 2 autocommit off, 3 first insert, 4 second insert. */
  datatype Task = NoTask | Adding(a: int, b: int, done: nat)

  /** A connection's session in the server, with its uncommitted rows. */
  datatype Session = Session(autocommit: bool, friends: set<Pair>, rows: seq<Row>, task: Task)

  /** Committed tables and the sessions of all pooled connections. */
  datatype Db = Db(friends: set<Pair>, rows: seq<Row>, sessions: seq<Session>)

  function Fresh(connections: nat): Db {
    Db({}, [], seq(connections, i => Session(true, {}, [], NoTask)))
  }

  datatype Event =
    | Start(c: nat, a: int, b: int)   // AddFriend borrows connection c
    | Statement(c: nat)               // its next statement succeeds
    | Throw(c: nat)                   // its next statement fails; rollback, return false
    | Write(c: nat, row: Row)         // a statement of SaveChatMessage on connection c succeeds
    | Reconnect(c: nat)               // the keep-alive pass gives connection c a new session

  predicate Enabled(s: Db, e: Event) {
    e.c < |s.sessions| &&
    match e
    case Start(c, a, b) => s.sessions[c].task.NoTask?
    case Statement(c) => s.sessions[c].task.Adding? && s.sessions[c].task.done <= 4
    case Throw(c) => s.sessions[c].task.Adding? && s.sessions[c].task.done <= 4
    case Write(c, row) => s.sessions[c].task.NoTask?
    case Reconnect(c) => s.sessions[c].task.NoTask?
  }

  /** INSERT IGNORE: a row visible to the session is skipped. */
  function Inserted(s: Db, n: Session, p: Pair): Session {
    if p in s.friends || p in n.friends then n else n.(friends := n.friends + {p})
  }

  /** The statement is the commit that ends the call. */
  predicate Commits(s: Db, e: Event) {
    Enabled(s, e) && e.Statement? && s.sessions[e.c].task.done == 4
  }

  function Next(s: Db, e: Event): Db
    requires Enabled(s, e)
  {
    var c, n := e.c, s.sessions[e.c];
    match e
    case Start(_, a, b) => s.(sessions := s.sessions[c := n.(task := Adding(a, b, 0))])
    case Throw(_) => s.(sessions := s.sessions[c := n.(friends := {}, rows := [], task := NoTask)])
    case Write(_, row) =>
      if n.autocommit then s.(rows := s.rows + [row])
      else s.(sessions := s.sessions[c := n.(rows := n.rows + [row])])
    case Reconnect(_) => s.(sessions := s.sessions[c := Session(true, {}, [], NoTask)])
    case Statement(_) =>
      var t := n.task;
      var n' := n.(task := t.(done := t.done + 1));
      if t.done == 0 then s.(sessions := s.sessions[c := n'])
      else if t.done == 1 then s.(sessions := s.sessions[c := n'.(autocommit := false)])
      else if t.done == 2 then s.(sessions := s.sessions[c := Inserted(s, n', (t.a, t.b))])
      else if t.done == 3 then s.(sessions := s.sessions[c := Inserted(s, n', (t.b, t.a))])
      else Db(s.friends + n.friends, s.rows + n.rows,
              s.sessions[c := n.(friends := {}, rows := [], task := NoTask)])
  }

  predicate Runs(s: Db, es: seq<Event>)
    decreases |es|
  {
    es == [] || (Enabled(s, es[0]) && Runs(Next(s, es[0]), es[1..]))
  }

  function After(s: Db, es: seq<Event>): Db
    requires Runs(s, es)
    decreases |es|
  {
    if es == [] then s else After(Next(s, es[0]), es[1..])
  }

  // ---------------------------------------------------------------- friendship stays symmetric

  ghost predicate Symmetric(friends: set<Pair>) {
    forall a, b :: (a, b) in friends <==> (b, a) in friends
  }

  ghost predicate ValidSession(s: Db, n: Session) {
    && (n.autocommit ==> n.friends == {} && n.rows == [])
    && match n.task
       case NoTask => n.friends == {}
       case Adding(a, b, done) =>
         && done <= 4
         && (done >= 2 ==> !n.autocommit)
         && (done <= 2 ==> n.friends == {})
         && n.friends <= {(a, b), (b, a)}
         && (done >= 3 ==> (a, b) in s.friends + n.friends)
         && (done == 4 ==> (b, a) in s.friends + n.friends)
  }

  ghost predicate Inv(s: Db) {
    && Symmetric(s.friends)
    && forall c :: 0 <= c < |s.sessions| ==> ValidSession(s, s.sessions[c])
  }

  lemma StepKeepsInv(s: Db, e: Event)
    requires Inv(s) && Enabled(s, e)
    ensures Inv(Next(s, e)) && |Next(s, e).sessions| == |s.sessions|
  {
    var s' := Next(s, e);
    assert ValidSession(s, s.sessions[e.c]);
    assert s.friends <= s'.friends;
    if Commits(s, e) {
      var t := s.sessions[e.c].task;
      assert s'.friends == s.friends + {(t.a, t.b), (t.b, t.a)};
    }
    forall c | 0 <= c < |s'.sessions| ensures ValidSession(s', s'.sessions[c]) {
      assert ValidSession(s, s.sessions[c]);
    }
  }

  lemma {:induction false} RunKeepsInv(s: Db, es: seq<Event>)
    requires Inv(s) && Runs(s, es)
    ensures Inv(After(s, es)) && |After(s, es).sessions| == |s.sessions|
    decreases |es|
  {
    if es != [] {
      StepKeepsInv(s, es[0]);
      RunKeepsInv(Next(s, es[0]), es[1..]);
    }
  }

  /** In every run of any number of AddFriend calls, interleaved statement by statement and
      failing anywhere, the committed friend relation is symmetric. */
  lemma FriendshipIsSymmetric(connections: nat, es: seq<Event>)
    requires Runs(Fresh(connections), es)
    ensures Symmetric(After(Fresh(connections), es).friends)
  {
    RunKeepsInv(Fresh(connections), es);
  }

  /** The committed relation changes only at the commit of a call, and then by exactly the two
      rows of that call; so a call that returns false adds no pair. */
  lemma OnlyCommitAddsThePair(s: Db, e: Event)
    requires Inv(s) && Enabled(s, e)
    ensures !Commits(s, e) ==> Next(s, e).friends == s.friends
    ensures Commits(s, e) ==>
              var t := s.sessions[e.c].task; Next(s, e).friends == s.friends + {(t.a, t.b), (t.b, t.a)}
    ensures e.Throw? ==> Next(s, e).sessions[e.c].friends == {}
  {
    assert ValidSession(s, s.sessions[e.c]);
  }

  // ---------------------------------------------------------------- when a save is durable

  /** How the transaction open on connection `c` ends within a run. */
  datatype Fate = Open | Committed | RolledBack

  function FateOf(s: Db, es: seq<Event>, c: nat): Fate
    requires Runs(s, es)
    decreases |es|
  {
    if es == [] then Open
    else if es[0].c == c && (es[0].Throw? || es[0].Reconnect?) then RolledBack
    else if es[0].c == c && Commits(s, es[0]) then Committed
    else FateOf(Next(s, es[0]), es[1..], c)
  }

  /** `m` is nowhere outside connection `c`. */
  predicate OnlyOn(s: Db, row: Row, c: nat) {
    row !in s.rows && forall i :: 0 <= i < |s.sessions| && i != c ==> row !in s.sessions[i].rows
  }

  predicate NotSavedAgain(es: seq<Event>, row: Row) {
    forall k :: 0 <= k < |es| && es[k].Write? ==> es[k].row != row
  }

  lemma {:induction false} CommittedStays(s: Db, es: seq<Event>, row: Row)
    requires Runs(s, es) && row in s.rows
    ensures row in After(s, es).rows
    decreases |es|
  {
    if es != [] {
      CommittedStays(Next(s, es[0]), es[1..], row);
    }
  }

  lemma {:induction false} AbsentStays(s: Db, es: seq<Event>, row: Row)
    requires Runs(s, es) && NotSavedAgain(es, row)
    requires row !in s.rows && forall i :: 0 <= i < |s.sessions| ==> row !in s.sessions[i].rows
    ensures row !in After(s, es).rows
    decreases |es|
  {
    if es != [] {
      assert NotSavedAgain(es[1..], row) by {
        assert forall k :: 0 <= k < |es[1..]| ==> es[1..][k] == es[k + 1];
      }
      AbsentStays(Next(s, es[0]), es[1..], row);
    }
  }

  lemma {:induction false} PendingFate(s: Db, es: seq<Event>, row: Row, c: nat)
    requires Inv(s) && Runs(s, es) && NotSavedAgain(es, row)
    requires c < |s.sessions| && row in s.sessions[c].rows && OnlyOn(s, row, c)
    ensures row in After(s, es).rows <==> FateOf(s, es, c).Committed?
    decreases |es|
  {
    if es != [] {
      var s' := Next(s, es[0]);
      StepKeepsInv(s, es[0]);
      assert NotSavedAgain(es[1..], row) by {
        assert forall k :: 0 <= k < |es[1..]| ==> es[1..][k] == es[k + 1];
      }
      if es[0].c == c && (es[0].Throw? || es[0].Reconnect?) {
        AbsentStays(s', es[1..], row);
      } else if es[0].c == c && Commits(s, es[0]) {
        CommittedStays(s', es[1..], row);
      } else {
        PendingFate(s', es[1..], row, c);
      }
    }
  }

  /** A row that a save has written is in the committed table after a run exactly when its
      connection was in autocommit mode, or what next ended the transaction open on it was the
      commit of a friend request: not a rollback, not a reconnect. */
  lemma SaveIsDurableExactly(s: Db, c: nat, row: Row, es: seq<Event>)
    requires Inv(s) && Enabled(s, Write(c, row))
    requires row !in s.rows && forall i :: 0 <= i < |s.sessions| ==> row !in s.sessions[i].rows
    requires Runs(Next(s, Write(c, row)), es) && NotSavedAgain(es, row)
    ensures row in After(Next(s, Write(c, row)), es).rows <==>
            s.sessions[c].autocommit || FateOf(Next(s, Write(c, row)), es, c).Committed?
  {
    var s' := Next(s, Write(c, row));
    StepKeepsInv(s, Write(c, row));
    if s.sessions[c].autocommit {
      CommittedStays(s', es, row);
    } else {
      PendingFate(s', es, row, c);
    }
  }

  /** AddFriend has run its setAutoCommit(false) on this connection. */
  predicate SwitchesOff(s: Db, e: Event, c: nat) {
    Enabled(s, e) && e.c == c && e.Statement? && s.sessions[c].task.done == 1
  }

  /** What a run last did to the mode of connection `c`. */
  datatype Switch = Untouched | Off | On

  function LastSwitch(s: Db, es: seq<Event>, c: nat): Switch
    requires Runs(s, es)
    decreases |es|
  {
    if es == [] then Untouched
    else
      var later := LastSwitch(Next(s, es[0]), es[1..], c);
      if later != Untouched then later
      else if SwitchesOff(s, es[0], c) then Off
      else if es[0] == Reconnect(c) then On
      else Untouched
  }

  /** A connection is in autocommit mode exactly while no AddFriend call on it has got as far
      as its transaction since the keep-alive pass last gave it a new session. */
  lemma {:induction false} AutocommitExactly(s: Db, es: seq<Event>, c: nat)
    requires Inv(s) && Runs(s, es) && c < |s.sessions|
    ensures c < |After(s, es).sessions|
    ensures After(s, es).sessions[c].autocommit <==>
            LastSwitch(s, es, c).On? || (LastSwitch(s, es, c).Untouched? && s.sessions[c].autocommit)
    decreases |es|
  {
    if es != [] {
      StepKeepsInv(s, es[0]);
      AutocommitExactly(Next(s, es[0]), es[1..], c);
    }
  }

  function Statements(k: nat): seq<Event> {
    if k == 0 then [] else [Statement(0)] + Statements(k - 1)
  }

  /** One AddFriend call on connection 0 that succeeds. */
  function Befriend(a: int, b: int): seq<Event> {
    [Start(0, a, b)] + Statements(5)
  }

  lemma {:induction false} RunAppend(s: Db, xs: seq<Event>, ys: seq<Event>)
    requires Runs(s, xs) && Runs(After(s, xs), ys)
    ensures Runs(s, xs + ys) && After(s, xs + ys) == After(After(s, xs), ys)
    decreases |xs|
  {
    if xs == [] {
      assert xs + ys == ys;
    } else {
      assert (xs + ys)[1..] == xs[1..] + ys;
      RunAppend(Next(s, xs[0]), xs[1..], ys);
    }
  }

  /** Running a list of events from its front. */
  lemma RunCons(s: Db, e: Event, es: seq<Event>)
    requires Enabled(s, e) && Runs(Next(s, e), es)
    ensures Runs(s, [e] + es) && After(s, [e] + es) == After(Next(s, e), es)
  {
    assert ([e] + es)[1..] == es;
  }

  lemma {:induction false} StatementsRun(s: Db, k: nat)
    requires Inv(s) && |s.sessions| > 0 && s.sessions[0].task.Adding?
    requires 0 < k && s.sessions[0].task.done + k == 5
    ensures Runs(s, Statements(k))
    ensures var t := After(s, Statements(k));
            |t.sessions| > 0 && t.sessions[0] == Session(false, {}, [], NoTask)
    decreases k
  {
    var s' := Next(s, Statement(0));
    StepKeepsInv(s, Statement(0));
    assert ValidSession(s, s.sessions[0]);
    if k > 1 {
      StatementsRun(s', k - 1);
    }
    RunCons(s, Statement(0), Statements(k - 1));
  }

  lemma BefriendRuns(s: Db, a: int, b: int)
    requires Inv(s) && |s.sessions| > 0 && s.sessions[0].task.NoTask?
    ensures Runs(s, Befriend(a, b))
    ensures var t := After(s, Befriend(a, b));
            |t.sessions| > 0 && t.sessions[0] == Session(false, {}, [], NoTask)
  {
    StepKeepsInv(s, Start(0, a, b));
    StatementsRun(Next(s, Start(0, a, b)), 5);
    RunCons(s, Start(0, a, b), Statements(5));
  }

  /** A save that returned true and is then lost: after a successful friend request on the
      connection, the next friend request on it fails and its rollback takes the rows. */
  lemma SavedMessageLost(row: Row)
    ensures var es := Befriend(1, 2) + [Write(0, row), Start(0, 3, 4), Throw(0)];
            Runs(Fresh(1), es) && After(Fresh(1), es).rows == [] && NothingPending(After(Fresh(1), es))
  {
    var s := AfterOneFriend();
    var s1 := Next(s, Write(0, row));
    var s2 := Next(s1, Start(0, 3, 4));
    var s3 := Next(s2, Throw(0));
    RunCons(s2, Throw(0), []);
    RunCons(s1, Start(0, 3, 4), [Throw(0)] + []);
    RunCons(s, Write(0, row), [Start(0, 3, 4)] + ([Throw(0)] + []));
    var tail := [Write(0, row), Start(0, 3, 4), Throw(0)];
    assert tail == [Write(0, row)] + ([Start(0, 3, 4)] + ([Throw(0)] + []));
    RunAppend(Fresh(1), Befriend(1, 2), tail);
  }

  /** The same by a reconnect: the rows stay lost although the next transaction to end on
      the connection is a commit. */
  lemma ReconnectLosesSave(row: Row)
    ensures var es := Befriend(1, 2) + ([Write(0, row), Reconnect(0)] + Befriend(3, 4));
            Runs(Fresh(1), es) && After(Fresh(1), es).rows == [] && NothingPending(After(Fresh(1), es))
  {
    var s := AfterOneFriend();
    var s1 := Next(s, Write(0, row));
    var s2 := Next(s1, Reconnect(0));
    StepKeepsInv(s, Write(0, row));
    StepKeepsInv(s1, Reconnect(0));
    BefriendWritesNone(s2, 3, 4);
    RunCons(s1, Reconnect(0), Befriend(3, 4));
    RunCons(s, Write(0, row), [Reconnect(0)] + Befriend(3, 4));
    assert [Write(0, row), Reconnect(0)] + Befriend(3, 4) == [Write(0, row)] + ([Reconnect(0)] + Befriend(3, 4));
    RunAppend(Fresh(1), Befriend(1, 2), [Write(0, row), Reconnect(0)] + Befriend(3, 4));
  }

  ghost predicate NothingPending(s: Db) {
    forall i :: 0 <= i < |s.sessions| ==> s.sessions[i].rows == []
  }

  lemma AfterOneFriend() returns (s: Db)
    ensures Runs(Fresh(1), Befriend(1, 2)) && s == After(Fresh(1), Befriend(1, 2)) && Inv(s)
    ensures s.rows == [] && s.sessions == [Session(false, {}, [], NoTask)]
  {
    BefriendWritesNone(Fresh(1), 1, 2);
    s := After(Fresh(1), Befriend(1, 2));
  }

  lemma BefriendWritesNone(s: Db, a: int, b: int)
    requires Inv(s) && |s.sessions| == 1 && s.sessions[0].task.NoTask? && s.rows == [] && NothingPending(s)
    ensures Runs(s, Befriend(a, b)) && Inv(After(s, Befriend(a, b)))
    ensures After(s, Befriend(a, b)).rows == []
    ensures After(s, Befriend(a, b)).sessions == [Session(false, {}, [], NoTask)]
  {
    BefriendRuns(s, a, b);
    RunKeepsInv(s, Befriend(a, b));
    NoRows(s, Befriend(a, b));
  }

  lemma {:induction false} NoRows(s: Db, es: seq<Event>)
    requires Runs(s, es) && s.rows == [] && NothingPending(s)
    requires forall k :: 0 <= k < |es| ==> !es[k].Write?
    ensures After(s, es).rows == [] && NothingPending(After(s, es))
    decreases |es|
  {
    if es != [] {
      assert forall k :: 0 <= k < |es[1..]| ==> es[1..][k] == es[k + 1];
      NoRows(Next(s, es[0]), es[1..]);
    }
  }

  // ---------------------------------------------------------------- imperative form

  /** One AddFriend call on connection 0, alone: its statements up to the one that throws, or
      all five. */
  function Call(s: Db, a: int, b: int, failsAt: nat): Db
    requires |s.sessions| > 0 && s.sessions[0].task.NoTask?
  {
    CallFrom(Next(s, Start(0, a, b)), failsAt)
  }

  function CallFrom(s: Db, failsAt: nat): Db
    requires |s.sessions| > 0 && s.sessions[0].task.Adding? && s.sessions[0].task.done <= 4
    decreases 5 - s.sessions[0].task.done
  {
    var done := s.sessions[0].task.done;
    if done == failsAt then Next(s, Throw(0))
    else if done == 4 then Next(s, Statement(0))
    else CallFrom(Next(s, Statement(0)), failsAt)
  }

  lemma {:induction false} CallFromOutcome(s: Db, failsAt: nat)
    requires Inv(s) && |s.sessions| > 0 && s.sessions[0].task.Adding?
    requires s.sessions[0].task.done <= failsAt
    ensures s.sessions[0].task.done <= 4 && |CallFrom(s, failsAt).sessions| == |s.sessions|
    ensures var n, t := s.sessions[0], CallFrom(s, failsAt);
            && t.friends == s.friends + (if failsAt > 4 then {(n.task.a, n.task.b), (n.task.b, n.task.a)} else {})
            && t.rows == s.rows + (if failsAt > 4 then n.rows else [])
            && t.sessions[0] == Session(n.autocommit && failsAt <= 1, {}, [], NoTask)
            && t.sessions[1..] == s.sessions[1..]
    decreases 5 - s.sessions[0].task.done
  {
    var n := s.sessions[0];
    assert ValidSession(s, n);
    if n.task.done != failsAt {
      StepKeepsInv(s, Statement(0));
      OnlyCommitAddsThePair(s, Statement(0));
      if n.task.done < 4 {
        CallFromOutcome(Next(s, Statement(0)), failsAt);
      }
    }
  }

  /** What one whole call does to the committed tables and its connection. */
  lemma CallOutcome(s: Db, a: int, b: int, failsAt: nat)
    requires Inv(s) && |s.sessions| > 0 && s.sessions[0].task.NoTask?
    ensures var n, t := s.sessions[0], Call(s, a, b, failsAt);
            && t.friends == s.friends + (if failsAt > 4 then {(a, b), (b, a)} else {})
            && t.rows == s.rows + (if failsAt > 4 then n.rows else [])
            && t.sessions == [Session(n.autocommit && failsAt <= 1, {}, [], NoTask)] + s.sessions[1..]
  {
    var s1 := Next(s, Start(0, a, b));
    StepKeepsInv(s, Start(0, a, b));
    CallFromOutcome(s1, failsAt);
    var t := Call(s, a, b, failsAt);
    assert t.sessions == [t.sessions[0]] + t.sessions[1..];
    assert s1.sessions[1..] == s.sessions[1..];
  }

  /** One SaveChatMessage call on connection `c`, alone, up to the statement that throws. */
  function Saved(s: Db, c: nat, save: nat, msgId: string, failsAt: nat): Db
    requires c < |s.sessions| && s.sessions[c].task.NoTask?
  {
    if failsAt == 0 then s
    else
      var s1 := Next(s, Write(c, MessageRow(save, msgId)));
      if failsAt == 1 then s1 else Next(s1, Write(c, RelationRow(save, msgId)))
  }

  /** One pooled connection with its server session, used by one call at a time. */
  class SqlSession {
    var friends: set<Pair>            // committed rows
    var rows: seq<Row>
    var autocommit: bool
    var pendingFriends: set<Pair>     // rows of the open transaction
    var pendingRows: seq<Row>
    ghost var task: Task

    ghost function Abs(): Db
      reads this
    {
      Db(friends, rows, [Session(autocommit, pendingFriends, pendingRows, task)])
    }

    ghost predicate Valid()
      reads this
    {
      Inv(Abs())
    }

    constructor ()
      ensures Valid() && Abs() == Fresh(1)
    {
      friends, rows, autocommit := {}, [], true;
      pendingFriends, pendingRows, task := {}, [], NoTask;
      new;
      assert Abs().sessions == Fresh(1).sessions;
    }

    /** The catch blocks: roll back, whichever statement threw. */
    method Rollback()
      requires Valid() && task.Adding?
      modifies this
      ensures Valid() && Abs() == Next(old(Abs()), Throw(0))
    {
      StepKeepsInv(Abs(), Throw(0));
      pendingFriends, pendingRows, task := {}, [], NoTask;
    }

    /** The two session settings before the transaction. */
    method Settings()
      requires Valid() && task.Adding? && task.done == 0
      modifies this
      ensures Valid() && Abs() == Next(old(Abs()), Statement(0))
    {
      StepKeepsInv(Abs(), Statement(0));
      task := task.(done := 1);
    }

    method SetAutoCommitOff()
      requires Valid() && task.Adding? && task.done == 1
      modifies this
      ensures Valid() && Abs() == Next(old(Abs()), Statement(0))
    {
      StepKeepsInv(Abs(), Statement(0));
      autocommit := false;
      task := task.(done := 2);
    }

    /** INSERT IGNORE INTO friend. */
    method Insert(uid: int, friendUid: int)
      requires Valid() && task.Adding? && task.done in {2, 3}
      requires (uid, friendUid) == if task.done == 2 then (task.a, task.b) else (task.b, task.a)
      modifies this
      ensures Valid() && Abs() == Next(old(Abs()), Statement(0))
    {
      StepKeepsInv(Abs(), Statement(0));
      if (uid, friendUid) !in friends && (uid, friendUid) !in pendingFriends {
        pendingFriends := pendingFriends + {(uid, friendUid)};
      }
      task := task.(done := task.done + 1);
    }

    method Commit()
      requires Valid() && task.Adding? && task.done == 4
      modifies this
      ensures Valid() && Abs() == Next(old(Abs()), Statement(0))
    {
      StepKeepsInv(Abs(), Statement(0));
      friends, rows := friends + pendingFriends, rows + pendingRows;
      pendingFriends, pendingRows, task := {}, [], NoTask;
    }

    /** AddFriend; statement number `failsAt` throws: 0 session settings, 1 autocommit off, 2 and
        3 the inserts, 4 the commit, 5 or more for none. */
    method AddFriend(fromUid: int, toUid: int, failsAt: nat) returns (ok: bool)
      requires Valid() && task.NoTask?
      modifies this
      ensures Valid() && task.NoTask? && Abs() == Call(old(Abs()), fromUid, toUid, failsAt)
      ensures ok <==> failsAt > 4
      ensures friends == old(friends) + if ok then {(fromUid, toUid), (toUid, fromUid)} else {}
      ensures rows == old(rows) + if ok then old(pendingRows) else []
      ensures pendingRows == [] && autocommit == (old(autocommit) && failsAt <= 1)
    {
      ghost var s := Abs();
      CallOutcome(s, fromUid, toUid, failsAt);
      ghost var end := Call(s, fromUid, toUid, failsAt);
      assert end.sessions[0].task.NoTask?;
      StepKeepsInv(s, Start(0, fromUid, toUid));
      task := Adding(fromUid, toUid, 0);
      assert Abs() == Next(s, Start(0, fromUid, toUid));
      ok := Transact(fromUid, toUid, failsAt);
      assert Abs() == end;
      assert Abs().sessions[0] == end.sessions[0];
    }

    /** The try block of AddFriend and its handlers. */
    method Transact(fromUid: int, toUid: int, failsAt: nat) returns (ok: bool)
      requires Valid() && task == Adding(fromUid, toUid, 0)
      modifies this
      ensures Valid() && Abs() == CallFrom(old(Abs()), failsAt)
      ensures ok <==> failsAt > 4
    {
      ok := false;
      ghost var end := CallFrom(Abs(), failsAt);
      if failsAt == 0 { Rollback(); return; }
      Settings();
      assert task == Adding(fromUid, toUid, 1) && CallFrom(Abs(), failsAt) == end;
      if failsAt == 1 { Rollback(); return; }
      SetAutoCommitOff();
      assert task == Adding(fromUid, toUid, 2) && CallFrom(Abs(), failsAt) == end;
      if failsAt == 2 { Rollback(); return; }
      Insert(fromUid, toUid);
      assert task == Adding(fromUid, toUid, 3) && CallFrom(Abs(), failsAt) == end;
      if failsAt == 3 { Rollback(); return; }
      Insert(toUid, fromUid);
      assert task == Adding(fromUid, toUid, 4) && CallFrom(Abs(), failsAt) == end;
      if failsAt == 4 { Rollback(); return; }
      Commit();
      ok := true;
    }

    /** One statement of SaveChatMessage. */
    method InsertRow(row: Row)
      requires Valid() && task.NoTask?
      modifies this
      ensures Valid() && task.NoTask? && Abs() == Next(old(Abs()), Write(0, row))
      ensures friends == old(friends) && pendingFriends == old(pendingFriends) && autocommit == old(autocommit)
      ensures if autocommit then rows == old(rows) + [row] && pendingRows == old(pendingRows)
              else rows == old(rows) && pendingRows == old(pendingRows) + [row]
    {
      StepKeepsInv(Abs(), Write(0, row));
      if autocommit {
        rows := rows + [row];
      } else {
        pendingRows := pendingRows + [row];
      }
    }

    /** SaveChatMessage, call number `save`; statement number `failsAt` throws, 2 or more for none. Nothing is
        rolled back. */
    method SaveChatMessage(save: nat, msgId: string, failsAt: nat) returns (ok: bool)
      requires Valid() && task.NoTask?
      modifies this
      ensures Valid() && task.NoTask? && Abs() == Saved(old(Abs()), 0, save, msgId, failsAt)
      ensures ok <==> failsAt >= 2
      ensures friends == old(friends) && pendingFriends == old(pendingFriends) && autocommit == old(autocommit)
      ensures var written := if failsAt == 0 then [] else if failsAt == 1 then [MessageRow(save, msgId)]
                             else [MessageRow(save, msgId), RelationRow(save, msgId)];
              if autocommit then rows == old(rows) + written && pendingRows == old(pendingRows)
              else rows == old(rows) && pendingRows == old(pendingRows) + written
    {
      if failsAt == 0 {
        return false;
      }
      InsertRow(MessageRow(save, msgId));
      if failsAt == 1 {
        return false;
      }
      InsertRow(RelationRow(save, msgId));
      ok := true;
    }

    /** checkConnection replaces the driver session; the server drops the old one with its
        open transaction. */
    method ReplaceSession()
      requires Valid() && task.NoTask?
      modifies this
      ensures Valid() && task.NoTask? && Abs() == Next(old(Abs()), Reconnect(0))
      ensures autocommit && pendingFriends == {} && pendingRows == []
      ensures friends == old(friends) && rows == old(rows)
    {
      StepKeepsInv(Abs(), Reconnect(0));
      autocommit, pendingFriends, pendingRows := true, {}, [];
    }
  }
}
