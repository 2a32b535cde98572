/**
  The connection pool object itself (MySQLConnectPool.cpp) with its keep-alive pass, and the
  DAO methods that borrow from it (MySQLDao.cpp), each run by one thread at a time under the
  pool's mutex. What many threads do to one pool is the subject of PoolMonitor.
*/
module ConnectPool {
  import opened Wrappers
  import P = PoolMonitor
  import D = DaoProgress

  const KEEP_ALIVE := 600

  /** A pooled connection object; `session` is the driver connection inside it. */
  datatype SqlConnection = SqlConnection(id: nat, session: int, lastOperTime: int)

  /** What `SELECT 1`, and the reconnect after its failure, come to. */
  datatype Ping = Alive | Reconnected(session: int) | Unreachable

  predicate Stale(c: SqlConnection, now: int) {
    now - c.lastOperTime >= KEEP_ALIVE
  }

  /** A connection after a successful visit. */
  function Visited(c: SqlConnection, now: int, p: Ping): SqlConnection {
    if !Stale(c, now) then c
    else if p.Reconnected? then c.(session := p.session, lastOperTime := now)
    else c.(lastOperTime := now)
  }

  function VisitedAll(cs: seq<SqlConnection>, now: int, ps: seq<Ping>): (r: seq<SqlConnection>)
    requires |ps| >= |cs|
    ensures |r| == |cs|
    ensures forall i :: 0 <= i < |cs| ==> r[i] == Visited(cs[i], now, ps[i])
  {
    seq(|cs|, i requires 0 <= i < |cs| => Visited(cs[i], now, ps[i]))
  }

  /** The reconnect of this connection throws. */
  predicate Throws(c: SqlConnection, now: int, p: Ping) {
    Stale(c, now) && p.Unreachable?
  }

  /** The first `k` visits do not throw. */
  predicate NoThrow(cs: seq<SqlConnection>, now: int, ps: seq<Ping>, k: nat)
    requires k <= |cs| <= |ps|
  {
    forall i :: 0 <= i < k ==> !Throws(cs[i], now, ps[i])
  }

  function Ids(cs: seq<SqlConnection>): (r: seq<nat>)
    ensures |r| == |cs|
    ensures forall i :: 0 <= i < |cs| ==> r[i] == cs[i].id
  {
    seq(|cs|, i requires 0 <= i < |cs| => cs[i].id)
  }

  /** The same connection object: untouched if it was used in the last ten minutes, otherwise
      stamped `now`, with the new session if it had to be connected again and with its own if
      it answered. */
  predicate Kept(before: SqlConnection, after: SqlConnection, now: int, p: Ping) {
    && after.id == before.id
    && (now - before.lastOperTime < 600 ==> after == before)
    && (now - before.lastOperTime >= 600 ==>
          && !p.Unreachable? && after.lastOperTime == now
          && after.session == if p.Reconnected? then p.session else before.session)
  }

  /** What a keep-alive pass over `before` may leave: all connections in the same order, each
      kept; or, when the visit of number `k` threw, the queue turned by k + 1 places: those
      not reached, those kept, and last the one that threw, unchanged. */
  ghost predicate KeptAlive(before: seq<SqlConnection>, after: seq<SqlConnection>, now: int, ps: seq<Ping>, threwAt: Option<nat>) {
    && |after| == |before| <= |ps|
    && match threwAt
       case None =>
         forall i :: 0 <= i < |before| ==> Kept(before[i], after[i], now, ps[i])
       case Some(k) =>
         && k < |before|
         && after[..|before| - k - 1] == before[k + 1..]
         && (forall j :: 0 <= j < k ==> Kept(before[j], after[|before| - k - 1 + j], now, ps[j]))
         && after[|after| - 1] == before[k]
         && now - before[k].lastOperTime >= 600 && ps[k].Unreachable?
  }

  /** Nothing is lost in either case: the connection objects are a rotation of the original. */
  lemma KeptAliveIsRotation(
    before: seq<SqlConnection>, after: seq<SqlConnection>, now: int, ps: seq<Ping>, threwAt: Option<nat>)
    requires KeptAlive(before, after, now, ps, threwAt)
    ensures threwAt.None? ==> Ids(after) == Ids(before)
    ensures threwAt.Some? ==>
              var k := threwAt.value + 1; Ids(after) == Ids(before)[k..] + Ids(before)[..k]
    ensures multiset(Ids(after)) == multiset(Ids(before))
  {
    if threwAt.Some? {
      var k, n := threwAt.value + 1, |before|;
      var turned := Ids(before)[k..] + Ids(before)[..k];
      forall i | 0 <= i < n ensures Ids(after)[i] == turned[i] {
        if i < n - k {
          assert after[i] == after[..n - k][i] == before[k + i];
        } else if i < n - 1 {
          assert Kept(before[i - (n - k)], after[n - k + (i - (n - k))], now, ps[i - (n - k)]);
        }
      }
      assert Ids(after) == turned;
      assert Ids(before) == Ids(before)[..k] + Ids(before)[k..];
    } else {
      assert Ids(after) == Ids(before);
    }
  }

  lemma NormalPass(before: seq<SqlConnection>, now: int, ps: seq<Ping>)
    requires |ps| >= |before| && NoThrow(before, now, ps, |before|)
    ensures KeptAlive(before, VisitedAll(before, now, ps), now, ps, None)
  {
  }

  lemma BrokenPass(before: seq<SqlConnection>, now: int, ps: seq<Ping>, k: nat)
    requires k < |before| <= |ps| && Throws(before[k], now, ps[k]) && NoThrow(before, now, ps, k)
    ensures KeptAlive(before, before[k + 1..] + VisitedAll(before[..k], now, ps) + [before[k]], now, ps, Some(k))
  {
    var seen := VisitedAll(before[..k], now, ps);
    forall j | 0 <= j < k ensures Kept(before[j], seen[j], now, ps[j]) {
      assert seen[j] == Visited(before[..k][j], now, ps[j]);
    }
    BrokenQueue(before, before[k + 1..], seen, k, now, ps);
  }

  lemma BrokenQueue(before: seq<SqlConnection>, rest: seq<SqlConnection>, seen: seq<SqlConnection>, k: nat, now: int,
                    ps: seq<Ping>)
    requires k < |before| <= |ps| && rest == before[k + 1..] && |seen| == k
    requires now - before[k].lastOperTime >= 600 && ps[k].Unreachable?
    requires forall j :: 0 <= j < k ==> Kept(before[j], seen[j], now, ps[j])
    ensures KeptAlive(before, rest + seen + [before[k]], now, ps, Some(k))
  {
    var after := rest + seen + [before[k]];
    Joined(rest, seen, before[k]);
    assert |rest| == |before| - k - 1;
    forall j | 0 <= j < k ensures Kept(before[j], after[|before| - k - 1 + j], now, ps[j]) {
      assert after[|rest| + j] == seen[j];
    }
  }

  lemma Joined(xs: seq<SqlConnection>, ys: seq<SqlConnection>, z: SqlConnection)
    ensures var all := xs + ys + [z];
            && |all| == |xs| + |ys| + 1
            && all[..|xs|] == xs
            && (forall j :: 0 <= j < |ys| ==> all[|xs| + j] == ys[j])
            && all[|all| - 1] == z
  {
  }

  /** One turn of the pass: the front goes to the back. */
  lemma TurnPass(before: seq<SqlConnection>, now: int, ps: seq<Ping>, i: nat, pool: seq<SqlConnection>)
    requires i < |before| <= |ps|
    requires pool == before[i..] + VisitedAll(before[..i], now, ps)
    ensures pool[0] == before[i]
    ensures pool[1..] == before[i + 1..] + VisitedAll(before[..i], now, ps)
    ensures VisitedAll(before[..i + 1], now, ps)
         == VisitedAll(before[..i], now, ps) + [Visited(before[i], now, ps[i])]
  {
  }

  /** What getConnection comes to: nullptr, a wait for somebody else's return, a connection. */
  datatype Loan = Refused | Waits | Lent(conn: SqlConnection)

  class MySQLConnectPool {
    var pool: seq<SqlConnection>
    var isStop: bool

    constructor (connections: seq<SqlConnection>)
      ensures pool == connections && !isStop
    {
      pool, isStop := connections, false;
    }

    /** getConnection; `Waits` is where the thread goes to sleep. */
    method GetConnection() returns (r: Loan)
      modifies this
      ensures isStop == old(isStop)
      ensures r.Refused? <==> isStop
      ensures r.Waits? <==> !isStop && old(pool) == []
      ensures if r.Lent? then [r.conn] + pool == old(pool) else pool == old(pool)
    {
      if isStop {
        return Refused;
      }
      if pool == [] {
        return Waits;
      }
      r := Lent(pool[0]);
      pool := pool[1..];
    }

    method ReturnConnection(conn: SqlConnection)
      modifies this
      ensures isStop == old(isStop)
      ensures pool == if isStop then old(pool) else old(pool) + [conn]
    {
      if isStop {
        return;
      }
      pool := pool + [conn];
    }

    method Close()
      modifies this
      ensures isStop && pool == old(pool)
    {
      isStop := true;
    }

    /** One round of the loop: whatever happens to the front connection, the deferred action
        pushes it to the back. */
    method VisitFront(now: int, ping: Ping) returns (threw: bool)
      requires pool != []
      modifies this
      ensures isStop == old(isStop)
      ensures threw == Throws(old(pool)[0], now, ping)
      ensures pool == old(pool)[1..] + [if threw then old(pool)[0] else Visited(old(pool)[0], now, ping)]
    {
      var conn := pool[0];
      pool := pool[1..];
      threw := false;
      if now - conn.lastOperTime >= KEEP_ALIVE {
        match ping {
          case Alive => conn := conn.(lastOperTime := now);
          case Reconnected(session) => conn := conn.(session := session, lastOperTime := now);
          case Unreachable => threw := true;
        }
      }
      pool := pool + [conn];
    }

    /** checkConnection. */
    method CheckConnection(now: int, pings: seq<Ping>) returns (threwAt: Option<nat>)
      requires |pings| >= |pool|
      modifies this
      ensures isStop == old(isStop)
      ensures KeptAlive(old(pool), pool, now, pings, threwAt)
      ensures threwAt.None? ==> pool == VisitedAll(old(pool), now, pings)
      ensures threwAt.None? <==> NoThrow(old(pool), now, pings, |old(pool)|)
      ensures threwAt.Some? ==>
                && NoThrow(old(pool), now, pings, threwAt.value)
                && Throws(old(pool)[threwAt.value], now, pings[threwAt.value])
    {
      ghost var before := pool;
      var poolSize := |pool|;
      for i := 0 to poolSize
        invariant poolSize == |before| && isStop == old(isStop)
        invariant pool == before[i..] + VisitedAll(before[..i], now, pings)
        invariant NoThrow(before, now, pings, i)
      {
        TurnPass(before, now, pings, i, pool);
        var threw := VisitFront(now, pings[i]);
        if threw {
          BrokenPass(before, now, pings, i);
          return Some(i);
        }
      }
      assert before[..poolSize] == before;
      NormalPass(before, now, pings);
      threwAt := None;
    }
  }

  // ---------------------------------------------------------------- DAO methods

  datatype UserInfo = UserInfo(uid: int, name: string, nick: string, back: string)

  /** What a call comes to for a thread that is alone with the pool: it ends with an answer, or
      it waits for a connection that only another thread can bring. */
  datatype Outcome<+T> = Asleep | Answer(value: T)

  /** The nested lookup for row `i` finds a profile: there is one and the query does not throw. */
  predicate Found(friendIds: seq<int>, users: map<int, UserInfo>, failing: set<nat>, i: nat)
    requires i < |friendIds|
  {
    friendIds[i] in users && i !in failing
  }

  /** The profiles of those friends whose lookup found a row, in table order, with the remark
      replaced by the user name. */
  function Listed(friendIds: seq<int>, users: map<int, UserInfo>, failing: set<nat>): seq<UserInfo> {
    if friendIds == [] then []
    else
      var n := |friendIds| - 1;
      var rest := Listed(friendIds[..n], users, failing);
      if Found(friendIds, users, failing, n) then
        var u := users[friendIds[n]];
        rest + [u.(back := u.name)]
      else rest
  }

  lemma ListedNext(friendIds: seq<int>, users: map<int, UserInfo>, failing: set<nat>, k: nat)
    requires k < |friendIds|
    ensures Listed(friendIds[..k + 1], users, failing) ==
            Listed(friendIds[..k], users, failing) +
            if Found(friendIds, users, failing, k)
            then [users[friendIds[k]].(back := users[friendIds[k]].name)] else []
  {
    assert friendIds[..k + 1][..k] == friendIds[..k];
  }

  /** Every listed profile is that of a friend whose lookup succeeded, and none is left out. */
  lemma {:induction false} ListedExactly(friendIds: seq<int>, users: map<int, UserInfo>, failing: set<nat>, u: int)
    requires forall k :: k in users ==> users[k].uid == k
    ensures (exists p :: p in Listed(friendIds, users, failing) && p.uid == u) <==>
            (exists i :: 0 <= i < |friendIds| && friendIds[i] == u && Found(friendIds, users, failing, i))
  {
    if friendIds != [] {
      var n := |friendIds| - 1;
      var front := friendIds[..n];
      ListedExactly(front, users, failing, u);
      assert forall i :: 0 <= i < n ==>
        front[i] == friendIds[i] && (Found(front, users, failing, i) <==> Found(friendIds, users, failing, i));
      var rest, all := Listed(front, users, failing), Listed(friendIds, users, failing);
      assert forall q :: q in rest ==> q in all;
      if Found(friendIds, users, failing, n) {
        var p := users[friendIds[n]].(back := users[friendIds[n]].name);
        assert all == rest + [p];
        assert p in all;
      }
    }
  }

  /** The rows before number `i` whose lookup finds a profile. */
  function FoundBefore(friendIds: seq<int>, users: map<int, UserInfo>, failing: set<nat>, i: nat): set<nat>
    requires i <= |friendIds|
  {
    set k: nat | k < i && friendIds[k] in users && k !in failing
  }

  /** The list, place by place: the profile of each found row comes behind those of the found rows
      before it, with the user name for a remark, and there is nothing else. */
  lemma {:induction false} ListedAt(friendIds: seq<int>, users: map<int, UserInfo>, failing: set<nat>, i: nat)
    requires i < |friendIds| && friendIds[i] in users && i !in failing
    ensures var at, all := |FoundBefore(friendIds, users, failing, i)|, Listed(friendIds, users, failing);
            && |all| == |FoundBefore(friendIds, users, failing, |friendIds|)| && at < |all|
            && all[at] == users[friendIds[i]].(back := users[friendIds[i]].name)
  {
    ListedSize(friendIds, users, failing);
    var n := |friendIds| - 1;
    ListedSize(friendIds[..n], users, failing);
    SameBefore(friendIds, users, failing, n, n);
    assert friendIds[..n + 1] == friendIds;
    ListedNext(friendIds, users, failing, n);
    if i < n {
      ListedAt(friendIds[..n], users, failing, i);
      SameBefore(friendIds, users, failing, n, i);
    }
  }

  lemma SameBefore(friendIds: seq<int>, users: map<int, UserInfo>, failing: set<nat>, n: nat, i: nat)
    requires i <= n <= |friendIds|
    ensures FoundBefore(friendIds[..n], users, failing, i) == FoundBefore(friendIds, users, failing, i)
  {
  }

  lemma FoundOneMore(friendIds: seq<int>, users: map<int, UserInfo>, failing: set<nat>, n: nat)
    requires n < |friendIds|
    ensures |FoundBefore(friendIds, users, failing, n + 1)| ==
            |FoundBefore(friendIds, users, failing, n)| + if Found(friendIds, users, failing, n) then 1 else 0
  {
    var all, front := FoundBefore(friendIds, users, failing, n + 1), FoundBefore(friendIds, users, failing, n);
    if Found(friendIds, users, failing, n) {
      assert all == front + {n};
    } else {
      assert all == front;
    }
  }

  lemma {:induction false} ListedSize(friendIds: seq<int>, users: map<int, UserInfo>, failing: set<nat>)
    ensures |Listed(friendIds, users, failing)| == |FoundBefore(friendIds, users, failing, |friendIds|)|
  {
    if friendIds != [] {
      var n := |friendIds| - 1;
      ListedSize(friendIds[..n], users, failing);
      SameBefore(friendIds, users, failing, n, n);
      FoundOneMore(friendIds, users, failing, n);
    }
  }

  /** The queue after its front was borrowed and returned. */
  function Turned(cs: seq<SqlConnection>): (r: seq<SqlConnection>)
    ensures |r| == |cs| && multiset(r) == multiset(cs)
  {
    if cs == [] then [] else
      assert cs == [cs[0]] + cs[1..];
      cs[1..] + [cs[0]]
  }

  /** Rows of the friend table that are looked up before statement number `throwsAt` throws: 0
      the query, k + 1 the step to row k; the step past the last row is one of them. */
  function RowsRead(rows: nat, throwsAt: nat): nat {
    if throwsAt == 0 then 0 else if throwsAt - 1 < rows then throwsAt - 1 else rows
  }

  /** When a lone GetFriendList call with that many rows goes to sleep for ever in the monitor of
      the pool: on an empty pool, or with a row to look up on a pool of one connection. It is when
      the method below answers `Asleep`. */
  lemma LoneCallSleeps(conns: seq<P.Conn>, rows: nat)
    requires forall i, j :: 0 <= i < j < |conns| ==> conns[i] != conns[j]
    ensures (exists s :: D.Reaches(P.Fresh(conns), [P.FriendList(rows)], s) && D.Deadlocked(s)) <==>
            conns == [] || (|conns| == 1 && rows > 0)
  {
    D.DeadlockExactly(conns, [P.FriendList(rows)]);
    assert [P.FriendList(rows)][1..] == [];
  }

  class MySQLDao {
    const pool: MySQLConnectPool

    constructor (p: MySQLConnectPool)
      ensures pool == p
    {
      pool := p;
    }

    /** GetUser: one borrow, given back on every path. `users` are the rows the query finds
        when it does not throw. */
    method GetUser(uid: int, users: map<int, UserInfo>, queryThrows: bool) returns (r: Outcome<Option<UserInfo>>)
      modifies pool
      ensures pool.isStop == old(pool.isStop)
      ensures pool.pool == if pool.isStop then old(pool.pool) else Turned(old(pool.pool))
      ensures r == if !pool.isStop && old(pool.pool) == [] then Asleep
                   else if !pool.isStop && !queryThrows && uid in users then Answer(Some(users[uid]))
                   else Answer(None)
    {
      var conn := pool.GetConnection();
      match conn {
        case Waits => return Asleep;
        case Refused => return Answer(None);
        case Lent(c) =>
          if queryThrows || uid !in users {
            r := Answer(None);
          } else {
            r := Answer(Some(users[uid]));
          }
          pool.ReturnConnection(c);
      }
    }

    /** GetFriendList with its out-parameter. The call's own connection stays out while a nested
        lookup per row borrows another; alone with a pool of one connection it sleeps at its
        first row and keeps that connection. A lookup in `failing` throws and is skipped, a
        throw of the result set ends the call with the profiles found so far. */
    method GetFriendList(friendIds: seq<int>, users: map<int, UserInfo>, failing: set<nat>, throwsAt: nat)
      returns (r: Outcome<bool>, list: seq<UserInfo>)
      modifies pool
      ensures pool.isStop == old(pool.isStop)
      ensures r.Asleep? <==>
              !pool.isStop && (old(pool.pool) == [] || (|old(pool.pool)| == 1 && friendIds != [] && throwsAt > 1))
      ensures r.Asleep? ==> pool.pool == [] && list == []
      ensures r.Answer? ==> multiset(pool.pool) == multiset(old(pool.pool))
      ensures r.Answer? ==> (r.value <==> !pool.isStop && throwsAt > |friendIds| + 1)
      ensures r.Answer? && pool.isStop ==> list == []
      ensures r.Answer? && !pool.isStop ==>
                && (throwsAt > |friendIds| ==> list == Listed(friendIds, users, failing))
                && (0 < throwsAt <= |friendIds| ==> list == Listed(friendIds[..throwsAt - 1], users, failing))
                && (throwsAt == 0 ==> list == [])
    {
      ghost var before := pool.pool;
      var conn := pool.GetConnection();
      match conn {
        case Waits => return Asleep, [];
        case Refused => return Answer(false), [];
        case Lent(c) =>
          ghost var rest := pool.pool;
          assert before == [c] + rest;
          var asleep;
          asleep, list := LookUpRows(friendIds, users, failing, throwsAt);
          if asleep {
            return Asleep, list;
          }
          assert friendIds[..|friendIds|] == friendIds;
          r := Answer(throwsAt > |friendIds| + 1);
          pool.ReturnConnection(c);
      }
    }

    /** The loop over the result set of GetFriendList. */
    method LookUpRows(friendIds: seq<int>, users: map<int, UserInfo>, failing: set<nat>, throwsAt: nat)
      returns (asleep: bool, list: seq<UserInfo>)
      requires !pool.isStop
      modifies pool
      ensures !pool.isStop && |pool.pool| == |old(pool.pool)| && multiset(pool.pool) == multiset(old(pool.pool))
      ensures asleep <==> old(pool.pool) == [] && RowsRead(|friendIds|, throwsAt) > 0
      ensures list == if asleep then [] else Listed(friendIds[..RowsRead(|friendIds|, throwsAt)], users, failing)
    {
      list := [];
      var k := 0;
      while throwsAt != 0 && k < |friendIds| && throwsAt != k + 1
        invariant 0 <= k <= RowsRead(|friendIds|, throwsAt) && !pool.isStop
        invariant |pool.pool| == |old(pool.pool)| && multiset(pool.pool) == multiset(old(pool.pool))
        invariant list == Listed(friendIds[..k], users, failing)
        invariant k > 0 ==> old(pool.pool) != []
      {
        ListedNext(friendIds, users, failing, k);
        var user := GetUser(friendIds[k], users, k in failing);
        if user.Asleep? {
          return true, list;
        }
        if user.value.Some? {
          list := list + [user.value.value.(back := user.value.value.name)];
        }
        k := k + 1;
      }
      asleep := false;
    }
  }
}
