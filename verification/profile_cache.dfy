/**
  The profile cache shared by look-ups by uid and look-ups by name (LogicSystem.cpp,
  GetBaseInfo and GetUserByName): both file their results in Redis under one key prefix
  followed by the text they were asked for.

  Handlers run on a thread pool, so a look-up is two events: a probe of the cache, and after a
  miss a query of the database whose result is filed. Any interleaving of them is a run.
*/
module ProfileCache {
  import opened Wrappers
  import opened RedisKeys

  datatype UserInfo = UserInfo(
    uid: int, pwd: string, name: string, email: string, nick: string, desc: string, sex: int, icon: string)

  /** The answers of the two queries of the user table, which does not change. */
  datatype UserTable = UserTable(byUid: map<int, UserInfo>, byName: map<string, UserInfo>)

  datatype Lookup = ByUid(uid: Int) | ByName(name: string)

  /** What asking MySQL directly answers. GetUser(int) fills in the uid it was asked for. */
  function Direct(db: UserTable, l: Lookup): Option<UserInfo> {
    match l
    case ByUid(u) => if u in db.byUid then Some(db.byUid[u].(uid := u)) else None
    case ByName(n) => if n in db.byName then Some(db.byName[n]) else None
  }

  const USER_BASE_INFO := "ubaseinfo_"

  /** The text that names a look-up in the cache. */
  function Subject(l: Lookup): string {
    match l
    case ByUid(u) => Text(u)
    case ByName(n) => n
  }

  function Key(l: Lookup): string {
    USER_BASE_INFO + Subject(l)
  }

  lemma KeyIsSubject(a: Lookup, b: Lookup)
    ensures Key(a) == Key(b) <==> Subject(a) == Subject(b)
  {
    if Key(a) == Key(b) {
      PrefixCancel(USER_BASE_INFO, Subject(a), Subject(b));
    }
  }

  type Cache = map<string, UserInfo>

  // ---------------------------------------------------------------- runs

  /** `missed`: look-ups that have probed in vain and not yet queried the database. */
  datatype State = State(cache: Cache, missed: multiset<Lookup>)

  const EMPTY := State(map[], multiset{})

  datatype Event = Probe(l: Lookup) | Fill(l: Lookup)

  predicate Enabled(s: State, e: Event) {
    e.Fill? ==> e.l in s.missed
  }

  function Apply(s: State, db: UserTable, e: Event): State {
    match e
    case Probe(l) => if Key(l) in s.cache then s else s.(missed := s.missed + multiset{l})
    case Fill(l) =>
      State(if Direct(db, l).Some? then s.cache[Key(l) := Direct(db, l).value] else s.cache,
            s.missed - multiset{l})
  }

  predicate Runs(s: State, db: UserTable, es: seq<Event>)
    decreases |es|
  {
    es == [] || (Enabled(s, es[0]) && Runs(Apply(s, db, es[0]), db, es[1..]))
  }

  function After(s: State, db: UserTable, es: seq<Event>): State
    decreases |es|
  {
    if es == [] then s else After(Apply(s, db, es[0]), db, es[1..])
  }

  /** A hit hands out what the database would have answered. */
  predicate RightAnswer(cache: Cache, db: UserTable, e: Event) {
    e.Probe? && Key(e.l) in cache ==> Direct(db, e.l) == Some(cache[Key(e.l)])
  }

  predicate AllRight(s: State, db: UserTable, es: seq<Event>)
    decreases |es|
  {
    es == [] || (RightAnswer(s.cache, db, es[0]) && AllRight(Apply(s, db, es[0]), db, es[1..]))
  }

  /** Only uids in `us` and names in `ns` are looked up. */
  predicate Asked(l: Lookup, us: set<Int>, ns: set<string>) {
    match l
    case ByUid(u) => u in us
    case ByName(n) => n in ns
  }

  ghost predicate OnlyAsked(es: seq<Event>, us: set<Int>, ns: set<string>) {
    forall i :: 0 <= i < |es| ==> Asked(es[i].l, us, ns)
  }

  // ---------------------------------------------------------------- the exact condition

  /** A name searched for that is also the text of a uid looked up belongs to that user, and
      is nobody's name if there is no such user. */
  ghost predicate NamesMeetUids(db: UserTable, us: set<Int>, ns: set<string>) {
    forall u :: u in us && Text(u) in ns ==> Direct(db, ByUid(u)) == Direct(db, ByName(Text(u)))
  }

  /** Look-ups that share a key have the same answer. */
  lemma SharedKeySameAnswer(db: UserTable, us: set<Int>, ns: set<string>, a: Lookup, b: Lookup)
    requires NamesMeetUids(db, us, ns) && Asked(a, us, ns) && Asked(b, us, ns) && Key(a) == Key(b)
    ensures Direct(db, a) == Direct(db, b)
  {
    KeyIsSubject(a, b);
    match (a, b)
    case (ByUid(u), ByUid(v)) => TextInjective(u, v);
    case (ByUid(u), ByName(n)) =>
    case (ByName(n), ByUid(u)) =>
    case (ByName(m), ByName(n)) =>
  }

  /** Every entry is the direct answer to some look-up filed under its key. */
  ghost predicate Sound(cache: Cache, db: UserTable, us: set<Int>, ns: set<string>) {
    forall k :: k in cache ==>
      exists l :: Asked(l, us, ns) && Key(l) == k && Direct(db, l) == Some(cache[k])
  }

  lemma FillKeepsSound(s: State, db: UserTable, us: set<Int>, ns: set<string>, e: Event)
    requires Sound(s.cache, db, us, ns) && Asked(e.l, us, ns)
    ensures Sound(Apply(s, db, e).cache, db, us, ns)
  {
    var cache, cache' := s.cache, Apply(s, db, e).cache;
    forall k | k in cache'
      ensures exists l :: Asked(l, us, ns) && Key(l) == k && Direct(db, l) == Some(cache'[k])
    {
      if e.Fill? && k == Key(e.l) && Direct(db, e.l).Some? {
        assert Asked(e.l, us, ns) && Key(e.l) == k;
      } else {
        var l :| Asked(l, us, ns) && Key(l) == k && Direct(db, l) == Some(cache[k]);
        assert Asked(l, us, ns) && Key(l) == k && Direct(db, l) == Some(cache'[k]);
      }
    }
  }

  lemma {:induction false} SoundRunIsRight(s: State, db: UserTable, us: set<Int>, ns: set<string>, es: seq<Event>)
    requires NamesMeetUids(db, us, ns) && Sound(s.cache, db, us, ns) && OnlyAsked(es, us, ns) && Runs(s, db, es)
    ensures AllRight(s, db, es)
    decreases |es|
  {
    if es != [] {
      var e := es[0];
      if e.Probe? && Key(e.l) in s.cache {
        var l :| Asked(l, us, ns) && Key(l) == Key(e.l) && Direct(db, l) == Some(s.cache[Key(e.l)]);
        SharedKeySameAnswer(db, us, ns, l, e.l);
      }
      FillKeepsSound(s, db, us, ns, e);
      assert OnlyAsked(es[1..], us, ns) by {
        assert forall i :: 0 <= i < |es[1..]| ==> es[1..][i] == es[i + 1];
      }
      SoundRunIsRight(Apply(s, db, e), db, us, ns, es[1..]);
    }
  }

  /** Two look-ups, one after the other, of which the second is answered wrongly when a name and
      a uid disagree. */
  lemma DisagreementShows(db: UserTable, u: Int) returns (es: seq<Event>)
    requires Direct(db, ByUid(u)) != Direct(db, ByName(Text(u)))
    ensures Runs(EMPTY, db, es) && !AllRight(EMPTY, db, es)
    ensures |es| == 3 && forall i :: 0 <= i < 3 ==> es[i].l == ByUid(u) || es[i].l == ByName(Text(u))
  {
    var a, b := ByUid(u), ByName(Text(u));
    var x, y := if Direct(db, a).Some? then a else b, if Direct(db, a).Some? then b else a;
    es := [Probe(x), Fill(x), Probe(y)];
    var s1 := Apply(EMPTY, db, Probe(x));
    var s2 := Apply(s1, db, Fill(x));
    assert es[1..] == [Fill(x), Probe(y)] && es[1..][1..] == [Probe(y)] && [Probe(y)][1..] == [];
    assert Runs(s2, db, [Probe(y)]) && Runs(s1, db, es[1..]);
    assert Key(x) == Key(y);
    assert !RightAnswer(s2.cache, db, Probe(y));
    assert !AllRight(s2, db, [Probe(y)]) && !AllRight(s1, db, es[1..]);
  }

  /** For any look-ups by uid in `us` and by name in `ns`, interleaved in any way from an empty
      cache: all answers are those of the database if and only if names meet uids. */
  lemma CacheIsTransparentExactly(db: UserTable, us: set<Int>, ns: set<string>)
    ensures (forall es :: Runs(EMPTY, db, es) && OnlyAsked(es, us, ns) ==> AllRight(EMPTY, db, es)) <==>
            NamesMeetUids(db, us, ns)
  {
    if NamesMeetUids(db, us, ns) {
      forall es | Runs(EMPTY, db, es) && OnlyAsked(es, us, ns) ensures AllRight(EMPTY, db, es) {
        SoundRunIsRight(EMPTY, db, us, ns, es);
      }
    } else {
      var u :| u in us && Text(u) in ns && Direct(db, ByUid(u)) != Direct(db, ByName(Text(u)));
      var es := DisagreementShows(db, u);
      assert OnlyAsked(es, us, ns);
    }
  }

  // ---------------------------------------------------------------- imperative form

  /** The events of one look-up that nobody interleaves with. */
  function LookupEvents(cache: Cache, l: Lookup): seq<Event> {
    if Key(l) in cache then [Probe(l)] else [Probe(l), Fill(l)]
  }

  lemma LookupRuns(cache: Cache, db: UserTable, l: Lookup)
    ensures var s := State(cache, multiset{});
            Runs(s, db, LookupEvents(cache, l)) && After(s, db, LookupEvents(cache, l)) ==
            State(if Key(l) !in cache && Direct(db, l).Some? then cache[Key(l) := Direct(db, l).value] else cache, multiset{})
  {
    var s, es := State(cache, multiset{}), LookupEvents(cache, l);
    var s1 := Apply(s, db, Probe(l));
    if Key(l) in cache {
      assert es[1..] == [];
    } else {
      assert es[1..] == [Fill(l)] && es[1..][1..] == [];
      assert Runs(s1, db, [Fill(l)]);
      assert After(s1, db, [Fill(l)]) == After(Apply(s1, db, Fill(l)), db, []);
    }
  }

  class ProfileReader {
    const db: UserTable
    var cache: Cache

    constructor (table: UserTable)
      ensures db == table && cache == map[]
    {
      db, cache := table, map[];
    }

    /** The direct answer, or the one found in the cache. */
    ghost function Answer(l: Lookup): Option<UserInfo>
      reads this
    {
      if Key(l) in cache then Some(cache[Key(l)]) else Direct(db, l)
    }

    method GetBaseInfo(uid: Int) returns (info: Option<UserInfo>)
      modifies this
      ensures info == old(Answer(ByUid(uid)))
      ensures var key := "ubaseinfo_" + Text(uid);
              if key in old(cache) then info == Some(old(cache)[key]) && cache == old(cache)
              else if uid in db.byUid then
                && info.Some? && info.value == db.byUid[uid].(uid := uid)
                && cache == old(cache)[key := info.value]
              else info.None? && cache == old(cache)
      ensures var s := State(old(cache), multiset{});
              var es := LookupEvents(old(cache), ByUid(uid));
              Runs(s, db, es) && After(s, db, es) == State(cache, multiset{})
    {
      LookupRuns(cache, db, ByUid(uid));
      var baseKey := USER_BASE_INFO + Text(uid);
      if baseKey in cache {
        return Some(cache[baseKey]);
      }
      if uid !in db.byUid {
        return None;
      }
      var user := db.byUid[uid].(uid := uid);
      cache := cache[baseKey := user];
      info := Some(user);
    }

    method GetUserByName(name: string) returns (info: Option<UserInfo>)
      modifies this
      ensures info == old(Answer(ByName(name)))
      ensures var key := "ubaseinfo_" + name;
              if key in old(cache) then info == Some(old(cache)[key]) && cache == old(cache)
              else if name in db.byName then
                info == Some(db.byName[name]) && cache == old(cache)[key := db.byName[name]]
              else info.None? && cache == old(cache)
      ensures var s := State(old(cache), multiset{});
              var es := LookupEvents(old(cache), ByName(name));
              Runs(s, db, es) && After(s, db, es) == State(cache, multiset{})
    {
      LookupRuns(cache, db, ByName(name));
      var baseKey := USER_BASE_INFO + name;
      if baseKey in cache {
        return Some(cache[baseKey]);
      }
      if name !in db.byName {
        return None;
      }
      cache := cache[baseKey := db.byName[name]];
      info := Some(db.byName[name]);
    }
  }
}
