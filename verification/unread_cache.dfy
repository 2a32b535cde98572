/**
  The unread cache in Redis (ChatCacheManager.cpp): per pair of users a list of unread message
  ids and, in another key, a counter kept as text; per message a hash of details.

  One key space holds all values, so that the families of keys do not get in each other's way
  is used in the proofs. `hget` is modelled as RedisManager.cpp has it: on a missing field it
  answers true and leaves the out-parameter as it was.
*/
module UnreadCache {
  import opened Wrappers
  import opened RedisKeys

  datatype Value = Hash(fields: map<string, string>) | List(items: seq<string>) | Zset(scores: map<string, string>)

  type Store = map<string, Value>

  // ---------------------------------------------------------------- commands

  predicate Hashable(st: Store, k: string) {
    k in st ==> st[k].Hash?
  }

  predicate Listable(st: Store, k: string) {
    k in st ==> st[k].List?
  }

  predicate Zsettable(st: Store, k: string) {
    k in st ==> st[k].Zset?
  }

  function Fields(st: Store, k: string): map<string, string> {
    if k in st && st[k].Hash? then st[k].fields else map[]
  }

  function Items(st: Store, k: string): seq<string> {
    if k in st && st[k].List? then st[k].items else []
  }

  /** A command against a key of another type is an error and changes nothing. */
  function Hset(st: Store, k: string, f: string, v: string): Store {
    if Hashable(st, k) then st[k := Hash(Fields(st, k)[f := v])] else st
  }

  function Rpush(st: Store, k: string, v: string): Store {
    if Listable(st, k) then st[k := List(Items(st, k) + [v])] else st
  }

  function Zadd(st: Store, k: string, score: string, m: string): Store {
    if k in st && !st[k].Zset? then st
    else st[k := Zset((if k in st then st[k].scores else map[])[m := score])]
  }

  function Del(st: Store, k: string): Store {
    st - {k}
  }

  /** RedisManager::hget: the out-parameter afterwards, given what it held before. */
  function Hget(st: Store, k: string, f: string, value: string): string {
    if f in Fields(st, k) then Fields(st, k)[f] else value
  }

  // ---------------------------------------------------------------- CacheNewMessage

  /** A message to cache, with the two readings of the clock: for its details, and for its score
      in the sorted sets. */
  datatype Entry = Entry(
    fromUid: Int, toUid: Int, msgId: string, content: string, msgType: Int, time: Long, filed: Long)

  function DetailFields(e: Entry): seq<(string, string)> {
    [("from_uid", Text(e.fromUid)), ("to_uid", Text(e.toUid)), ("content", e.content),
     ("msg_type", Text(e.msgType)), ("timestamp", Text(e.time)), ("status", "0")]
  }

  /** The first `n` hset commands of the detail phase. */
  function WriteDetails(st: Store, e: Entry, n: nat): Store
    requires n <= 6
  {
    if n == 0 then st
    else
      var f := DetailFields(e)[n - 1];
      Hset(WriteDetails(st, e, n - 1), MessageKey(e.msgId), f.0, f.1)
  }

  /** The counter text written for one more message. */
  function NextCount(current: string): string {
    match Stoi(current)
    case None => Text(1)
    case Some(n) => if n + 1 < 1 then Text(1) else Text(n + 1)
  }

  /** CacheNewMessage; hset number `failsAt` of the detail phase fails, 6 or more for none. */
  function Cached(st: Store, e: Entry, failsAt: nat): Store {
    if failsAt < 6 then WriteDetails(st, e, failsAt)
    else
      var s1 := WriteDetails(st, e, 6);
      var s2 := Zadd(s1, UserMessagesKey(e.fromUid), Text(e.filed), e.msgId);
      var s3 := Zadd(s2, UserMessagesKey(e.toUid), Text(e.filed), e.msgId);
      var s4 := Rpush(s3, UnreadKey(e.toUid, e.fromUid), e.msgId);
      var current := Hget(s4, ChatRelationKey(e.toUid), Text(e.fromUid), "");
      Hset(s4, ChatRelationKey(e.toUid), Text(e.fromUid), NextCount(current))
  }

  function Marked(st: Store, uid: Int, peer: Int): Store {
    Hset(Del(st, UnreadKey(uid, peer)), ChatRelationKey(uid), Text(peer), "0")
  }

  // ---------------------------------------------------------------- runs

  datatype Op =
    | Cache(e: Entry, failsAt: nat)
    | MarkRead(uid: Int, peer: Int)
    | Expire(msgId: string)          // the seven days of a detail hash are over

  function Apply(st: Store, op: Op): Store {
    match op
    case Cache(e, failsAt) => Cached(st, e, failsAt)
    case MarkRead(uid, peer) => Marked(st, uid, peer)
    case Expire(id) => Del(st, MessageKey(id))
  }

  function After(ops: seq<Op>): Store {
    if ops == [] then map[] else Apply(After(ops[..|ops| - 1]), ops[|ops| - 1])
  }

  /** The unread ids of a pair after one more operation. */
  function NextIds(ids: seq<string>, op: Op, to: Int, from: Int): seq<string> {
    match op
    case Cache(e, failsAt) =>
      if failsAt >= 6 && e.toUid == to && e.fromUid == from then ids + [e.msgId] else ids
    case MarkRead(uid, peer) => if uid == to && peer == from then [] else ids
    case Expire(_) => ids
  }

  /** The ids cached for a pair since the last mark-read, in order. */
  function UnreadIds(ops: seq<Op>, to: Int, from: Int): seq<string> {
    if ops == [] then [] else NextIds(UnreadIds(ops[..|ops| - 1], to, from), ops[|ops| - 1], to, from)
  }

  // ---------------------------------------------------------------- key families stay apart

  /** Every key of a family holds values of the family's type. */
  ghost predicate Typed(st: Store) {
    && (forall id :: Hashable(st, MessageKey(id)))
    && (forall u :: Hashable(st, ChatRelationKey(u)))
    && (forall a, b :: Listable(st, UnreadKey(a, b)))
    && (forall u :: Zsettable(st, UserMessagesKey(u)))
  }

  /** What the two users see of a store. */
  function ListOf(st: Store, to: int, from: int): seq<string> {
    Items(st, UnreadKey(to, from))
  }

  function CounterOf(st: Store, to: int, from: int): Option<string> {
    var fs := Fields(st, ChatRelationKey(to));
    if Text(from) in fs then Some(fs[Text(from)]) else None
  }

  predicate SameView(s: Store, t: Store, to: int, from: int) {
    ListOf(s, to, from) == ListOf(t, to, from) && CounterOf(s, to, from) == CounterOf(t, to, from)
  }

  /** Touching a message key or a sorted-set key. */
  lemma OutsideKeepsView(st: Store, t: Store, k: string, to: int, from: int)
    requires forall x :: x != k ==> (x in t <==> x in st) && (x in st ==> t[x] == st[x])
    requires k != UnreadKey(to, from) && k != ChatRelationKey(to)
    ensures SameView(st, t, to, from)
  {
  }

  lemma DetailsKeepView(st: Store, e: Entry, n: nat, to: int, from: int)
    requires n <= 6
    ensures SameView(st, WriteDetails(st, e, n), to, from)
  {
    if n > 0 {
      DetailsKeepView(st, e, n - 1, to, from);
      KeyFamiliesDisjoint(e.msgId, to, from, to, from);
      OutsideKeepsView(WriteDetails(st, e, n - 1), WriteDetails(st, e, n), MessageKey(e.msgId), to, from);
    }
  }

  lemma ZaddKeepsView(st: Store, uid: int, score: string, m: string, to: int, from: int)
    ensures SameView(st, Zadd(st, UserMessagesKey(uid), score, m), to, from)
  {
    KeyFamiliesDisjoint(m, to, from, uid, from);
    KeyFamiliesDisjoint(m, to, from, to, from);
    OutsideKeepsView(st, Zadd(st, UserMessagesKey(uid), score, m), UserMessagesKey(uid), to, from);
  }

  /** A store changed at one key, whose value still fits every family the key belongs to. */
  lemma ChangeKeepsTyped(st: Store, t: Store, k: string)
    requires Typed(st) && forall x :: x != k ==> (x in t <==> x in st) && (x in st ==> t[x] == st[x])
    requires forall id :: MessageKey(id) == k ==> Hashable(t, k)
    requires forall u :: ChatRelationKey(u) == k ==> Hashable(t, k)
    requires forall a, b :: UnreadKey(a, b) == k ==> Listable(t, k)
    requires forall u :: UserMessagesKey(u) == k ==> Zsettable(t, k)
    ensures Typed(t)
  {
    forall id ensures Hashable(t, MessageKey(id)) {
      assert Hashable(st, MessageKey(id));
    }
    forall u ensures Hashable(t, ChatRelationKey(u)) {
      assert Hashable(st, ChatRelationKey(u));
    }
    forall a, b ensures Listable(t, UnreadKey(a, b)) {
      assert Listable(st, UnreadKey(a, b));
    }
    forall u ensures Zsettable(t, UserMessagesKey(u)) {
      assert Zsettable(st, UserMessagesKey(u));
    }
  }

  /** A key of one of the two families of hashes. */
  ghost predicate HashKey(k: string) {
    (forall a, b :: k != UnreadKey(a, b)) && (forall u :: k != UserMessagesKey(u))
  }

  lemma HsetKeepsTyped(st: Store, k: string, f: string, v: string)
    requires Typed(st) && HashKey(k)
    ensures Typed(Hset(st, k, f, v))
  {
    ChangeKeepsTyped(st, Hset(st, k, f, v), k);
  }

  lemma MessageKeyIsHash(id: string)
    ensures HashKey(MessageKey(id))
  {
    forall a, b ensures MessageKey(id) != UnreadKey(a, b) {
      KeyFamiliesDisjoint(id, a, b, a, b);
    }
    forall u ensures MessageKey(id) != UserMessagesKey(u) {
      KeyFamiliesDisjoint(id, u, u, u, u);
    }
  }

  lemma RelationKeyIsHash(uid: int)
    ensures HashKey(ChatRelationKey(uid))
  {
    forall a, b ensures ChatRelationKey(uid) != UnreadKey(a, b) {
      KeyFamiliesDisjoint("", uid, uid, a, b);
    }
    forall u ensures ChatRelationKey(uid) != UserMessagesKey(u) {
      KeyFamiliesDisjoint("", uid, uid, u, u);
    }
  }

  lemma DetailsKeepTyped(st: Store, e: Entry, n: nat)
    requires n <= 6 && Typed(st)
    ensures Typed(WriteDetails(st, e, n))
  {
    if n > 0 {
      DetailsKeepTyped(st, e, n - 1);
      MessageKeyIsHash(e.msgId);
      var f := DetailFields(e)[n - 1];
      HsetKeepsTyped(WriteDetails(st, e, n - 1), MessageKey(e.msgId), f.0, f.1);
    }
  }

  lemma ZaddKeepsTyped(st: Store, uid: int, score: string, m: string)
    requires Typed(st)
    ensures Typed(Zadd(st, UserMessagesKey(uid), score, m))
  {
    var k := UserMessagesKey(uid);
    forall id ensures MessageKey(id) != k { KeyFamiliesDisjoint(id, uid, uid, uid, uid); }
    forall u ensures ChatRelationKey(u) != k { KeyFamiliesDisjoint(m, u, u, uid, uid); }
    forall a, b ensures UnreadKey(a, b) != k { KeyFamiliesDisjoint(m, a, b, uid, uid); }
    ChangeKeepsTyped(st, Zadd(st, k, score, m), k);
  }

  lemma RpushKeepsTyped(st: Store, to: int, from: int, v: string)
    requires Typed(st)
    ensures Typed(Rpush(st, UnreadKey(to, from), v))
  {
    var k := UnreadKey(to, from);
    forall id ensures MessageKey(id) != k { KeyFamiliesDisjoint(id, to, from, to, from); }
    forall u ensures ChatRelationKey(u) != k { KeyFamiliesDisjoint(v, u, u, to, from); }
    forall u ensures UserMessagesKey(u) != k { KeyFamiliesDisjoint(v, to, from, u, u); }
    ChangeKeepsTyped(st, Rpush(st, k, v), k);
  }

  lemma DelKeepsTyped(st: Store, k: string)
    requires Typed(st)
    ensures Typed(Del(st, k))
  {
    ChangeKeepsTyped(st, Del(st, k), k);
  }

  lemma ApplyKeepsTyped(st: Store, op: Op)
    requires Typed(st)
    ensures Typed(Apply(st, op))
  {
    match op
    case Cache(e, failsAt) =>
      DetailsKeepTyped(st, e, if failsAt < 6 then failsAt else 6);
      if failsAt >= 6 {
        var s1 := WriteDetails(st, e, 6);
        var s2 := Zadd(s1, UserMessagesKey(e.fromUid), Text(e.filed), e.msgId);
        var s3 := Zadd(s2, UserMessagesKey(e.toUid), Text(e.filed), e.msgId);
        var s4 := Rpush(s3, UnreadKey(e.toUid, e.fromUid), e.msgId);
        ZaddKeepsTyped(s1, e.fromUid, Text(e.filed), e.msgId);
        ZaddKeepsTyped(s2, e.toUid, Text(e.filed), e.msgId);
        RpushKeepsTyped(s3, e.toUid, e.fromUid, e.msgId);
        RelationKeyIsHash(e.toUid);
        HsetKeepsTyped(s4, ChatRelationKey(e.toUid), Text(e.fromUid),
                       NextCount(Hget(s4, ChatRelationKey(e.toUid), Text(e.fromUid), "")));
      }
    case MarkRead(uid, peer) =>
      RelationKeyIsHash(uid);
      DelKeepsTyped(st, UnreadKey(uid, peer));
      HsetKeepsTyped(Del(st, UnreadKey(uid, peer)), ChatRelationKey(uid), Text(peer), "0");
    case Expire(id) => DelKeepsTyped(st, MessageKey(id));
  }

  lemma {:induction false} AfterTyped(ops: seq<Op>)
    ensures Typed(After(ops))
  {
    if ops != [] {
      AfterTyped(ops[..|ops| - 1]);
      ApplyKeepsTyped(After(ops[..|ops| - 1]), ops[|ops| - 1]);
    }
  }

  // ---------------------------------------------------------------- list and counter

  /** A push and a counter update for (to, from), seen by the pair (a, b). */
  lemma PushView(st: Store, to: int, from: int, m: string, a: int, b: int)
    requires Typed(st)
    ensures var t := Rpush(st, UnreadKey(to, from), m);
            && ListOf(t, a, b) == ListOf(st, a, b) + (if a == to && b == from then [m] else [])
            && CounterOf(t, a, b) == CounterOf(st, a, b)
  {
    KeysInjective(m, m, to, from, a, b);
    KeyFamiliesDisjoint(m, a, b, to, from);
  }

  lemma CountView(st: Store, to: int, from: int, v: string, a: int, b: int)
    requires Typed(st)
    ensures var t := Hset(st, ChatRelationKey(to), Text(from), v);
            && ListOf(t, a, b) == ListOf(st, a, b)
            && CounterOf(t, a, b) == if a == to && b == from then Some(v) else CounterOf(st, a, b)
  {
    KeysInjective(v, v, to, from, a, b);
    KeyFamiliesDisjoint(v, to, from, a, b);
    if Text(from) == Text(b) {
      TextInjective(from, b);
    }
  }

  lemma CachedView(st: Store, e: Entry, a: int, b: int)
    requires Typed(st)
    ensures var t := Cached(st, e, 6);
            var mine := a == e.toUid && b == e.fromUid;
            && ListOf(t, a, b) == ListOf(st, a, b) + (if mine then [e.msgId] else [])
            && CounterOf(t, a, b) ==
               if mine then Some(NextCount(if CounterOf(st, a, b).Some? then CounterOf(st, a, b).value else ""))
               else CounterOf(st, a, b)
  {
    var s1 := WriteDetails(st, e, 6);
    var s2 := Zadd(s1, UserMessagesKey(e.fromUid), Text(e.filed), e.msgId);
    var s3 := Zadd(s2, UserMessagesKey(e.toUid), Text(e.filed), e.msgId);
    var s4 := Rpush(s3, UnreadKey(e.toUid, e.fromUid), e.msgId);
    DetailsKeepView(st, e, 6, a, b);
    DetailsKeepTyped(st, e, 6);
    ZaddKeepsView(s1, e.fromUid, Text(e.filed), e.msgId, a, b);
    ZaddKeepsTyped(s1, e.fromUid, Text(e.filed), e.msgId);
    ZaddKeepsView(s2, e.toUid, Text(e.filed), e.msgId, a, b);
    ZaddKeepsTyped(s2, e.toUid, Text(e.filed), e.msgId);
    PushView(s3, e.toUid, e.fromUid, e.msgId, a, b);
    RpushKeepsTyped(s3, e.toUid, e.fromUid, e.msgId);
    var current := Hget(s4, ChatRelationKey(e.toUid), Text(e.fromUid), "");
    CountView(s4, e.toUid, e.fromUid, NextCount(current), a, b);
  }

  lemma MarkedView(st: Store, uid: Int, peer: Int, a: int, b: int)
    requires Typed(st)
    ensures var t := Marked(st, uid, peer);
            var mine := a == uid && b == peer;
            && ListOf(t, a, b) == (if mine then [] else ListOf(st, a, b))
            && CounterOf(t, a, b) == (if mine then Some("0") else CounterOf(st, a, b))
  {
    var d := Del(st, UnreadKey(uid, peer));
    DelKeepsTyped(st, UnreadKey(uid, peer));
    KeysInjective("", "", uid, peer, a, b);
    KeyFamiliesDisjoint("", a, b, uid, peer);
    CountView(d, uid, peer, "0", a, b);
  }

  /** Counter text `c` stands for `n`; a counter that was never written stands for none. */
  ghost predicate Counts(c: Option<string>, n: nat) {
    if c.None? then n == 0 else Stoi(c.value) == Some(n)
  }

  lemma NextCountCounts(c: Option<string>, n: nat)
    requires Counts(c, n) && n < INT_MAX
    ensures Stoi(NextCount(if c.Some? then c.value else "")) == Some(n + 1)
  {
    StoiText(n + 1);
    StoiText(1);
  }

  lemma ZeroText()
    ensures Stoi("0") == Some(0)
  {
    assert Text(0) == "0";
    StoiText(0);
  }

  /** List and counter of a pair both stand for `ids`. */
  ghost predicate Agrees(st: Store, to: Int, from: Int, ids: seq<string>) {
    ListOf(st, to, from) == ids && Counts(CounterOf(st, to, from), |ids|)
  }

  /** A store whose view of the pair has one more message. */
  lemma PushedAgrees(st: Store, t: Store, to: Int, from: Int, ids: seq<string>, id: string)
    requires Agrees(st, to, from, ids) && |ids| < INT_MAX
    requires ListOf(t, to, from) == ListOf(st, to, from) + [id]
    requires CounterOf(t, to, from) ==
             Some(NextCount(if CounterOf(st, to, from).Some? then CounterOf(st, to, from).value else ""))
    ensures Agrees(t, to, from, ids + [id])
  {
    NextCountCounts(CounterOf(st, to, from), |ids|);
  }

  lemma CachedAgrees(st: Store, e: Entry, to: Int, from: Int, ids: seq<string>)
    requires Typed(st) && Agrees(st, to, from, ids)
    requires e.toUid == to && e.fromUid == from ==> |ids| < INT_MAX
    ensures Agrees(Cached(st, e, 6), to, from, if e.toUid == to && e.fromUid == from then ids + [e.msgId] else ids)
  {
    CachedView(st, e, to, from);
    if e.toUid == to && e.fromUid == from {
      PushedAgrees(st, Cached(st, e, 6), to, from, ids, e.msgId);
    } else {
      assert ids + [] == ids;
    }
  }

  lemma MarkedAgrees(st: Store, uid: Int, peer: Int, to: Int, from: Int, ids: seq<string>)
    requires Typed(st) && Agrees(st, to, from, ids)
    ensures Agrees(Marked(st, uid, peer), to, from, if uid == to && peer == from then [] else ids)
  {
    MarkedView(st, uid, peer, to, from);
    ZeroText();
  }

  lemma ApplyAgrees(st: Store, op: Op, to: Int, from: Int, ids: seq<string>)
    requires Typed(st) && Agrees(st, to, from, ids) && |NextIds(ids, op, to, from)| <= INT_MAX
    ensures Agrees(Apply(st, op), to, from, NextIds(ids, op, to, from))
  {
    match op
    case Cache(e, failsAt) =>
      if failsAt >= 6 {
        assert Cached(st, e, failsAt) == Cached(st, e, 6);
        CachedAgrees(st, e, to, from, ids);
      } else {
        DetailsKeepView(st, e, failsAt, to, from);
      }
    case MarkRead(uid, peer) => MarkedAgrees(st, uid, peer, to, from, ids);
    case Expire(id) =>
      KeyFamiliesDisjoint(id, to, from, to, from);
      OutsideKeepsView(st, Del(st, MessageKey(id)), MessageKey(id), to, from);
  }

  /** The unread messages of a pair never outnumber the ints. */
  ghost predicate InRange(ops: seq<Op>, to: Int, from: Int) {
    forall n :: 0 <= n <= |ops| ==> |UnreadIds(ops[..n], to, from)| <= INT_MAX
  }

  ghost predicate CountsInRange(ops: seq<Op>, uid: Int) {
    forall from: Int :: InRange(ops, uid, from)
  }

  /** Over every run, as long as the pair's count stays in int range: its unread list is exactly
      the ids cached for it since its last mark-read, in arrival order, and the counter kept
      in another key says how many they are. */
  lemma {:induction false} ListAndCounterAgree(ops: seq<Op>, to: Int, from: Int)
    requires InRange(ops, to, from)
    ensures ListOf(After(ops), to, from) == UnreadIds(ops, to, from)
    ensures Counts(CounterOf(After(ops), to, from), |UnreadIds(ops, to, from)|)
  {
    if ops != [] {
      var before := ops[..|ops| - 1];
      forall n | 0 <= n <= |before| ensures |UnreadIds(before[..n], to, from)| <= INT_MAX {
        assert before[..n] == ops[..n];
      }
      ListAndCounterAgree(before, to, from);
      AfterTyped(before);
      assert ops[..|ops|] == ops;
      ApplyAgrees(After(before), ops[|ops| - 1], to, from, UnreadIds(before, to, from));
    }
  }

  // ---------------------------------------------------------------- reading a message back

  datatype ChatMessage = ChatMessage(
    msgId: string, fromUid: int, toUid: int, content: string, msgType: int, sendTime: int, status: int)

  /** One message of GetUnreadMessages: six hget calls into the same variable. None: one of
      the conversions throws. */
  function Build(st: Store, id: string): Option<ChatMessage> {
    var k := MessageKey(id);
    var v1 := Hget(st, k, "from_uid", "");
    var v2 := Hget(st, k, "to_uid", v1);
    var v3 := Hget(st, k, "content", v2);
    var v4 := Hget(st, k, "msg_type", v3);
    var v5 := Hget(st, k, "timestamp", v4);
    var v6 := Hget(st, k, "status", v5);
    if Stoi(v1).None? || Stoi(v2).None? || Stoi(v4).None? || Stol(v5).None? || Stoi(v6).None? then None
    else Some(ChatMessage(id, Stoi(v1).value, Stoi(v2).value, v3, Stoi(v4).value, Stol(v5).value, Stoi(v6).value))
  }

  function Builds(st: Store, ids: seq<string>): (r: seq<Option<ChatMessage>>)
    ensures |r| == |ids|
    ensures forall i :: 0 <= i < |ids| ==> r[i] == Build(st, ids[i])
  {
    seq(|ids|, i requires 0 <= i < |ids| => Build(st, ids[i]))
  }

  /** The values in front of the first failure. */
  function Values<T>(xs: seq<Option<T>>): seq<T> {
    if xs == [] || xs[0].None? then [] else [xs[0].value] + Values(xs[1..])
  }

  /** The messages pushed before the first conversion that throws. */
  function BuildAll(st: Store, ids: seq<string>): seq<ChatMessage> {
    Values(Builds(st, ids))
  }

  lemma ReadOne<T>(xs: seq<Option<T>>, i: nat, seen: seq<T>)
    requires i < |xs| && seen + Values(xs[i..]) == Values(xs)
    ensures xs[i].None? ==> seen == Values(xs)
    ensures xs[i].Some? ==> seen + [xs[i].value] + Values(xs[i + 1..]) == Values(xs)
  {
    assert xs[i..][1..] == xs[i + 1..];
  }

  lemma BuildKeepsId(st: Store, id: string)
    ensures Build(st, id).Some? ==> Build(st, id).value.msgId == id
  {
  }

  /** What one peer contributes. */
  function PeerMessages(st: Store, uid: int, peer: string): seq<ChatMessage> {
    var count := Stoi(Hget(st, ChatRelationKey(uid), peer, ""));
    if count.None? || count.value <= 0 || Stoi(peer).None? then []
    else BuildAll(st, Items(st, UnreadKey(uid, Stoi(peer).value)))
  }

  /** GetUnreadMessages, with the peers in the order HKEYS lists them. */
  function Gathered(st: Store, uid: int, peers: seq<string>): seq<ChatMessage> {
    if peers == [] then []
    else Gathered(st, uid, peers[..|peers| - 1]) + PeerMessages(st, uid, peers[|peers| - 1])
  }

  function MessageOf(e: Entry): ChatMessage {
    ChatMessage(e.msgId, e.fromUid, e.toUid, e.content, e.msgType, e.time, 0)
  }

  /** The six fields hold what was written to them. */
  predicate Holds(fs: map<string, string>, e: Entry) {
    && "from_uid" in fs && fs["from_uid"] == Text(e.fromUid)
    && "to_uid" in fs && fs["to_uid"] == Text(e.toUid)
    && "content" in fs && fs["content"] == e.content
    && "msg_type" in fs && fs["msg_type"] == Text(e.msgType)
    && "timestamp" in fs && fs["timestamp"] == Text(e.time)
    && "status" in fs && fs["status"] == "0"
  }

  lemma SixUpdates(fs: map<string, string>, e: Entry)
    ensures Holds(fs["from_uid" := Text(e.fromUid)]["to_uid" := Text(e.toUid)]["content" := e.content]
                    ["msg_type" := Text(e.msgType)]["timestamp" := Text(e.time)]["status" := "0"], e)
  {
  }

  /** The hash after a complete detail phase, whatever was in it before. */
  lemma WrittenFields(st: Store, e: Entry)
    requires Typed(st)
    ensures Holds(Fields(WriteDetails(st, e, 6), MessageKey(e.msgId)), e)
  {
    WriteAt(st, e, 1);
    WriteAt(st, e, 2);
    WriteAt(st, e, 3);
    WriteAt(st, e, 4);
    WriteAt(st, e, 5);
    WriteAt(st, e, 6);
    SixUpdates(Fields(st, MessageKey(e.msgId)), e);
  }

  /** Hset number `n` of the detail phase sets its field. */
  lemma WriteAt(st: Store, e: Entry, n: nat)
    requires 0 < n <= 6 && Typed(st)
    ensures var k := MessageKey(e.msgId);
            var f := DetailFields(e)[n - 1];
            Fields(WriteDetails(st, e, n), k) == Fields(WriteDetails(st, e, n - 1), k)[f.0 := f.1]
  {
    DetailsKeepTyped(st, e, n - 1);
    assert Hashable(WriteDetails(st, e, n - 1), MessageKey(e.msgId));
  }

  /** Steps of an operation that do not concern the detail hash of `id`. */
  predicate Touches(op: Op, id: string) {
    (op.Cache? && op.e.msgId == id) || (op.Expire? && op.msgId == id)
  }

  lemma OtherKeyKeepsFields(st: Store, t: Store, k: string, key: string)
    requires forall x :: x != k ==> (x in t <==> x in st) && (x in st ==> t[x] == st[x])
    requires key != k
    ensures Fields(t, key) == Fields(st, key)
  {
  }

  lemma DetailsKeepOthers(st: Store, e: Entry, n: nat, key: string)
    requires n <= 6 && key != MessageKey(e.msgId)
    ensures Fields(WriteDetails(st, e, n), key) == Fields(st, key)
  {
    if n > 0 {
      DetailsKeepOthers(st, e, n - 1, key);
      OtherKeyKeepsFields(WriteDetails(st, e, n - 1), WriteDetails(st, e, n), MessageKey(e.msgId), key);
    }
  }

  /** The steps of CacheNewMessage after its detail phase leave every detail hash alone. */
  lemma TailKeepsDetails(st: Store, e: Entry, id: string)
    ensures Fields(Cached(st, e, 6), MessageKey(id)) == Fields(WriteDetails(st, e, 6), MessageKey(id))
  {
    var k := MessageKey(id);
    var s1 := WriteDetails(st, e, 6);
    var s2 := Zadd(s1, UserMessagesKey(e.fromUid), Text(e.filed), e.msgId);
    var s3 := Zadd(s2, UserMessagesKey(e.toUid), Text(e.filed), e.msgId);
    var s4 := Rpush(s3, UnreadKey(e.toUid, e.fromUid), e.msgId);
    KeyFamiliesDisjoint(id, e.fromUid, e.fromUid, e.fromUid, e.fromUid);
    KeyFamiliesDisjoint(id, e.toUid, e.fromUid, e.toUid, e.fromUid);
    OtherKeyKeepsFields(s1, s2, UserMessagesKey(e.fromUid), k);
    OtherKeyKeepsFields(s2, s3, UserMessagesKey(e.toUid), k);
    OtherKeyKeepsFields(s3, s4, UnreadKey(e.toUid, e.fromUid), k);
    OtherKeyKeepsFields(s4, Cached(st, e, 6), ChatRelationKey(e.toUid), k);
  }

  lemma ApplyKeepsDetails(st: Store, op: Op, id: string)
    requires !Touches(op, id)
    ensures Fields(Apply(st, op), MessageKey(id)) == Fields(st, MessageKey(id))
  {
    var k := MessageKey(id);
    match op
    case Cache(e, failsAt) =>
      KeysInjective(id, e.msgId, 0, 0, 0, 0);
      DetailsKeepOthers(st, e, if failsAt < 6 then failsAt else 6, k);
      if failsAt >= 6 {
        TailKeepsDetails(st, e, id);
        assert Cached(st, e, failsAt) == Cached(st, e, 6);
      }
    case MarkRead(uid, peer) =>
      KeyFamiliesDisjoint(id, uid, peer, uid, peer);
      OtherKeyKeepsFields(st, Del(st, UnreadKey(uid, peer)), UnreadKey(uid, peer), k);
      OtherKeyKeepsFields(Del(st, UnreadKey(uid, peer)), Marked(st, uid, peer), ChatRelationKey(uid), k);
    case Expire(other) =>
      KeysInjective(id, other, 0, 0, 0, 0);
      OtherKeyKeepsFields(st, Del(st, MessageKey(other)), MessageKey(other), k);
  }

  /** Build looks at nothing but the message's own hash. */
  lemma BuildFromFields(s: Store, t: Store, id: string)
    requires Fields(s, MessageKey(id)) == Fields(t, MessageKey(id))
    ensures Build(s, id) == Build(t, id)
  {
  }

  /** A message reads back as it was cached, until its id is cached again or expires. */
  lemma {:induction false} LatestDetails(ops: seq<Op>, k: nat)
    requires k < |ops| && ops[k].Cache? && ops[k].failsAt >= 6
    requires forall j :: k < j < |ops| ==> !Touches(ops[j], ops[k].e.msgId)
    ensures Build(After(ops), ops[k].e.msgId) == Some(MessageOf(ops[k].e))
  {
    var e := ops[k].e;
    var before := After(ops[..|ops| - 1]);
    if k < |ops| - 1 {
      LatestDetails(ops[..|ops| - 1], k);
      ApplyKeepsDetails(before, ops[|ops| - 1], e.msgId);
      BuildFromFields(before, After(ops), e.msgId);
    } else {
      AfterTyped(ops[..k]);
      WrittenFields(before, e);
      TailKeepsDetails(before, e, e.msgId);
      assert Cached(before, e, ops[k].failsAt) == Cached(before, e, 6);
      StoiText(e.fromUid);
      StoiText(e.toUid);
      StoiText(e.msgType);
      StoiText(e.time);
      ZeroText();
    }
  }

  // ---------------------------------------------------------------- the detail hash of a message

  /** Ids of a list of messages. */
  function Ids(ms: seq<ChatMessage>): (r: seq<string>)
    ensures |r| == |ms|
    ensures forall i :: 0 <= i < |ms| ==> r[i] == ms[i].msgId
  {
    if ms == [] then [] else [ms[0].msgId] + Ids(ms[1..])
  }

  lemma IdsAppend(xs: seq<ChatMessage>, ys: seq<ChatMessage>)
    ensures Ids(xs + ys) == Ids(xs) + Ids(ys)
  {
    var l, r := Ids(xs + ys), Ids(xs) + Ids(ys);
    assert |l| == |r| && forall i :: 0 <= i < |l| ==> l[i] == r[i];
  }

  /** What a run leaves in the detail hash of one message. Fields are always written in the
      same order, so those present are the first `fields` of the six. */
  datatype Details = Details(fields: nat, content: string, time: Long)

  function Overwritten(d: Details, e: Entry, n: nat): Details {
    Details(if n > d.fields then n else d.fields,
            if n >= 3 then e.content else d.content,
            if n >= 5 then e.time else d.time)
  }

  function NextDetails(d: Details, op: Op, id: string): Details {
    match op
    case Cache(e, failsAt) => if e.msgId == id then Overwritten(d, e, if failsAt < 6 then failsAt else 6) else d
    case MarkRead(_, _) => d
    case Expire(m) => if m == id then Details(0, "", 0) else d
  }

  function DetailsAfter(ops: seq<Op>, id: string): Details {
    if ops == [] then Details(0, "", 0) else NextDetails(DetailsAfter(ops[..|ops| - 1], id), ops[|ops| - 1], id)
  }

  /** The conversions of GetUnreadMessages succeed. A missing field takes the text of the one
      before it: so none at all is fatal, the content must do for a number if it is the last
      field, and the timestamp for an int. */
  predicate Convertible(d: Details) {
    && d.fields > 0
    && (d.fields == 3 ==> Stoi(d.content).Some?)
    && (d.fields == 5 ==> INT_MIN <= d.time <= INT_MAX)
  }

  predicate Legible(ops: seq<Op>, id: string) {
    Convertible(DetailsAfter(ops, id))
  }

  ghost predicate Number(fs: map<string, string>, f: string, present: bool) {
    (f in fs <==> present) && (present ==> Stoi(fs[f]).Some?)
  }

  /** The hash is as `d` says. */
  ghost predicate Reflects(fs: map<string, string>, d: Details) {
    && d.fields <= 6
    && Number(fs, "from_uid", d.fields >= 1)
    && Number(fs, "to_uid", d.fields >= 2)
    && ("content" in fs <==> d.fields >= 3) && (d.fields >= 3 ==> fs["content"] == d.content)
    && Number(fs, "msg_type", d.fields >= 4)
    && ("timestamp" in fs <==> d.fields >= 5) && (d.fields >= 5 ==> fs["timestamp"] == Text(d.time))
    && Number(fs, "status", d.fields >= 6)
  }

  lemma FieldReflects(fs: map<string, string>, d: Details, e: Entry, n: nat)
    requires 0 < n <= 6 && Reflects(fs, Overwritten(d, e, n - 1))
    ensures var f := DetailFields(e)[n - 1]; Reflects(fs[f.0 := f.1], Overwritten(d, e, n))
  {
    StoiText(e.fromUid);
    StoiText(e.toUid);
    StoiText(e.msgType);
    ZeroText();
  }

  /** The hash alone, after the first `n` writes. */
  function FieldsWritten(fs: map<string, string>, e: Entry, n: nat): map<string, string>
    requires n <= 6
  {
    if n == 0 then fs else var f := DetailFields(e)[n - 1]; FieldsWritten(fs, e, n - 1)[f.0 := f.1]
  }

  lemma {:induction false} WriteFields(st: Store, e: Entry, n: nat)
    requires n <= 6 && Typed(st)
    ensures Fields(WriteDetails(st, e, n), MessageKey(e.msgId)) ==
            FieldsWritten(Fields(st, MessageKey(e.msgId)), e, n)
  {
    if n > 0 {
      WriteFields(st, e, n - 1);
      WriteAt(st, e, n);
    }
  }

  lemma {:induction false} WriteReflects(fs: map<string, string>, d: Details, e: Entry, n: nat)
    requires n <= 6 && Reflects(fs, d)
    ensures Reflects(FieldsWritten(fs, e, n), Overwritten(d, e, n))
  {
    if n == 0 {
      assert Overwritten(d, e, 0) == d;
    } else {
      WriteReflects(fs, d, e, n - 1);
      FieldReflects(FieldsWritten(fs, e, n - 1), d, e, n);
    }
  }

  lemma {:induction false} AfterReflects(ops: seq<Op>, id: string)
    ensures Reflects(Fields(After(ops), MessageKey(id)), DetailsAfter(ops, id))
  {
    if ops != [] {
      var before, last := ops[..|ops| - 1], ops[|ops| - 1];
      AfterReflects(before, id);
      AfterTyped(before);
      if !Touches(last, id) {
        ApplyKeepsDetails(After(before), last, id);
      } else if last.Cache? {
        var n := if last.failsAt < 6 then last.failsAt else 6;
        WriteFields(After(before), last.e, n);
        WriteReflects(Fields(After(before), MessageKey(id)), DetailsAfter(before, id), last.e, n);
        if last.failsAt >= 6 {
          TailKeepsDetails(After(before), last.e, id);
          assert Cached(After(before), last.e, last.failsAt) == Cached(After(before), last.e, 6);
        }
      }
    }
  }

  lemma ReflectedBuild(st: Store, id: string, d: Details)
    requires Reflects(Fields(st, MessageKey(id)), d)
    ensures Build(st, id).Some? <==> Convertible(d)
  {
    var fs := Fields(st, MessageKey(id));
    StoiText(d.time);
    StoiStol(d.content);
    if 0 < d.fields < 3 || d.fields == 4 {
      StoiStol(fs["from_uid"]);
      if d.fields >= 2 { StoiStol(fs["to_uid"]); }
      if d.fields >= 4 { StoiStol(fs["msg_type"]); }
    }
  }

  /** In every run a message can be read exactly when it is legible. */
  lemma BuildsExactly(ops: seq<Op>, id: string)
    ensures Build(After(ops), id).Some? <==> Legible(ops, id)
  {
    AfterReflects(ops, id);
    ReflectedBuild(After(ops), id, DetailsAfter(ops, id));
  }

  // ---------------------------------------------------------------- expiry

  /** Some complete caching of the id has not been followed by the expiry of its details. */
  ghost predicate Live(ops: seq<Op>, id: string) {
    exists k :: 0 <= k < |ops| && LiveSince(ops, id, k)
  }

  predicate LiveSince(ops: seq<Op>, id: string, k: nat)
    requires k < |ops|
  {
    && ops[k].Cache? && ops[k].e.msgId == id && ops[k].failsAt >= 6
    && forall j :: k < j < |ops| ==> !(ops[j].Expire? && ops[j].msgId == id)
  }

  predicate CompleteDetails(ops: seq<Op>) {
    forall i :: 0 <= i < |ops| && ops[i].Cache? ==> ops[i].failsAt >= 6
  }

  lemma {:induction false} LiveExactly(ops: seq<Op>, id: string)
    ensures DetailsAfter(ops, id).fields <= 6
    ensures Live(ops, id) <==> DetailsAfter(ops, id).fields == 6
  {
    if ops != [] {
      var n := |ops| - 1;
      var before, last := ops[..n], ops[n];
      LiveExactly(before, id);
      forall k | 0 <= k < n ensures LiveSince(ops, id, k) <==>
                                    LiveSince(before, id, k) && !(last.Expire? && last.msgId == id) {
        assert before[k] == ops[k];
        assert forall j :: k < j < n ==> before[j] == ops[j];
      }
      assert LiveSince(ops, id, n) <==> last.Cache? && last.e.msgId == id && last.failsAt >= 6;
    }
  }

  /** A live message can be read, whatever partial writes came in between. */
  lemma LiveIsLegible(ops: seq<Op>, id: string)
    requires Live(ops, id)
    ensures Legible(ops, id)
  {
    LiveExactly(ops, id);
  }

  lemma {:induction false} CompleteIsAllOrNothing(ops: seq<Op>, id: string)
    requires CompleteDetails(ops)
    ensures DetailsAfter(ops, id).fields in {0, 6}
  {
    if ops != [] {
      CompleteIsAllOrNothing(ops[..|ops| - 1], id);
    }
  }

  /** Where no detail phase breaks off, expiry is the only way to lose a message. */
  lemma LegibleIsLive(ops: seq<Op>, id: string)
    requires CompleteDetails(ops)
    ensures Legible(ops, id) <==> Live(ops, id)
  {
    LiveExactly(ops, id);
    CompleteIsAllOrNothing(ops, id);
  }

  // ---------------------------------------------------------------- what comes back

  /** The part of a list in front of its first illegible message. */
  function Returned(ops: seq<Op>, ids: seq<string>): seq<string> {
    if ids == [] || !Legible(ops, ids[0]) then [] else [ids[0]] + Returned(ops, ids[1..])
  }

  lemma {:induction false} ReturnedWhole(ops: seq<Op>, ids: seq<string>)
    ensures |Returned(ops, ids)| <= |ids| && Returned(ops, ids) == ids[..|Returned(ops, ids)|]
    ensures Returned(ops, ids) == ids <==> forall id :: id in ids ==> Legible(ops, id)
  {
    if ids != [] {
      ReturnedWhole(ops, ids[1..]);
      assert ids == [ids[0]] + ids[1..];
    }
  }

  lemma {:induction false} BuildAllReturns(ops: seq<Op>, ids: seq<string>)
    ensures Ids(BuildAll(After(ops), ids)) == Returned(ops, ids)
  {
    if ids != [] {
      var st := After(ops);
      BuildsExactly(ops, ids[0]);
      BuildKeepsId(st, ids[0]);
      BuildAllReturns(ops, ids[1..]);
      assert Builds(st, ids)[1..] == Builds(st, ids[1..]);
      if Legible(ops, ids[0]) {
        IdsAppend([Build(st, ids[0]).value], BuildAll(st, ids[1..]));
      }
    }
  }

  /** A field of a relation hash is the text of a uid. */
  predicate UidText(f: string) {
    Stoi(f).Some? && Text(Stoi(f).value) == f
  }

  function UidOf(f: string): Int
    requires UidText(f)
  {
    Stoi(f).value
  }

  lemma {:induction false} RelationFieldsAreUids(ops: seq<Op>, uid: int, f: string)
    requires f in Fields(After(ops), ChatRelationKey(uid))
    ensures UidText(f)
  {
    var n := |ops| - 1;
    var st, last := After(ops[..n]), ops[n];
    var k := ChatRelationKey(uid);
    if f in Fields(st, k) {
      RelationFieldsAreUids(ops[..n], uid, f);
    } else {
      match last
      case Cache(e, failsAt) =>
        StoiText(e.fromUid);
        NewRelationField(st, e, failsAt, uid, f);
      case MarkRead(u, p) =>
        StoiText(p);
        KeyFamiliesDisjoint("", uid, uid, u, p);
        OtherKeyKeepsFields(st, Del(st, UnreadKey(u, p)), UnreadKey(u, p), k);
        if k != ChatRelationKey(u) {
          OtherKeyKeepsFields(Del(st, UnreadKey(u, p)), Marked(st, u, p), ChatRelationKey(u), k);
        }
      case Expire(id) =>
        KeyFamiliesDisjoint(id, uid, uid, uid, uid);
        OtherKeyKeepsFields(st, Del(st, MessageKey(id)), MessageKey(id), k);
    }
  }

  /** The only relation field CacheNewMessage can add is the sender's. */
  lemma NewRelationField(st: Store, e: Entry, failsAt: nat, uid: int, f: string)
    requires f in Fields(Cached(st, e, failsAt), ChatRelationKey(uid)) && f !in Fields(st, ChatRelationKey(uid))
    ensures f == Text(e.fromUid)
  {
    var k := ChatRelationKey(uid);
    KeyFamiliesDisjoint(e.msgId, uid, uid, e.fromUid, e.fromUid);
    KeyFamiliesDisjoint(e.msgId, uid, uid, e.toUid, e.fromUid);
    DetailsKeepOthers(st, e, if failsAt < 6 then failsAt else 6, k);
    if failsAt >= 6 {
      var s1 := WriteDetails(st, e, 6);
      var s2 := Zadd(s1, UserMessagesKey(e.fromUid), Text(e.filed), e.msgId);
      var s3 := Zadd(s2, UserMessagesKey(e.toUid), Text(e.filed), e.msgId);
      var s4 := Rpush(s3, UnreadKey(e.toUid, e.fromUid), e.msgId);
      OtherKeyKeepsFields(s1, s2, UserMessagesKey(e.fromUid), k);
      OtherKeyKeepsFields(s2, s3, UserMessagesKey(e.toUid), k);
      OtherKeyKeepsFields(s3, s4, UnreadKey(e.toUid, e.fromUid), k);
      if k != ChatRelationKey(e.toUid) {
        OtherKeyKeepsFields(s4, Cached(st, e, failsAt), ChatRelationKey(e.toUid), k);
      }
    }
  }

  /** One peer: its unread list in arrival order, up to the first illegible message. */
  lemma PeerReturns(ops: seq<Op>, uid: Int, peer: string)
    requires CountsInRange(ops, uid)
    requires peer in Fields(After(ops), ChatRelationKey(uid))
    ensures UidText(peer)
    ensures Ids(PeerMessages(After(ops), uid, peer)) == Returned(ops, UnreadIds(ops, uid, UidOf(peer)))
  {
    RelationFieldsAreUids(ops, uid, peer);
    var from := UidOf(peer);
    assert InRange(ops, uid, from);
    ListAndCounterAgree(ops, uid, from);
    BuildAllReturns(ops, UnreadIds(ops, uid, from));
  }

  ghost predicate AllUids(peers: seq<string>) {
    forall i :: 0 <= i < |peers| ==> UidText(peers[i])
  }

  lemma AllUidsExtend(peers: seq<string>, peer: string)
    requires AllUids(peers) && UidText(peer)
    ensures AllUids(peers + [peer])
  {
  }

  /** The unread ids of the peers in `peers`, one peer after the other. */
  ghost function AllUnread(ops: seq<Op>, uid: Int, peers: seq<string>): seq<string>
    requires AllUids(peers)
  {
    if peers == [] then []
    else AllUnread(ops, uid, peers[..|peers| - 1]) + UnreadIds(ops, uid, UidOf(peers[|peers| - 1]))
  }

  /** What comes back of them. */
  ghost function AllReturned(ops: seq<Op>, uid: Int, peers: seq<string>): seq<string>
    requires AllUids(peers)
  {
    if peers == [] then []
    else AllReturned(ops, uid, peers[..|peers| - 1]) + Returned(ops, UnreadIds(ops, uid, UidOf(peers[|peers| - 1])))
  }

  lemma AllReturnedAppend(ops: seq<Op>, uid: Int, peers: seq<string>, peer: string)
    requires AllUids(peers) && UidText(peer)
    ensures AllUids(peers + [peer])
    ensures AllReturned(ops, uid, peers + [peer]) ==
            AllReturned(ops, uid, peers) + Returned(ops, UnreadIds(ops, uid, UidOf(peer)))
  {
    AllUidsExtend(peers, peer);
    assert (peers + [peer])[..|peers|] == peers;
  }

  lemma GatheredAppend(st: Store, uid: int, peers: seq<string>, peer: string)
    ensures Ids(Gathered(st, uid, peers + [peer])) == Ids(Gathered(st, uid, peers)) + Ids(PeerMessages(st, uid, peer))
  {
    assert (peers + [peer])[..|peers|] == peers;
    IdsAppend(Gathered(st, uid, peers), PeerMessages(st, uid, peer));
  }

  lemma SamePieces<T>(a: seq<T>, b: seq<T>, c: seq<T>, d: seq<T>)
    requires |a| <= |c| && |b| <= |d|
    ensures a + b == c + d <==> a == c && b == d
  {
    if a + b == c + d {
      assert |a + b| == |c + d|;
      assert a == (a + b)[..|a|] && c == (c + d)[..|c|];
      assert b == (a + b)[|a|..] && d == (c + d)[|c|..];
    }
  }

  ghost predicate PeerLegible(ops: seq<Op>, uid: Int, from: Int) {
    forall id :: id in UnreadIds(ops, uid, from) ==> Legible(ops, id)
  }

  ghost predicate PeersLegible(ops: seq<Op>, uid: Int, peers: seq<string>)
    requires AllUids(peers)
  {
    peers == [] ||
    (PeersLegible(ops, uid, peers[..|peers| - 1]) && PeerLegible(ops, uid, UidOf(peers[|peers| - 1])))
  }

  lemma {:induction false} PeersLegibleEach(ops: seq<Op>, uid: Int, peers: seq<string>)
    requires AllUids(peers)
    ensures PeersLegible(ops, uid, peers) <==>
            forall i :: 0 <= i < |peers| ==> PeerLegible(ops, uid, UidOf(peers[i]))
  {
    if peers != [] {
      PeersLegibleEach(ops, uid, peers[..|peers| - 1]);
    }
  }

  /** All peers whole: each peer whole. */
  lemma {:induction false} ReturnedAllExactly(ops: seq<Op>, uid: Int, peers: seq<string>)
    requires AllUids(peers)
    ensures |AllReturned(ops, uid, peers)| <= |AllUnread(ops, uid, peers)|
    ensures AllReturned(ops, uid, peers) == AllUnread(ops, uid, peers) <==>
            PeersLegible(ops, uid, peers)
  {
    if peers != [] {
      var n := |peers| - 1;
      ReturnedAllExactly(ops, uid, peers[..n]);
      PeerWholeExactly(ops, uid, UidOf(peers[n]));
      var ids := UnreadIds(ops, uid, UidOf(peers[n]));
      SamePieces(AllReturned(ops, uid, peers[..n]), Returned(ops, ids), AllUnread(ops, uid, peers[..n]), ids);
    }
  }

  lemma PeerWholeExactly(ops: seq<Op>, uid: Int, from: Int)
    ensures |Returned(ops, UnreadIds(ops, uid, from))| <= |UnreadIds(ops, uid, from)|
    ensures Returned(ops, UnreadIds(ops, uid, from)) == UnreadIds(ops, uid, from) <==> PeerLegible(ops, uid, from)
  {
    ReturnedWhole(ops, UnreadIds(ops, uid, from));
  }

  lemma {:induction false} GatheredIds(ops: seq<Op>, uid: Int, peers: seq<string>)
    requires CountsInRange(ops, uid)
    requires forall i :: 0 <= i < |peers| ==> peers[i] in Fields(After(ops), ChatRelationKey(uid))
    ensures AllUids(peers)
    ensures Ids(Gathered(After(ops), uid, peers)) == AllReturned(ops, uid, peers)
  {
    if peers != [] {
      var front, peer := peers[..|peers| - 1], peers[|peers| - 1];
      assert peers == front + [peer];
      GatheredIds(ops, uid, front);
      PeerReturns(ops, uid, peer);
      AllReturnedAppend(ops, uid, front, peer);
      GatheredAppend(After(ops), uid, front, peer);
    }
  }

  /** Every unread message of `uid`, from whomever, is legible. */
  ghost predicate AllLegible(ops: seq<Op>, uid: Int) {
    forall from: Int :: PeerLegible(ops, uid, from)
  }

  /** Every unread message of `uid` still has its details. */
  ghost predicate AllLive(ops: seq<Op>, uid: Int) {
    forall from: Int, id :: id in UnreadIds(ops, uid, from) ==> Live(ops, id)
  }

  lemma LiveAreLegible(ops: seq<Op>, uid: Int)
    ensures AllLive(ops, uid) ==> AllLegible(ops, uid)
    ensures CompleteDetails(ops) ==> (AllLegible(ops, uid) <==> AllLive(ops, uid))
  {
    if AllLive(ops, uid) {
      forall from: Int, id | id in UnreadIds(ops, uid, from) ensures Legible(ops, id) {
        LiveIsLegible(ops, id);
      }
    }
    if CompleteDetails(ops) && AllLegible(ops, uid) {
      forall from: Int, id | id in UnreadIds(ops, uid, from) ensures Live(ops, id) {
        assert PeerLegible(ops, uid, from);
        LegibleIsLive(ops, id);
      }
    }
  }

  /** A peer with unread messages has a field in the relation hash. */
  lemma UnreadPeerIsListed(ops: seq<Op>, uid: Int, from: Int)
    requires InRange(ops, uid, from) && UnreadIds(ops, uid, from) != []
    ensures Text(from) in Fields(After(ops), ChatRelationKey(uid))
    ensures UidText(Text(from)) && UidOf(Text(from)) == from
  {
    ListAndCounterAgree(ops, uid, from);
    StoiText(from);
  }

  /** Skipping peers whose counter is zero or missing loses nothing. In every run, for any order
      of the peers, all unread ids come back, peer by peer in arrival order, exactly when all
      of them are legible. */
  lemma NothingUnreadIsLostExactly(ops: seq<Op>, uid: Int, peers: seq<string>)
    requires CountsInRange(ops, uid)
    requires forall f :: f in Fields(After(ops), ChatRelationKey(uid)) <==> f in peers
    ensures AllUids(peers)
    ensures forall from: Int :: UnreadIds(ops, uid, from) != [] ==> Text(from) in peers
    ensures Ids(Gathered(After(ops), uid, peers)) == AllUnread(ops, uid, peers) <==> AllLegible(ops, uid)
  {
    GatheredIds(ops, uid, peers);
    ReturnedAllExactly(ops, uid, peers);
    PeersLegibleEach(ops, uid, peers);
    forall from: Int | UnreadIds(ops, uid, from) != []
      ensures exists i :: 0 <= i < |peers| && peers[i] == Text(from) && UidOf(peers[i]) == from
    {
      UnreadPeerIsListed(ops, uid, from);
    }
  }

  /** The same in terms of expiry: live messages all come back; and where no detail phase broke
      off, all unread ids come back exactly when none of them has expired. */
  lemma ExpiryLosesExactly(ops: seq<Op>, uid: Int, peers: seq<string>)
    requires CountsInRange(ops, uid)
    requires forall f :: f in Fields(After(ops), ChatRelationKey(uid)) <==> f in peers
    ensures AllUids(peers)
    ensures AllLive(ops, uid) ==> Ids(Gathered(After(ops), uid, peers)) == AllUnread(ops, uid, peers)
    ensures CompleteDetails(ops) ==>
              (Ids(Gathered(After(ops), uid, peers)) == AllUnread(ops, uid, peers) <==> AllLive(ops, uid))
  {
    NothingUnreadIsLostExactly(ops, uid, peers);
    LiveAreLegible(ops, uid);
  }

  // ---------------------------------------------------------------- with their contents

  /** The entry last cached under an id, if its caching was complete and nothing has touched its
      details since. */
  function LastCached(ops: seq<Op>, id: string): Option<Entry> {
    if ops == [] then None
    else
      var last := ops[|ops| - 1];
      if !Touches(last, id) then LastCached(ops[..|ops| - 1], id)
      else if last.Cache? && last.failsAt >= 6 then Some(last.e)
      else None
  }

  lemma {:induction false} ReadsAsCached(ops: seq<Op>, id: string)
    requires LastCached(ops, id).Some?
    ensures Build(After(ops), id) == Some(MessageOf(LastCached(ops, id).value)) && Legible(ops, id)
  {
    var n := |ops| - 1;
    if Touches(ops[n], id) {
      LatestDetails(ops, n);
    } else {
      ReadsAsCached(ops[..n], id);
      ApplyKeepsDetails(After(ops[..n]), ops[n], id);
      BuildFromFields(After(ops[..n]), After(ops), id);
    }
    BuildsExactly(ops, id);
  }

  lemma {:induction false} BuildAllBuilds(st: Store, ids: seq<string>, m: ChatMessage)
    requires m in BuildAll(st, ids)
    ensures Build(st, m.msgId) == Some(m)
  {
    assert Builds(st, ids)[1..] == Builds(st, ids[1..]);
    BuildKeepsId(st, ids[0]);
    if m != Build(st, ids[0]).value {
      BuildAllBuilds(st, ids[1..], m);
    }
  }

  lemma {:induction false} GatheredBuilds(st: Store, uid: int, peers: seq<string>, m: ChatMessage)
    requires m in Gathered(st, uid, peers)
    ensures Build(st, m.msgId) == Some(m)
  {
    var n := |peers| - 1;
    if m in Gathered(st, uid, peers[..n]) {
      GatheredBuilds(st, uid, peers[..n], m);
    } else {
      var from := Stoi(peers[n]);
      BuildAllBuilds(st, Items(st, UnreadKey(uid, from.value)), m);
    }
  }

  /** In every run, a message that comes back and whose details were not touched since it was
      last cached has all the fields it was cached with. */
  lemma ReturnedAsCached(ops: seq<Op>, uid: Int, peers: seq<string>, m: ChatMessage)
    requires m in Gathered(After(ops), uid, peers) && LastCached(ops, m.msgId).Some?
    ensures m == MessageOf(LastCached(ops, m.msgId).value)
  {
    GatheredBuilds(After(ops), uid, peers, m);
    ReadsAsCached(ops, m.msgId);
  }

  /** In every run, with partial detail phases and expiries anywhere, GetUnreadMessages returns
      for any order of the peers exactly their unread lists, each up to its first illegible
      message; and what was not touched since it was cached comes back as it was cached. */
  lemma GatheredReturns(ops: seq<Op>, uid: Int, peers: seq<string>)
    requires CountsInRange(ops, uid)
    requires forall i :: 0 <= i < |peers| ==> peers[i] in Fields(After(ops), ChatRelationKey(uid))
    ensures AllUids(peers)
    ensures Ids(Gathered(After(ops), uid, peers)) == AllReturned(ops, uid, peers)
    ensures forall m :: m in Gathered(After(ops), uid, peers) && LastCached(ops, m.msgId).Some? ==>
              m == MessageOf(LastCached(ops, m.msgId).value)
  {
    GatheredIds(ops, uid, peers);
    forall m | m in Gathered(After(ops), uid, peers) && LastCached(ops, m.msgId).Some?
      ensures m == MessageOf(LastCached(ops, m.msgId).value)
    {
      ReturnedAsCached(ops, uid, peers, m);
    }
  }

  /** Where that holds of all unread messages, GetUnreadMessages returns all of them, peer by peer
      in arrival order, as they were cached. */
  lemma UnreadAsCached(ops: seq<Op>, uid: Int, peers: seq<string>)
    requires CountsInRange(ops, uid)
    requires forall f :: f in Fields(After(ops), ChatRelationKey(uid)) <==> f in peers
    requires forall from: Int, id :: id in UnreadIds(ops, uid, from) ==> LastCached(ops, id).Some?
    ensures AllUids(peers)
    ensures var ms, ids := Gathered(After(ops), uid, peers), AllUnread(ops, uid, peers);
            && |ms| == |ids|
            && forall i :: 0 <= i < |ids| ==>
                 LastCached(ops, ids[i]).Some? && ms[i] == MessageOf(LastCached(ops, ids[i]).value)
  {
    NothingUnreadIsLostExactly(ops, uid, peers);
    forall from: Int, id | id in UnreadIds(ops, uid, from) ensures Legible(ops, id) {
      ReadsAsCached(ops, id);
    }
    assert AllLegible(ops, uid) by {
      assert forall from: Int :: PeerLegible(ops, uid, from);
    }
    var ms, ids := Gathered(After(ops), uid, peers), AllUnread(ops, uid, peers);
    forall i | 0 <= i < |ids|
      ensures LastCached(ops, ids[i]).Some? && ms[i] == MessageOf(LastCached(ops, ids[i]).value)
    {
      assert Ids(ms)[i] == ids[i];
      AllUnreadFrom(ops, uid, peers, ids[i]);
      ReturnedAsCached(ops, uid, peers, ms[i]);
    }
  }

  lemma {:induction false} AllUnreadFrom(ops: seq<Op>, uid: Int, peers: seq<string>, id: string)
    requires AllUids(peers) && id in AllUnread(ops, uid, peers)
    ensures exists from: Int :: id in UnreadIds(ops, uid, from)
  {
    var n := |peers| - 1;
    if id in AllUnread(ops, uid, peers[..n]) {
      AllUnreadFrom(ops, uid, peers[..n], id);
    } else {
      assert id in UnreadIds(ops, uid, UidOf(peers[n]));
    }
  }

  // ---------------------------------------------------------------- a run that loses a readable message

  lemma {:induction false} UnreadAtMost(ops: seq<Op>, to: Int, from: Int)
    ensures |UnreadIds(ops, to, from)| <= |ops|
  {
    if ops != [] {
      UnreadAtMost(ops[..|ops| - 1], to, from);
    }
  }

  /** The counts of a run are no larger than the run. */
  lemma ShortRunInRange(ops: seq<Op>, uid: Int)
    requires |ops| <= INT_MAX
    ensures CountsInRange(ops, uid)
  {
    forall from: Int, n | 0 <= n <= |ops| ensures |UnreadIds(ops[..n], uid, from)| <= INT_MAX {
      UnreadAtMost(ops[..n], uid, from);
    }
  }

  /** A peer whose oldest unread message is illegible contributes nothing. */
  lemma NothingReturned(ops: seq<Op>, uid: Int, from: Int)
    requires CountsInRange(ops, uid)
    requires UnreadIds(ops, uid, from) != [] && !Legible(ops, UnreadIds(ops, uid, from)[0])
    ensures Gathered(After(ops), uid, [Text(from)]) == []
  {
    assert InRange(ops, uid, from);
    UnreadPeerIsListed(ops, uid, from);
    PeerReturns(ops, uid, Text(from));
    assert Ids(PeerMessages(After(ops), uid, Text(from))) == [];
    assert [Text(from)][..0] == [];
    assert Gathered(After(ops), uid, []) == [];
  }

  /** A run that shows it. */
  function ExpiryRun(a: Entry, b: Entry): seq<Op> {
    [Cache(a, 6), Cache(b, 6), Expire(a.msgId)]
  }

  lemma ExpiryRunHistory(a: Entry, b: Entry)
    requires a.fromUid == b.fromUid && a.toUid == b.toUid
    ensures UnreadIds(ExpiryRun(a, b), a.toUid, a.fromUid) == [a.msgId, b.msgId]
    ensures !Legible(ExpiryRun(a, b), a.msgId)
  {
    var ops := ExpiryRun(a, b);
    var two, one := ops[..2], ops[..1];
    assert two[..1] == one && one[..0] == [];
    assert UnreadIds(one, a.toUid, a.fromUid) == [a.msgId];
    assert UnreadIds(two, a.toUid, a.fromUid) == [a.msgId] + [b.msgId];
  }

  /** Two messages are unread and the first expires: the second, which can still be read, is
      not returned either. */
  lemma ReadableMessageDropped(a: Entry, b: Entry)
    requires a.msgId != b.msgId && a.fromUid == b.fromUid && a.toUid == b.toUid
    ensures var ops := ExpiryRun(a, b);
            && UnreadIds(ops, a.toUid, a.fromUid) == [a.msgId, b.msgId]
            && Build(After(ops), b.msgId) == Some(MessageOf(b))
            && Gathered(After(ops), a.toUid, [Text(a.fromUid)]) == []
  {
    ExpiryRunHistory(a, b);
    LatestDetails(ExpiryRun(a, b), 1);
    ShortRunInRange(ExpiryRun(a, b), a.toUid);
    NothingReturned(ExpiryRun(a, b), a.toUid, a.fromUid);
  }

  // ---------------------------------------------------------------- the sorted sets

  /** The messages of a user with their scores, as GetRecentMessages finds them. */
  function Scores(st: Store, uid: int): map<string, string> {
    var k := UserMessagesKey(uid);
    if k in st && st[k].Zset? then st[k].scores else map[]
  }

  lemma ZaddScores(st: Store, uid: int, score: string, m: string, u: int)
    requires Typed(st)
    ensures Scores(Zadd(st, UserMessagesKey(uid), score, m), u) ==
            if u == uid then Scores(st, u)[m := score] else Scores(st, u)
  {
    assert Zsettable(st, UserMessagesKey(uid));
    KeysInjective(m, m, uid, uid, u, u);
  }

  lemma OtherKeyKeepsScores(st: Store, t: Store, k: string, u: int)
    requires forall x :: x != k ==> (x in t <==> x in st) && (x in st ==> t[x] == st[x])
    requires k != UserMessagesKey(u)
    ensures Scores(t, u) == Scores(st, u)
  {
  }

  lemma DetailsKeepScores(st: Store, e: Entry, n: nat, u: int)
    requires n <= 6
    ensures Scores(WriteDetails(st, e, n), u) == Scores(st, u)
  {
    if n > 0 {
      DetailsKeepScores(st, e, n - 1, u);
      KeyFamiliesDisjoint(e.msgId, u, u, u, u);
      OtherKeyKeepsScores(WriteDetails(st, e, n - 1), WriteDetails(st, e, n), MessageKey(e.msgId), u);
    }
  }

  /** The last two commands of CacheNewMessage. */
  lemma CountKeepsScores(s3: Store, e: Entry, v: string, u: int)
    ensures Scores(Hset(Rpush(s3, UnreadKey(e.toUid, e.fromUid), e.msgId), ChatRelationKey(e.toUid), Text(e.fromUid), v), u)
         == Scores(s3, u)
  {
    var s4 := Rpush(s3, UnreadKey(e.toUid, e.fromUid), e.msgId);
    KeyFamiliesDisjoint(e.msgId, e.toUid, e.fromUid, u, u);
    OtherKeyKeepsScores(s3, s4, UnreadKey(e.toUid, e.fromUid), u);
    OtherKeyKeepsScores(s4, Hset(s4, ChatRelationKey(e.toUid), Text(e.fromUid), v), ChatRelationKey(e.toUid), u);
  }

  lemma FiledScores(s1: Store, e: Entry, u: int)
    requires Typed(s1)
    ensures var s2 := Zadd(s1, UserMessagesKey(e.fromUid), Text(e.filed), e.msgId);
            var s3 := Zadd(s2, UserMessagesKey(e.toUid), Text(e.filed), e.msgId);
            Scores(s3, u) ==
            if u == e.fromUid || u == e.toUid then Scores(s1, u)[e.msgId := Text(e.filed)] else Scores(s1, u)
  {
    var s2 := Zadd(s1, UserMessagesKey(e.fromUid), Text(e.filed), e.msgId);
    ZaddScores(s1, e.fromUid, Text(e.filed), e.msgId, u);
    ZaddKeepsTyped(s1, e.fromUid, Text(e.filed), e.msgId);
    ZaddScores(s2, e.toUid, Text(e.filed), e.msgId, u);
  }

  lemma CachedScores(st: Store, e: Entry, u: int)
    requires Typed(st)
    ensures Scores(Cached(st, e, 6), u) ==
            if u == e.fromUid || u == e.toUid then Scores(st, u)[e.msgId := Text(e.filed)] else Scores(st, u)
  {
    var s1 := WriteDetails(st, e, 6);
    var s2 := Zadd(s1, UserMessagesKey(e.fromUid), Text(e.filed), e.msgId);
    var s3 := Zadd(s2, UserMessagesKey(e.toUid), Text(e.filed), e.msgId);
    var s4 := Rpush(s3, UnreadKey(e.toUid, e.fromUid), e.msgId);
    DetailsKeepScores(st, e, 6, u);
    DetailsKeepTyped(st, e, 6);
    FiledScores(s1, e, u);
    CountKeepsScores(s3, e, NextCount(Hget(s4, ChatRelationKey(e.toUid), Text(e.fromUid), "")), u);
  }

  lemma OtherOpsKeepScores(st: Store, op: Op, u: int)
    requires !(op.Cache? && op.failsAt >= 6)
    ensures Scores(Apply(st, op), u) == Scores(st, u)
  {
    match op
    case Cache(e, failsAt) => DetailsKeepScores(st, e, failsAt, u);
    case MarkRead(uid, peer) =>
      KeyFamiliesDisjoint("", uid, peer, u, u);
      OtherKeyKeepsScores(st, Del(st, UnreadKey(uid, peer)), UnreadKey(uid, peer), u);
      OtherKeyKeepsScores(Del(st, UnreadKey(uid, peer)), Marked(st, uid, peer), ChatRelationKey(uid), u);
    case Expire(id) =>
      KeyFamiliesDisjoint(id, u, u, u, u);
      OtherKeyKeepsScores(st, Del(st, MessageKey(id)), MessageKey(id), u);
  }

  /** When a message from or to the user was last completely cached. */
  function LastFiled(ops: seq<Op>, uid: int, id: string): Option<Long> {
    if ops == [] then None
    else
      match ops[|ops| - 1]
      case Cache(e, failsAt) =>
        if failsAt >= 6 && e.msgId == id && (e.fromUid == uid || e.toUid == uid) then Some(e.filed)
        else LastFiled(ops[..|ops| - 1], uid, id)
      case _ => LastFiled(ops[..|ops| - 1], uid, id)
  }

  /** After every run the sorted set of a user holds exactly the messages from or to that user that
      were completely cached, each with the time of its last caching. Neither a mark-read nor an
      expiry takes a message out of it. */
  lemma {:induction false} FiledExactly(ops: seq<Op>, uid: int, id: string)
    ensures id in Scores(After(ops), uid) <==> LastFiled(ops, uid, id).Some?
    ensures id in Scores(After(ops), uid) ==> Scores(After(ops), uid)[id] == Text(LastFiled(ops, uid, id).value)
  {
    if ops != [] {
      var before, last := ops[..|ops| - 1], ops[|ops| - 1];
      FiledExactly(before, uid, id);
      AfterTyped(before);
      if last.Cache? && last.failsAt >= 6 {
        assert Cached(After(before), last.e, last.failsAt) == Cached(After(before), last.e, 6);
        CachedScores(After(before), last.e, uid);
      } else {
        OtherOpsKeepScores(After(before), last, uid);
      }
    }
  }

  // ---------------------------------------------------------------- imperative form

  class ChatCacheManager {
    var store: Store

    constructor ()
      ensures store == After([])
    {
      store := map[];
    }

    method CacheNewMessage(e: Entry, failsAt: nat) returns (ok: bool)
      modifies this
      ensures store == Apply(old(store), Cache(e, failsAt))
      ensures ok <==> failsAt >= 6
    {
      var msgKey := MessageKey(e.msgId);
      var details := DetailFields(e);
      for i := 0 to 6
        invariant store == WriteDetails(old(store), e, i) && i <= failsAt
      {
        if i == failsAt {
          return false;
        }
        store := Hset(store, msgKey, details[i].0, details[i].1);
      }
      var score := Text(e.filed);
      store := Zadd(store, UserMessagesKey(e.fromUid), score, e.msgId);
      store := Zadd(store, UserMessagesKey(e.toUid), score, e.msgId);
      store := Rpush(store, UnreadKey(e.toUid, e.fromUid), e.msgId);
      var relationKey := ChatRelationKey(e.toUid);
      var unreadCount := Hget(store, relationKey, Text(e.fromUid), "");
      var count := 1;
      var parsed := Stoi(unreadCount);
      if parsed.Some? {
        count := parsed.value + 1;
        if count < 1 {
          count := 1;
        }
      }
      store := Hset(store, relationKey, Text(e.fromUid), Text(count));
      ok := true;
    }

    method MarkMessagesAsRead(uid: Int, peerId: Int)
      modifies this
      ensures store == Apply(old(store), MarkRead(uid, peerId))
    {
      store := Del(store, UnreadKey(uid, peerId));
      store := Hset(store, ChatRelationKey(uid), Text(peerId), "0");
    }

    /** The loop over one peer's ids; an exception leaves it with what was pushed so far. */
    method ReadList(ids: seq<string>) returns (messages: seq<ChatMessage>)
      ensures messages == BuildAll(store, ids)
    {
      messages := [];
      ghost var all := Builds(store, ids);
      for i := 0 to |ids|
        invariant messages + Values(all[i..]) == Values(all)
      {
        ReadOne(all, i, messages);
        var m := Build(store, ids[i]);
        if m.None? {
          return;
        }
        messages := messages + [m.value];
      }
      assert all[|ids|..] == [];
    }

    method GetUnreadMessages(uid: int, peers: seq<string>) returns (messages: seq<ChatMessage>)
      ensures messages == Gathered(store, uid, peers)
    {
      messages := [];
      for i := 0 to |peers|
        invariant messages == Gathered(store, uid, peers[..i])
      {
        assert peers[..i + 1][..i] == peers[..i];
        var count := Stoi(Hget(store, ChatRelationKey(uid), peers[i], ""));
        if count.Some? && count.value > 0 {
          var peer := Stoi(peers[i]);
          if peer.Some? {
            var ids := Items(store, UnreadKey(uid, peer.value));
            var list := ReadList(ids);
            messages := messages + list;
          }
        }
      }
      assert peers[..|peers|] == peers;
    }
  }
}
