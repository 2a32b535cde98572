/**
  Unread accounting in the database (MySQLDao.cpp, SaveChatMessage and MarkMessagesAsRead,
  over the tables of chat_messages.sql).

  The save relies on ON DUPLICATE KEY UPDATE, but the shipped table has only a plain index on
  (user_id, peer_id): no duplicate key ever exists and every save adds a relation row. The
  model takes the schema as a parameter and proves what holds under either one.
*/
module MessageAccounts {
  import opened Wrappers

  datatype Message = Message(msgId: string, fromUid: int, toUid: int, content: string, msgType: int, sendTime: int)

  datatype MessageRow = MessageRow(m: Message, status: int)  // 0 unread, 1 read, 2 deleted

  datatype Relation = Relation(userId: int, peerId: int, lastMsgId: string, unread: int)

  /** Whether (user_id, peer_id) is a unique key. chat_messages.sql ships `PlainIndex`. */
  datatype Schema = PlainIndex | UniqueKey

  datatype Tables = Tables(messages: seq<MessageRow>, relations: seq<Relation>)

  predicate Of(r: Relation, user: int, peer: int) {
    r.userId == user && r.peerId == peer
  }

  // ---------------------------------------------------------------- the SQL statements

  predicate HasRow(rs: seq<Relation>, user: int, peer: int) {
    exists i :: 0 <= i < |rs| && Of(rs[i], user, peer)
  }

  /** The effect of ON DUPLICATE KEY UPDATE on the rows of one pair. */
  function Bumped(rs: seq<Relation>, user: int, peer: int, msgId: string): (r: seq<Relation>)
    ensures |r| == |rs|
    ensures forall i :: 0 <= i < |rs| ==>
              r[i] == if Of(rs[i], user, peer) then Relation(user, peer, msgId, rs[i].unread + 1) else rs[i]
  {
    if rs == [] then []
    else
      var r := rs[|rs| - 1];
      Bumped(rs[..|rs| - 1], user, peer, msgId)
      + [if Of(r, user, peer) then Relation(user, peer, msgId, r.unread + 1) else r]
  }

  /** INSERT INTO chat_message_relation ... ON DUPLICATE KEY UPDATE ... */
  function Upserted(rs: seq<Relation>, user: int, peer: int, msgId: string, schema: Schema): seq<Relation> {
    if schema.UniqueKey? && HasRow(rs, user, peer) then Bumped(rs, user, peer, msgId)
    else rs + [Relation(user, peer, msgId, 1)]
  }

  /** UPDATE chat_messages SET status = 1 WHERE to_uid, from_uid, status = 0 */
  function MarkedRows(ms: seq<MessageRow>, user: int, peer: int): (r: seq<MessageRow>)
    ensures |r| == |ms|
    ensures forall i :: 0 <= i < |ms| ==>
              r[i] == if UnreadFor(ms[i], user, peer) then ms[i].(status := 1) else ms[i]
  {
    if ms == [] then []
    else
      var r := ms[|ms| - 1];
      MarkedRows(ms[..|ms| - 1], user, peer) + [if UnreadFor(r, user, peer) then r.(status := 1) else r]
  }

  /** UPDATE chat_message_relation SET unread_count = 0 WHERE user_id, peer_id */
  function Cleared(rs: seq<Relation>, user: int, peer: int): (r: seq<Relation>)
    ensures |r| == |rs|
    ensures forall i :: 0 <= i < |rs| ==> r[i] == if Of(rs[i], user, peer) then rs[i].(unread := 0) else rs[i]
  {
    if rs == [] then []
    else
      var r := rs[|rs| - 1];
      Cleared(rs[..|rs| - 1], user, peer) + [if Of(r, user, peer) then r.(unread := 0) else r]
  }

  // ---------------------------------------------------------------- runs

  datatype Op = Save(m: Message) | MarkRead(uid: int, peerId: int)

  function Apply(t: Tables, op: Op, schema: Schema): Tables {
    match op
    case Save(m) =>
      Tables(t.messages + [MessageRow(m, 0)], Upserted(t.relations, m.toUid, m.fromUid, m.msgId, schema))
    case MarkRead(u, p) => Tables(MarkedRows(t.messages, u, p), Cleared(t.relations, u, p))
  }

  /** A run is read from its end, so that a history is extended by its last call. */
  function After(ops: seq<Op>, schema: Schema): Tables {
    if ops == [] then Tables([], [])
    else Apply(After(ops[..|ops| - 1], schema), ops[|ops| - 1], schema)
  }

  predicate SavesFor(op: Op, user: int, peer: int) {
    op.Save? && op.m.toUid == user && op.m.fromUid == peer
  }

  /** What a user would count: messages from the peer since the last mark-read. */
  function SavedSinceRead(ops: seq<Op>, user: int, peer: int): nat {
    if ops == [] then 0
    else
      var last, before := ops[|ops| - 1], ops[..|ops| - 1];
      if last == MarkRead(user, peer) then 0
      else SavedSinceRead(before, user, peer) + if SavesFor(last, user, peer) then 1 else 0
  }

  // ---------------------------------------------------------------- the two counts

  predicate UnreadFor(r: MessageRow, user: int, peer: int) {
    r.m.toUid == user && r.m.fromUid == peer && r.status == 0
  }

  function UnreadMessages(ms: seq<MessageRow>, user: int, peer: int): nat {
    if ms == [] then 0
    else UnreadMessages(ms[..|ms| - 1], user, peer) + if UnreadFor(ms[|ms| - 1], user, peer) then 1 else 0
  }

  /** The unread_count of a pair, over all its rows. */
  function UnreadTotal(rs: seq<Relation>, user: int, peer: int): int {
    if rs == [] then 0
    else UnreadTotal(rs[..|rs| - 1], user, peer) + if Of(rs[|rs| - 1], user, peer) then rs[|rs| - 1].unread else 0
  }

  lemma UnreadMessagesAppend(ms: seq<MessageRow>, r: MessageRow, user: int, peer: int)
    ensures UnreadMessages(ms + [r], user, peer)
         == UnreadMessages(ms, user, peer) + if UnreadFor(r, user, peer) then 1 else 0
  {
    assert (ms + [r])[..|ms|] == ms;
  }

  lemma {:induction false} MarkedCount(ms: seq<MessageRow>, u: int, p: int, user: int, peer: int)
    ensures UnreadMessages(MarkedRows(ms, u, p), user, peer)
         == if u == user && p == peer then 0 else UnreadMessages(ms, user, peer)
  {
    if ms != [] {
      var n := |ms| - 1;
      MarkedCount(ms[..n], u, p, user, peer);
      assert MarkedRows(ms, u, p)[..n] == MarkedRows(ms[..n], u, p);
    }
  }

  lemma UnreadTotalAppend(rs: seq<Relation>, r: Relation, user: int, peer: int)
    ensures UnreadTotal(rs + [r], user, peer)
         == UnreadTotal(rs, user, peer) + if Of(r, user, peer) then r.unread else 0
  {
    assert (rs + [r])[..|rs|] == rs;
  }

  lemma {:induction false} ClearedTotal(rs: seq<Relation>, u: int, p: int, user: int, peer: int)
    ensures UnreadTotal(Cleared(rs, u, p), user, peer)
         == if u == user && p == peer then 0 else UnreadTotal(rs, user, peer)
  {
    if rs != [] {
      var n := |rs| - 1;
      ClearedTotal(rs[..n], u, p, user, peer);
      assert Cleared(rs, u, p)[..n] == Cleared(rs[..n], u, p);
    }
  }

  function RowsOf(rs: seq<Relation>, user: int, peer: int): nat {
    if rs == [] then 0
    else RowsOf(rs[..|rs| - 1], user, peer) + if Of(rs[|rs| - 1], user, peer) then 1 else 0
  }

  lemma {:induction false} HasRowCounts(rs: seq<Relation>, user: int, peer: int)
    ensures HasRow(rs, user, peer) <==> RowsOf(rs, user, peer) > 0
  {
    if rs != [] {
      var n := |rs| - 1;
      HasRowCounts(rs[..n], user, peer);
      if HasRow(rs, user, peer) {
        var i :| 0 <= i < |rs| && Of(rs[i], user, peer);
        if i < n {
          assert Of(rs[..n][i], user, peer);
        }
      } else {
        assert forall i :: 0 <= i < n ==> rs[..n][i] == rs[i];
      }
    }
  }

  lemma {:induction false} BumpedTotal(rs: seq<Relation>, u: int, p: int, id: string, user: int, peer: int)
    ensures RowsOf(Bumped(rs, u, p, id), user, peer) == RowsOf(rs, user, peer)
    ensures UnreadTotal(Bumped(rs, u, p, id), user, peer)
         == UnreadTotal(rs, user, peer) + if u == user && p == peer then RowsOf(rs, user, peer) else 0
  {
    if rs != [] {
      var n := |rs| - 1;
      BumpedTotal(rs[..n], u, p, id, user, peer);
      assert Bumped(rs, u, p, id)[..n] == Bumped(rs[..n], u, p, id);
    }
  }

  lemma {:induction false} ClearedRows(rs: seq<Relation>, u: int, p: int, user: int, peer: int)
    ensures RowsOf(Cleared(rs, u, p), user, peer) == RowsOf(rs, user, peer)
  {
    if rs != [] {
      var n := |rs| - 1;
      ClearedRows(rs[..n], u, p, user, peer);
      assert Cleared(rs, u, p)[..n] == Cleared(rs[..n], u, p);
    }
  }

  lemma RowsAppend(rs: seq<Relation>, r: Relation, user: int, peer: int)
    ensures RowsOf(rs + [r], user, peer) == RowsOf(rs, user, peer) + if Of(r, user, peer) then 1 else 0
  {
    assert (rs + [r])[..|rs|] == rs;
  }

  /** Number of saves ever made for a pair. */
  function SavedEver(ops: seq<Op>, user: int, peer: int): nat {
    if ops == [] then 0
    else SavedEver(ops[..|ops| - 1], user, peer) + if SavesFor(ops[|ops| - 1], user, peer) then 1 else 0
  }

  /** A unique key keeps one row for each pair ever written to; without it there is a row for
      every save. */
  lemma {:induction false} RowsKept(ops: seq<Op>, schema: Schema, user: int, peer: int)
    ensures var rows := RowsOf(After(ops, schema).relations, user, peer);
            rows == if schema.UniqueKey? && SavedEver(ops, user, peer) > 0 then 1 else SavedEver(ops, user, peer)
  {
    if ops != [] {
      var n := |ops| - 1;
      RowsKept(ops[..n], schema, user, peer);
      var rs := After(ops[..n], schema).relations;
      match ops[n]
      case MarkRead(u, p) => ClearedRows(rs, u, p, user, peer);
      case Save(m) =>
        BumpedTotal(rs, m.toUid, m.fromUid, m.msgId, user, peer);
        RowsAppend(rs, Relation(m.toUid, m.fromUid, m.msgId, 1), user, peer);
        HasRowCounts(rs, m.toUid, m.fromUid);
    }
  }

  /** A save adds one to the total of its own pair, given that a unique key keeps one row. */
  lemma UpsertedTotal(rs: seq<Relation>, u: int, p: int, id: string, schema: Schema, user: int, peer: int)
    requires schema.UniqueKey? ==> RowsOf(rs, u, p) <= 1
    ensures UnreadTotal(Upserted(rs, u, p, id, schema), user, peer)
         == UnreadTotal(rs, user, peer) + if u == user && p == peer then 1 else 0
  {
    UnreadTotalAppend(rs, Relation(u, p, id, 1), user, peer);
    BumpedTotal(rs, u, p, id, user, peer);
    HasRowCounts(rs, u, p);
  }

  /** Accounting, under either schema and over every run of complete calls: the messages still
      unread, and the unread_count of the pair summed over its rows, are both the messages
      saved since the user last marked the peer's as read. */
  lemma {:induction false} CountsAgree(ops: seq<Op>, schema: Schema, user: int, peer: int)
    ensures UnreadMessages(After(ops, schema).messages, user, peer) == SavedSinceRead(ops, user, peer)
    ensures UnreadTotal(After(ops, schema).relations, user, peer) == SavedSinceRead(ops, user, peer)
  {
    if ops != [] {
      var n := |ops| - 1;
      CountsAgree(ops[..n], schema, user, peer);
      var t := After(ops[..n], schema);
      match ops[n]
      case MarkRead(u, p) =>
        MarkedCount(t.messages, u, p, user, peer);
        ClearedTotal(t.relations, u, p, user, peer);
      case Save(m) =>
        UnreadMessagesAppend(t.messages, MessageRow(m, 0), user, peer);
        RowsKept(ops[..n], schema, m.toUid, m.fromUid);
        UpsertedTotal(t.relations, m.toUid, m.fromUid, m.msgId, schema, user, peer);
    }
  }

  // ---------------------------------------------------------------- the message rows themselves

  function Saves(ops: seq<Op>): nat {
    if ops == [] then 0 else Saves(ops[..|ops| - 1]) + if ops[|ops| - 1].Save? then 1 else 0
  }

  /** The recipient of the message saved by call `i` has since marked its sender's as read. */
  ghost predicate ReadSince(ops: seq<Op>, i: nat)
    requires i < |ops| && ops[i].Save?
  {
    exists j :: i < j < |ops| && ops[j] == MarkRead(ops[i].m.toUid, ops[i].m.fromUid)
  }

  lemma {:induction false} RowsAreSaves(ops: seq<Op>, schema: Schema)
    ensures |After(ops, schema).messages| == Saves(ops)
  {
    if ops != [] {
      RowsAreSaves(ops[..|ops| - 1], schema);
    }
  }

  /** What one more call does to a row that is there. */
  lemma RowKept(t: Tables, op: Op, schema: Schema, k: nat, m: Message, status: int)
    requires k < |t.messages| && t.messages[k] == MessageRow(m, status)
    ensures k < |Apply(t, op, schema).messages|
    ensures Apply(t, op, schema).messages[k] ==
            MessageRow(m, if op == MarkRead(m.toUid, m.fromUid) && status == 0 then 1 else status)
  {
  }

  lemma ReadSinceNext(ops: seq<Op>, i: nat)
    requires i < |ops| - 1 && ops[i].Save?
    ensures ReadSince(ops, i) <==>
            ReadSince(ops[..|ops| - 1], i) || ops[|ops| - 1] == MarkRead(ops[i].m.toUid, ops[i].m.fromUid)
  {
    var n := |ops| - 1;
    assert forall j :: 0 <= j < n ==> ops[..n][j] == ops[j];
    if ReadSince(ops, i) {
      var j :| i < j < |ops| && ops[j] == MarkRead(ops[i].m.toUid, ops[i].m.fromUid);
      if j < n {
        assert ops[..n][j] == ops[j];
      }
    }
  }

  /** Over every run, each saved message is in the table as it was saved, in the order of the
      saves, with status 1 if it has been marked as read since and 0 otherwise. */
  lemma {:induction false} MessageKept(ops: seq<Op>, schema: Schema, i: nat)
    requires i < |ops| && ops[i].Save?
    ensures Saves(ops[..i]) < |After(ops, schema).messages|
    ensures After(ops, schema).messages[Saves(ops[..i])] == MessageRow(ops[i].m, if ReadSince(ops, i) then 1 else 0)
  {
    var n := |ops| - 1;
    var before := ops[..n];
    if i < n {
      MessageKept(before, schema, i);
      assert before[..i] == ops[..i];
      ReadSinceNext(ops, i);
      var status := if ReadSince(before, i) then 1 else 0;
      assert After(before, schema).messages[Saves(ops[..i])] == MessageRow(ops[i].m, status);
      RowKept(After(before, schema), ops[n], schema, Saves(ops[..i]), ops[i].m, status);
      assert After(ops, schema) == Apply(After(before, schema), ops[n], schema);
    } else {
      LastKept(ops, schema);
    }
  }

  lemma LastKept(ops: seq<Op>, schema: Schema)
    requires ops != [] && ops[|ops| - 1].Save?
    ensures var n := |ops| - 1;
            && Saves(ops[..n]) < |After(ops, schema).messages|
            && !ReadSince(ops, n)
            && After(ops, schema).messages[Saves(ops[..n])] == MessageRow(ops[n].m, 0)
  {
    var n := |ops| - 1;
    RowsAreSaves(ops[..n], schema);
    var t := After(ops[..n], schema);
    assert After(ops, schema).messages == t.messages + [MessageRow(ops[n].m, 0)];
  }

  // ---------------------------------------------------------------- the newest row of a pair

  /** The row of a pair with the largest id. */
  function Newest(rs: seq<Relation>, user: int, peer: int): Option<Relation> {
    if rs == [] then None
    else if Of(rs[|rs| - 1], user, peer) then Some(rs[|rs| - 1])
    else Newest(rs[..|rs| - 1], user, peer)
  }

  /** Id of the last message saved for the pair. */
  function LastSaved(ops: seq<Op>, user: int, peer: int): Option<string> {
    if ops == [] then None
    else if SavesFor(ops[|ops| - 1], user, peer) then Some(ops[|ops| - 1].m.msgId)
    else LastSaved(ops[..|ops| - 1], user, peer)
  }

  lemma {:induction false} NewestBumped(rs: seq<Relation>, u: int, p: int, id: string, user: int, peer: int)
    ensures var r := Newest(rs, user, peer);
            Newest(Bumped(rs, u, p, id), user, peer) ==
            if r.Some? && u == user && p == peer then Some(Relation(user, peer, id, r.value.unread + 1)) else r
  {
    if rs != [] {
      NewestBumped(rs[..|rs| - 1], u, p, id, user, peer);
      assert Bumped(rs, u, p, id)[..|rs| - 1] == Bumped(rs[..|rs| - 1], u, p, id);
    }
  }

  lemma {:induction false} NewestCleared(rs: seq<Relation>, u: int, p: int, user: int, peer: int)
    ensures var r := Newest(rs, user, peer);
            Newest(Cleared(rs, u, p), user, peer) ==
            if r.Some? && u == user && p == peer then Some(r.value.(unread := 0)) else r
  {
    if rs != [] {
      NewestCleared(rs[..|rs| - 1], u, p, user, peer);
      assert Cleared(rs, u, p)[..|rs| - 1] == Cleared(rs[..|rs| - 1], u, p);
    }
  }

  lemma {:induction false} NewestExists(rs: seq<Relation>, user: int, peer: int)
    ensures Newest(rs, user, peer).Some? <==> RowsOf(rs, user, peer) > 0
    ensures Newest(rs, user, peer).Some? ==> Of(Newest(rs, user, peer).value, user, peer)
  {
    if rs != [] {
      NewestExists(rs[..|rs| - 1], user, peer);
    }
  }

  /** What the newest row counts: everything under a unique key, only the last save without. */
  function RowCount(saved: nat, schema: Schema): nat {
    if schema.PlainIndex? && saved > 1 then 1 else saved
  }

  /** The upsert of a save, seen from the newest row. */
  lemma NewestUpserted(rs: seq<Relation>, u: int, p: int, id: string, schema: Schema, user: int, peer: int)
    ensures var r := Newest(rs, user, peer);
            Newest(Upserted(rs, u, p, id, schema), user, peer) ==
            if u == user && p == peer
            then Some(Relation(user, peer, id, if r.Some? && schema.UniqueKey? then r.value.unread + 1 else 1))
            else r
  {
    NewestBumped(rs, u, p, id, user, peer);
    HasRowCounts(rs, u, p);
    NewestExists(rs, u, p);
    var row := Relation(u, p, id, 1);
    assert (rs + [row])[..|rs|] == rs;
  }

  /** last_msg_id of the newest row is the last message saved for the pair, and its
      unread_count is all unread messages, or without a unique key at most one of them. */
  lemma {:induction false} NewestRow(ops: seq<Op>, schema: Schema, user: int, peer: int)
    ensures var r := Newest(After(ops, schema).relations, user, peer);
            && (r.Some? <==> LastSaved(ops, user, peer).Some?)
            && (r.Some? ==> && r.value.lastMsgId == LastSaved(ops, user, peer).value
                            && r.value.unread == RowCount(SavedSinceRead(ops, user, peer), schema))
            && (r.None? ==> SavedSinceRead(ops, user, peer) == 0)
  {
    if ops != [] {
      var n := |ops| - 1;
      NewestRow(ops[..n], schema, user, peer);
      var rs := After(ops[..n], schema).relations;
      match ops[n]
      case MarkRead(u, p) => NewestCleared(rs, u, p, user, peer);
      case Save(m) =>
        NewestUpserted(rs, m.toUid, m.fromUid, m.msgId, schema, user, peer);
    }
  }

  /** One row tells the whole unread count exactly when the key is unique or at most one
      message has come in since the last mark-read. */
  lemma OneRowSuffices(ops: seq<Op>, schema: Schema, user: int, peer: int)
    requires LastSaved(ops, user, peer).Some?
    ensures var r := Newest(After(ops, schema).relations, user, peer);
            && r.Some?
            && (r.value.unread == UnreadMessages(After(ops, schema).messages, user, peer) <==>
                schema.UniqueKey? || SavedSinceRead(ops, user, peer) <= 1)
  {
    NewestRow(ops, schema, user, peer);
    CountsAgree(ops, schema, user, peer);
  }

  /** The shipped schema misses it after two messages. */
  lemma ShippedSchemaMiscounts(a: Message, b: Message)
    requires a.toUid == b.toUid && a.fromUid == b.fromUid
    ensures var t := After([Save(a), Save(b)], PlainIndex);
            var r := Newest(t.relations, a.toUid, a.fromUid);
            r.Some? && r.value.unread == 1 && UnreadMessages(t.messages, a.toUid, a.fromUid) == 2
  {
    var ops := [Save(a), Save(b)];
    assert ops[..1] == [Save(a)] && [Save(a)][..0] == [];
    assert LastSaved(ops, a.toUid, a.fromUid) == Some(b.msgId);
    assert SavedSinceRead([Save(a)], a.toUid, a.fromUid) == 1;
    NewestRow(ops, PlainIndex, a.toUid, a.fromUid);
    CountsAgree(ops, PlainIndex, a.toUid, a.fromUid);
  }

  // ---------------------------------------------------------------- imperative form

  /** How far the two statements of a call get. */
  datatype Outcome = FirstThrows | SecondThrows | Completes

  class MessageTables {
    const schema: Schema
    var messages: seq<MessageRow>
    var relations: seq<Relation>

    constructor (s: Schema)
      ensures schema == s && Abs() == After([], s)
    {
      schema, messages, relations := s, [], [];
    }

    ghost function Abs(): Tables
      reads this
    {
      Tables(messages, relations)
    }

    /** SaveChatMessage. The two statements are not one transaction. */
    method SaveChatMessage(m: Message, outcome: Outcome) returns (ok: bool)
      modifies this
      ensures ok <==> outcome.Completes?
      ensures ok ==> Abs() == Apply(old(Abs()), Save(m), schema)
      ensures outcome.FirstThrows? ==> Abs() == old(Abs())
      ensures outcome.SecondThrows? ==>
                messages == old(messages) + [MessageRow(m, 0)] && relations == old(relations)
    {
      if outcome.FirstThrows? {
        return false;
      }
      messages := messages + [MessageRow(m, 0)];
      if outcome.SecondThrows? {
        return false;
      }
      if schema.UniqueKey? && exists i :: 0 <= i < |relations| && Of(relations[i], m.toUid, m.fromUid) {
        relations := Bumped(relations, m.toUid, m.fromUid, m.msgId);
      } else {
        relations := relations + [Relation(m.toUid, m.fromUid, m.msgId, 1)];
      }
      ok := true;
    }

    /** MarkMessagesAsRead. */
    method MarkMessagesAsRead(uid: int, peerId: int, outcome: Outcome) returns (ok: bool)
      modifies this
      ensures ok <==> outcome.Completes?
      ensures ok ==> Abs() == Apply(old(Abs()), MarkRead(uid, peerId), schema)
      ensures outcome.FirstThrows? ==> Abs() == old(Abs())
      ensures outcome.SecondThrows? ==>
                messages == MarkedRows(old(messages), uid, peerId) && relations == old(relations)
    {
      if outcome.FirstThrows? {
        return false;
      }
      messages := MarkedRows(messages, uid, peerId);
      if outcome.SecondThrows? {
        return false;
      }
      relations := Cleared(relations, uid, peerId);
      ok := true;
    }
  }
}
