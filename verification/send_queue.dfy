/**
  The write side of a session (CSession.cpp): `send` may be called from any thread, each
  accepted frame is queued, and a frame is written only when the write before it completed.

  The machine keeps every outstanding `async_write` in a list, so that there is never more
  than one of them is a theorem, not a consequence of the representation.
*/
module SendQueue {
  import opened Wire

  const MAX_SENDQUE := 1000

  /** An asynchronous write in progress, `sent` bytes of which are on the wire. */
  datatype Write = Write(frame: Frame, sent: nat)

  /** `Down(cut)`: a write completed with an error after `cut` bytes of its frame. */
  datatype Health = Up | Down(cut: nat)

  datatype Sender = Sender(
    queue: seq<Frame>,      // _send_queue
    writes: seq<Write>,     // operations handed to the socket and not completed
    wire: seq<Byte>,        // bytes that left, in order
    accepted: seq<Frame>,   // every frame ever pushed
    health: Health)

  function Idle(): Sender {
    Sender([], [], [], [], Up)
  }

  datatype Event =
    | Send(frame: Frame)          // CSession::send on some thread, under _send_mutex
    | Transfer(i: nat, n: nat)    // write i puts n more bytes on the wire
    | Done(i: nat)                // handleWrite without an error
    | Fail(i: nat)                // handleWrite with an error

  predicate Enabled(s: Sender, e: Event) {
    match e
    case Send(f) => Encodable(f)
    case Transfer(i, n) =>
      i < |s.writes| && Encodable(s.writes[i].frame) && s.writes[i].sent + n <= |Encode(s.writes[i].frame)|
    case Done(i) =>
      && i < |s.writes| && Encodable(s.writes[i].frame)
      && s.writes[i].sent == |Encode(s.writes[i].frame)| && s.queue != []
    case Fail(i) => i < |s.writes|
  }

  function Without<T>(xs: seq<T>, i: nat): seq<T>
    requires i < |xs|
  {
    xs[..i] + xs[i + 1..]
  }

  function Next(s: Sender, e: Event): Sender
    requires Enabled(s, e)
  {
    match e
    case Send(f) =>
      if |s.queue| > MAX_SENDQUE then s
      else
        var pushed := s.(queue := s.queue + [f], accepted := s.accepted + [f]);
        if |s.queue| > 0 then pushed
        else pushed.(writes := s.writes + [Write(pushed.queue[0], 0)])
    case Transfer(i, n) =>
      var w := s.writes[i];
      s.(writes := s.writes[i := w.(sent := w.sent + n)],
         wire := s.wire + Encode(w.frame)[w.sent..w.sent + n])
    case Done(i) =>
      var popped := s.(queue := s.queue[1..], writes := Without(s.writes, i));
      if popped.queue == [] then popped
      else popped.(writes := popped.writes + [Write(popped.queue[0], 0)])
    case Fail(i) =>
      s.(writes := Without(s.writes, i), health := Down(s.writes[i].sent))
  }

  predicate Runs(s: Sender, es: seq<Event>)
    decreases |es|
  {
    es == [] || (Enabled(s, es[0]) && Runs(Next(s, es[0]), es[1..]))
  }

  function After(s: Sender, es: seq<Event>): Sender
    requires Runs(s, es)
    decreases |es|
  {
    if es == [] then s else After(Next(s, es[0]), es[1..])
  }

  // ---------------------------------------------------------------- what every run keeps

  /** The frames whose write completed. */
  function Completed(s: Sender): seq<Frame>
    requires |s.queue| <= |s.accepted|
  {
    s.accepted[..|s.accepted| - |s.queue|]
  }

  /** Bytes of the front frame that are on the wire. */
  function FrontSent(s: Sender): nat {
    if s.health.Down? then s.health.cut else if s.writes != [] then s.writes[0].sent else 0
  }

  ghost predicate Inv(s: Sender) {
    && AllEncodable(s.accepted)
    // the queue is what is left of the accepted frames, in acceptance order
    && |s.queue| <= |s.accepted|
    && s.accepted == Completed(s) + s.queue
    && |s.queue| <= MAX_SENDQUE + 1
    // one write at a time, and it is for the front
    && |s.writes| <= 1
    && (s.writes != [] ==> s.queue != [] && s.writes[0].frame == s.queue[0])
    // a healthy session with something queued is writing; a failed one never writes again
    && (s.health.Up? ==> (s.queue != [] <==> s.writes != []))
    && (s.health.Down? ==> s.writes == [] && s.queue != [])
    // no accepted byte is skipped, repeated or reordered
    && OnWire(s)
  }

  ghost predicate OnWire(s: Sender)
    requires |s.queue| <= |s.accepted| && AllEncodable(s.accepted) && s.accepted == Completed(s) + s.queue
  {
    if s.queue == [] then s.wire == EncodeAll(Completed(s))
    else
      && Encodable(s.queue[0]) && FrontSent(s) <= |Encode(s.queue[0])|
      && s.wire == EncodeAll(Completed(s)) + Encode(s.queue[0])[..FrontSent(s)]
  }

  lemma EncodableParts(s: Sender)
    requires |s.queue| <= |s.accepted| && AllEncodable(s.accepted) && s.accepted == Completed(s) + s.queue
    ensures AllEncodable(Completed(s)) && AllEncodable(s.queue)
  {
    forall i | 0 <= i < |s.queue| ensures Encodable(s.queue[i]) {
      assert s.queue[i] == s.accepted[|Completed(s)| + i];
    }
  }

  lemma SendKeepsInv(s: Sender, f: Frame)
    requires Inv(s) && Encodable(f)
    ensures Inv(Next(s, Send(f)))
    ensures Completed(Next(s, Send(f))) == Completed(s)
  {
    var s' := Next(s, Send(f));
    EncodableParts(s);
    if |s.queue| <= MAX_SENDQUE {
      assert Completed(s') == Completed(s);
      assert s'.accepted == Completed(s) + (s.queue + [f]);
      if s.queue == [] {
        assert s'.queue == [f] && s'.writes == [Write(f, 0)];
        assert Encode(f)[..0] == [];
        assert s.wire + [] == s.wire;
      } else {
        assert s'.queue[0] == s.queue[0] && s'.writes == s.writes;
        assert FrontSent(s') == FrontSent(s);
      }
    }
  }

  lemma TransferKeepsInv(s: Sender, i: nat, n: nat)
    requires Inv(s) && Enabled(s, Transfer(i, n))
    ensures Inv(Next(s, Transfer(i, n)))
  {
    EncodableParts(s);
    var w := s.writes[0];
    PieceJoins(EncodeAll(Completed(s)), Encode(w.frame), w.sent, n);
    assert Next(s, Transfer(i, n)).writes == [w.(sent := w.sent + n)];
  }

  lemma PieceJoins(base: seq<Byte>, bytes: seq<Byte>, at: nat, n: nat)
    requires at + n <= |bytes|
    ensures base + bytes[..at] + bytes[at..at + n] == base + bytes[..at + n]
  {
    assert bytes[..at] + bytes[at..at + n] == bytes[..at + n];
  }

  /** Completing the front moves its bytes from the front to the completed ones. */
  lemma CompletedGrows(s: Sender, q: seq<Frame>)
    requires Inv(s) && s.queue != [] && q == s.queue[1..]
    ensures AllEncodable(Completed(s))
    ensures var done := s.accepted[..|s.accepted| - |q|];
            && done == Completed(s) + [s.queue[0]]
            && AllEncodable(done)
            && EncodeAll(done) == EncodeAll(Completed(s)) + Encode(s.queue[0])
            && s.accepted == done + q
  {
    EncodableParts(s);
    EncodeAllAppend(Completed(s), [s.queue[0]]);
    assert EncodeAll([s.queue[0]]) == Encode(s.queue[0]) + EncodeAll([]);
    assert s.accepted == Completed(s) + [s.queue[0]] + s.queue[1..];
  }

  lemma DoneKeepsInv(s: Sender, i: nat)
    requires Inv(s) && Enabled(s, Done(i))
    ensures Inv(Next(s, Done(i)))
  {
    var s' := Next(s, Done(i));
    EncodableParts(s);
    CompletedGrows(s, s.queue[1..]);
    assert Without(s.writes, i) == [];
    assert Encode(s.queue[0])[..|Encode(s.queue[0])|] == Encode(s.queue[0]);
    if s'.queue != [] {
      assert s'.writes == [Write(s'.queue[0], 0)];
      assert Encode(s'.queue[0])[..0] == [];
      assert s.wire + [] == s.wire;
    }
  }

  lemma StepKeepsInv(s: Sender, e: Event)
    requires Inv(s) && Enabled(s, e)
    ensures Inv(Next(s, e))
  {
    match e
    case Send(f) => SendKeepsInv(s, f);
    case Transfer(i, n) => TransferKeepsInv(s, i, n);
    case Done(i) => DoneKeepsInv(s, i);
    case Fail(i) => assert Without(s.writes, i) == [];
  }

  /** Every interleaving of sends from any number of threads with transfers and completions. */
  lemma {:induction false} RunKeepsInv(s: Sender, es: seq<Event>)
    requires Inv(s) && Runs(s, es)
    ensures Inv(After(s, es))
    decreases |es|
  {
    if es != [] {
      StepKeepsInv(s, es[0]);
      RunKeepsInv(Next(s, es[0]), es[1..]);
    }
  }

  // ---------------------------------------------------------------- what a run promises

  lemma CutIsPrefix(done: seq<Byte>, front: seq<Byte>, rest: seq<Byte>, cut: nat)
    requires cut <= |front|
    ensures done + front[..cut] <= done + (front + rest)
  {
  }

  /** Serialisation and ordering, for every run of a new session. */
  lemma WireIsPrefixOfAccepted(es: seq<Event>)
    requires Runs(Idle(), es)
    ensures var s := After(Idle(), es);
            && AllEncodable(s.accepted)
            && s.wire <= EncodeAll(s.accepted)
            && |s.writes| <= 1 && |s.queue| <= MAX_SENDQUE + 1
            && (s.writes != [] ==> s.queue != [] && s.writes[0].frame == s.queue[0])
            && (s.queue == [] ==> s.wire == EncodeAll(s.accepted))
            && (s.queue != [] && s.writes == [] ==> s.health.Down?)
  {
    RunKeepsInv(Idle(), es);
    var s := After(Idle(), es);
    EncodableParts(s);
    EncodeAllAppend(Completed(s), s.queue);
    if s.queue != [] {
      CutIsPrefix(EncodeAll(Completed(s)), Encode(s.queue[0]), EncodeAll(s.queue[1..]), FrontSent(s));
    } else {
      assert Completed(s) == s.accepted;
    }
  }

  /** A reference that only counts: the frames accepted so far and how many have completed. */
  datatype Tally = Tally(accepted: seq<Frame>, completed: nat)

  function Count(t: Tally, e: Event): Tally {
    match e
    case Send(f) =>
      if |t.accepted| - t.completed <= MAX_SENDQUE then t.(accepted := t.accepted + [f]) else t
    case Done(_) => t.(completed := t.completed + 1)
    case _ => t
  }

  function Counted(t: Tally, es: seq<Event>): Tally
    decreases |es|
  {
    if es == [] then t else Counted(Count(t, es[0]), es[1..])
  }

  function TallyOf(s: Sender): Tally
    requires |s.queue| <= |s.accepted|
  {
    Tally(s.accepted, |s.accepted| - |s.queue|)
  }

  lemma CountStep(s: Sender, e: Event)
    requires |s.queue| <= |s.accepted| && Enabled(s, e)
    ensures |Next(s, e).queue| <= |Next(s, e).accepted|
    ensures TallyOf(Next(s, e)) == Count(TallyOf(s), e)
  {
  }

  lemma {:induction false} CountedRun(s: Sender, es: seq<Event>)
    requires |s.queue| <= |s.accepted| && Runs(s, es)
    ensures |After(s, es).queue| <= |After(s, es).accepted|
    ensures Counted(TallyOf(s), es) == TallyOf(After(s, es))
    decreases |es|
  {
    if es != [] {
      CountStep(s, es[0]);
      CountedRun(Next(s, es[0]), es[1..]);
    }
  }

  /** Over every run, a send is accepted exactly when at most MAX_SENDQUE of the frames accepted
      before have not completed; queue, socket and errors have no other say in it. */
  lemma AcceptedExactly(es: seq<Event>)
    requires Runs(Idle(), es)
    ensures |After(Idle(), es).queue| <= |After(Idle(), es).accepted|
    ensures Counted(Tally([], 0), es) == Tally(After(Idle(), es).accepted, |Completed(After(Idle(), es))|)
  {
    CountedRun(Idle(), es);
  }

  /** A failed session: the frame whose write failed is still at the front. */
  predicate Dead(s: Sender) {
    s.health.Down? && s.writes == [] && s.queue != []
  }

  lemma DeadStep(s: Sender, e: Event)
    requires Dead(s) && Enabled(s, e)
    ensures var t := Next(s, e);
            Dead(t) && t.health == s.health && t.wire == s.wire && s.queue <= t.queue
  {
  }

  lemma {:induction false} DeadRun(s: Sender, es: seq<Event>)
    requires Dead(s) && Runs(s, es)
    ensures var t := After(s, es);
            Dead(t) && t.health == s.health && t.wire == s.wire && s.queue <= t.queue
    decreases |es|
  {
    if es != [] {
      DeadStep(s, es[0]);
      DeadRun(Next(s, es[0]), es[1..]);
    }
  }

  /** After a write error no run ever hands another write to the socket or moves a byte,
      although `_b_close` is never tested: the failed frame stays at the front. */
  lemma NoWriteAfterError(before: seq<Event>, after: seq<Event>)
    requires Runs(Idle(), before) && After(Idle(), before).health.Down? && Runs(After(Idle(), before), after)
    ensures var s, t := After(Idle(), before), After(After(Idle(), before), after);
            t.health == s.health && t.writes == [] && t.wire == s.wire && s.queue <= t.queue
  {
    RunKeepsInv(Idle(), before);
    DeadRun(After(Idle(), before), after);
  }

  /** What has left this session so far parses into whole accepted frames, in acceptance order,
      from the first. */
  lemma WireParses(es: seq<Event>)
    requires Runs(Idle(), es)
    requires AllDeliverable(After(Idle(), es).accepted)
    ensures var s := After(Idle(), es);
            var p := Parse(s.wire);
            && p.end.NeedMore? && p.frames <= s.accepted
            && |s.queue| <= |s.accepted| && Completed(s) <= p.frames
            && |p.frames| <= |Completed(s)| + 1
  {
    RunKeepsInv(Idle(), es);
    var s := After(Idle(), es);
    WireIsPrefixOfAccepted(es);
    var n := |Completed(s)|;
    var k := |s.wire|;
    var all := EncodeAll(s.accepted);
    assert s.wire == all[..k];
    assert s.accepted[..n] == Completed(s);
    if s.queue == [] {
      assert n == |s.accepted|;
      PrefixFrames(s.accepted, n, k);
    } else {
      assert s.accepted[n] == s.queue[0];
      CompletedGrows(s, s.queue[1..]);
      if FrontSent(s) < |Encode(s.queue[0])| {
        PrefixFrames(s.accepted, n, k);
      } else {
        assert s.accepted[..n + 1] == Completed(s) + [s.queue[0]];
        PrefixFrames(s.accepted, n + 1, k);
      }
    }
  }

  lemma ParsePart(part: seq<Byte>, stream: seq<Byte>)
    requires Parse(stream).end.NeedMore? && part <= stream
    ensures Parse(part).end.NeedMore? && Parse(part).frames <= Parse(stream).frames
  {
    ParseExtend(part, stream[|part|..]);
    assert part + stream[|part|..] == stream;
  }

  lemma PostedPart(r: Reader, p: Parsed)
    requires ValidReader(r) && Meets(r, p) && p.end.NeedMore?
    ensures Reading(r) && r.posted <= p.frames && (Wanted(r) > 0 ==> r.posted == p.frames)
  {
  }

  /** A reader on some front part of a stream that is nowhere refused. */
  lemma ReaderOnPart(stream: seq<Byte>, chunks: seq<seq<Byte>>)
    requires Parse(stream).end.NeedMore? && Admissible(Start(), chunks) && Flatten(chunks) <= stream
    ensures var peer := Run(Start(), chunks);
            && Reading(peer) && peer.posted <= Parse(stream).frames
            && (Flatten(chunks) == stream && Wanted(peer) > 0 ==> peer.posted == Parse(stream).frames)
  {
    ReaderMeetsParse(chunks);
    ParsePart(Flatten(chunks), stream);
    PostedPart(Run(Start(), chunks), Parse(Flatten(chunks)));
  }

  /** Session to session: of whatever has left this session so far, as much as has arrived at
      the peer and however the network cut it, the peer's reader posts whole accepted frames, in
      acceptance order, from the first; and once all of it has arrived, every completed one. */
  lemma PeerReadsAccepted(es: seq<Event>, chunks: seq<seq<Byte>>)
    requires Runs(Idle(), es) && AllDeliverable(After(Idle(), es).accepted)
    requires Admissible(Start(), chunks) && Flatten(chunks) <= After(Idle(), es).wire
    ensures var s, peer := After(Idle(), es), Run(Start(), chunks);
            && peer.posted <= s.accepted && Reading(peer)
            && |s.queue| <= |s.accepted|
            && (Flatten(chunks) == s.wire && Wanted(peer) > 0 ==>
                  Completed(s) <= peer.posted && |peer.posted| <= |Completed(s)| + 1)
  {
    WireParses(es);
    ReaderOnPart(After(Idle(), es).wire, chunks);
  }

  // ---------------------------------------------------------------- imperative form

  /** The send side of a session. `writes` and `wire` stand for the socket. */
  class SessionSender {
    var queue: seq<Frame>
    var writes: seq<Write>
    var closed: bool          // _b_close
    ghost var wire: seq<Byte>
    ghost var accepted: seq<Frame>
    ghost var health: Health

    ghost function Abs(): Sender
      reads this
    {
      Sender(queue, writes, wire, accepted, health)
    }

    ghost predicate Valid()
      reads this
    {
      Inv(Abs())
    }

    constructor ()
      ensures Valid() && Abs() == Idle() && !closed
    {
      queue, writes, closed := [], [], false;
      wire, accepted, health := [], [], Up;
    }

    /** CSession::send (both overloads). */
    method Send(body: seq<Byte>, id: Short)
      requires Valid() && Encodable(Frame(id, body))
      modifies this
      ensures Valid() && Abs() == Next(old(Abs()), Event.Send(Frame(id, body)))
      ensures closed == old(closed)
    {
      StepKeepsInv(Abs(), Event.Send(Frame(id, body)));
      SendLocked(body, id);
    }

    /** Its body, under the mutex. */
    method SendLocked(body: seq<Byte>, id: Short)
      requires Encodable(Frame(id, body))
      modifies this
      ensures Abs() == Next(old(Abs()), Event.Send(Frame(id, body))) && closed == old(closed)
    {
      var queueSize := |queue|;
      if queueSize > MAX_SENDQUE {
        return;
      }
      queue := queue + [Frame(id, body)];
      accepted := accepted + [Frame(id, body)];
      if queueSize > 0 {
        return;
      }
      writes := writes + [Write(queue[0], 0)];
    }

    /** CSession::handleWrite, the completion of write `i`. */
    method HandleWrite(i: nat, error: bool)
      requires Valid() && Enabled(Abs(), if error then Fail(i) else Done(i))
      modifies this
      ensures Valid() && Abs() == Next(old(Abs()), if error then Fail(i) else Done(i))
      ensures closed == (old(closed) || error)
    {
      StepKeepsInv(Abs(), if error then Fail(i) else Done(i));
      HandleWriteLocked(i, error);
    }

    method HandleWriteLocked(i: nat, error: bool)
      requires Enabled(Abs(), if error then Fail(i) else Done(i))
      modifies this
      ensures Abs() == Next(old(Abs()), if error then Fail(i) else Done(i))
      ensures closed == (old(closed) || error)
    {
      ghost var cut := writes[i].sent;
      writes := Without(writes, i);
      if !error {
        queue := queue[1..];
        if queue != [] {
          writes := writes + [Write(queue[0], 0)];
        }
      } else {
        closed := true;
        health := Down(cut);
      }
    }
  }
}
