/**
  The status server's registry of chat servers (StatusServiceImpl.cpp) and the heartbeat
  protocol the chat servers run against it (CServer.cpp, startTimer and onTimer).

  Requests, sweeps and look-ups are serialised by `_servers_mutex`, so a run is a sequence of
  events, each with the time at which it happened.
*/
module StatusRegistry {
  import opened Wrappers

  const TIMEOUT := 30       // seconds without a sign of life before eviction
  const BEAT_PERIOD := 15   // chat server timer
  const SWEEP_PERIOD := 10  // status server sweep thread
  const INT_MAX := 2147483647

  datatype ChatServer = ChatServer(host: string, port: string, name: string, connCount: int, lastHeartbeat: int)

  type Registry = map<string, ChatServer>

  datatype Reply = Success | InvalidArgument | ServerNotFound

  /** Entries are filed under their own name. */
  ghost predicate Filed(reg: Registry) {
    forall n :: n in reg ==> reg[n].name == n
  }

  // ---------------------------------------------------------------- operations

  /** RegisterChatServer's arguments; `peer` is the address the call came from. */
  datatype Registration = Registration(name: string, host: string, port: string, peer: string)

  predicate Acceptable(r: Registration) {
    r.name != "" && r.port != ""
  }

  function Registered(reg: Registry, now: int, r: Registration): Registry {
    if !Acceptable(r) then reg
    else reg[r.name := ChatServer(if r.host == "" then r.peer else r.host, r.port, r.name, 0, now)]
  }

  function Beaten(reg: Registry, now: int, name: string): Registry {
    if name in reg then reg[name := reg[name].(lastHeartbeat := now)] else reg
  }

  /** What a sweep leaves: exactly the entries not older than the timeout. */
  function Swept(reg: Registry, now: int): Registry {
    map n | n in reg && now - reg[n].lastHeartbeat <= TIMEOUT :: reg[n]
  }

  /** A look-up only rewrites load figures. */
  function Recounted(reg: Registry, counts: map<string, int>): Registry {
    map n | n in reg :: if n in counts then reg[n].(connCount := counts[n]) else reg[n]
  }

  // ---------------------------------------------------------------- runs

  datatype Op =
    | Register(r: Registration)
    | Heartbeat(name: string)
    | Sweep
    | LookUp(counts: map<string, int>)

  datatype Event = Event(at: int, op: Op)

  function Apply(reg: Registry, e: Event): Registry {
    match e.op
    case Register(r) => Registered(reg, e.at, r)
    case Heartbeat(n) => Beaten(reg, e.at, n)
    case Sweep => Swept(reg, e.at)
    case LookUp(counts) => Recounted(reg, counts)
  }

  function After(reg: Registry, es: seq<Event>): Registry
    decreases |es|
  {
    if es == [] then reg else After(Apply(reg, es[0]), es[1..])
  }

  /** The clock does not go back, from `since` through all events to `until`. */
  predicate Ordered(since: int, es: seq<Event>, until: int)
    decreases |es|
  {
    if es == [] then since <= until else since <= es[0].at && Ordered(es[0].at, es[1..], until)
  }

  /** An event by which the status server hears from `n`, if it knows it. */
  predicate Contact(e: Event, n: string) {
    match e.op
    case Register(r) => Acceptable(r) && r.name == n
    case Heartbeat(m) => m == n
    case _ => false
  }

  lemma ApplyEffect(reg: Registry, e: Event, n: string)
    requires n in reg
    ensures Contact(e, n) ==> n in Apply(reg, e) && Apply(reg, e)[n].lastHeartbeat == e.at
    ensures e.op.Sweep? ==> (n in Apply(reg, e) <==> e.at - reg[n].lastHeartbeat <= TIMEOUT)
    ensures n in Apply(reg, e) && !Contact(e, n) ==> Apply(reg, e)[n].lastHeartbeat == reg[n].lastHeartbeat
    ensures !e.op.Sweep? ==> n in Apply(reg, e)
  {
  }

  // ---------------------------------------------------------------- eviction, exactly

  /** At every sweep, `n` was heard from at most TIMEOUT seconds before; last at `heard`. */
  predicate Covered(heard: int, es: seq<Event>, n: string)
    decreases |es|
  {
    es == [] ||
    if Contact(es[0], n) then Covered(es[0].at, es[1..], n)
    else (es[0].op.Sweep? ==> es[0].at - heard <= TIMEOUT) && Covered(heard, es[1..], n)
  }

  ghost predicate AlwaysRegistered(reg: Registry, es: seq<Event>, n: string) {
    forall k :: 0 <= k <= |es| ==> n in After(reg, es[..k])
  }

  lemma AlwaysRegisteredStep(reg: Registry, es: seq<Event>, n: string)
    requires es != [] && n in reg
    ensures AlwaysRegistered(reg, es, n) <==> AlwaysRegistered(Apply(reg, es[0]), es[1..], n)
  {
    forall k | 0 <= k <= |es[1..]|
      ensures After(reg, es[..k + 1]) == After(Apply(reg, es[0]), es[1..][..k])
    {
      assert es[..k + 1][1..] == es[1..][..k];
    }
    if AlwaysRegistered(Apply(reg, es[0]), es[1..], n) {
      forall k | 0 <= k <= |es| ensures n in After(reg, es[..k]) {
        if k > 0 {
          assert n in After(Apply(reg, es[0]), es[1..][..k - 1]);
        }
      }
    }
    if AlwaysRegistered(reg, es, n) {
      forall k | 0 <= k <= |es[1..]| ensures n in After(Apply(reg, es[0]), es[1..][..k]) {
        assert n in After(reg, es[..k + 1]);
      }
    }
  }

  /** Over every run, a registered server is never evicted exactly when each sweep comes at
      most TIMEOUT seconds after the last contact before it. */
  lemma {:induction false} EvictionExactly(reg: Registry, es: seq<Event>, n: string)
    requires n in reg
    ensures AlwaysRegistered(reg, es, n) <==> Covered(reg[n].lastHeartbeat, es, n)
    decreases |es|
  {
    if es == [] {
      assert es[..0] == [];
    } else {
      AlwaysRegisteredStep(reg, es, n);
      ApplyEffect(reg, es[0], n);
      var reg' := Apply(reg, es[0]);
      if n in reg' {
        EvictionExactly(reg', es[1..], n);
      } else {
        assert n !in After(reg', es[1..][..0]);
      }
    }
  }

  /** Successive contacts with `n`, and the end of the run, are at most `gap` apart. */
  predicate ContactsWithin(heard: int, es: seq<Event>, n: string, until: int, gap: int)
    decreases |es|
  {
    if es == [] then until - heard <= gap
    else if Contact(es[0], n) then es[0].at - heard <= gap && ContactsWithin(es[0].at, es[1..], n, until, gap)
    else ContactsWithin(heard, es[1..], n, until, gap)
  }

  lemma {:induction false} ContactsCover(heard: int, since: int, es: seq<Event>, n: string, until: int)
    requires heard <= since && Ordered(since, es, until)
    requires ContactsWithin(heard, es, n, until, TIMEOUT)
    ensures Covered(heard, es, n) && since - heard <= TIMEOUT
    decreases |es|
  {
    if es != [] {
      ContactsCover(if Contact(es[0], n) then es[0].at else heard, es[0].at, es[1..], n, until);
    }
  }

  /** A chat server whose beats arrive at most two periods apart, that is with no two beats in
      a row lost, stays registered throughout, whatever other servers and sweeps do. */
  lemma OneMissedBeatIsTolerated(reg: Registry, es: seq<Event>, n: string, until: int)
    requires n in reg && Ordered(reg[n].lastHeartbeat, es, until)
    requires ContactsWithin(reg[n].lastHeartbeat, es, n, until, 2 * BEAT_PERIOD)
    ensures AlwaysRegistered(reg, es, n)
  {
    var heard := reg[n].lastHeartbeat;
    ContactsCover(heard, heard, es, n, until);
    EvictionExactly(reg, es, n);
  }

  /** Two beats in a row lost are not: a sweep one second later evicts. */
  lemma TwoMissedBeatsEvict(r: Registration, t: int)
    requires Acceptable(r)
    ensures r.name !in After(map[], [Event(t, Register(r)), Event(t + 2 * BEAT_PERIOD + 1, Sweep)])
  {
    var first := Registered(map[], t, r);
    var e := Event(t + 2 * BEAT_PERIOD + 1, Sweep);
    assert After(first, [e]) == After(Swept(first, e.at), [e][1..]);
    assert [Event(t, Register(r)), e][1..] == [e];
  }

  // ---------------------------------------------------------------- the timer contact

  function BeatReply(reg: Registry, n: string): Reply {
    if n in reg then Success else ServerNotFound
  }

  /** onTimer with both calls reaching the status server: a beat at `t1`, and if the answer is
      ServerNotFound a registration at `t2`, with any events of others in between. */
  function TimerEvents(reg: Registry, r: Registration, t1: int, others: seq<Event>, t2: int): seq<Event> {
    [Event(t1, Heartbeat(r.name))] +
    if BeatReply(reg, r.name).ServerNotFound? then others + [Event(t2, Register(r))] else []
  }

  lemma {:induction false} AfterAppend(reg: Registry, xs: seq<Event>, ys: seq<Event>)
    ensures After(reg, xs + ys) == After(After(reg, xs), ys)
    decreases |xs|
  {
    if xs == [] {
      assert xs + ys == ys;
    } else {
      assert (xs + ys)[1..] == xs[1..] + ys;
      AfterAppend(Apply(reg, xs[0]), xs[1..], ys);
    }
  }

  /** After a completed contact the chat server is registered and stamped with the time of its
      last call, evicted before or not. */
  lemma TimerContactRegisters(reg: Registry, r: Registration, t1: int, others: seq<Event>, t2: int)
    requires Acceptable(r)
    ensures var after := After(reg, TimerEvents(reg, r, t1, others, t2));
            && r.name in after
            && after[r.name].lastHeartbeat == (if r.name in reg then t1 else t2)
  {
    var beat := [Event(t1, Heartbeat(r.name))];
    assert After(reg, beat) == After(Beaten(reg, t1, r.name), beat[1..]);
    if r.name !in reg {
      var again := [Event(t2, Register(r))];
      AfterAppend(reg, beat, others + again);
      AfterAppend(After(reg, beat), others, again);
      var mid := After(After(reg, beat), others);
      assert After(mid, again) == After(Registered(mid, t2, r), again[1..]);
    } else {
      assert beat + [] == beat;
    }
  }

  // ---------------------------------------------------------------- staleness of what is handed out

  /** Time of the last sweep, or of the start of the status server. */
  function LastSweep(start: int, es: seq<Event>): int
    decreases |es|
  {
    if es == [] then start else LastSweep(if es[0].op.Sweep? then es[0].at else start, es[1..])
  }

  ghost predicate HeardBetween(reg: Registry, from: int, to: int) {
    forall n :: n in reg ==> from <= reg[n].lastHeartbeat <= to
  }

  lemma {:induction false} FreshAfter(reg: Registry, swept: int, since: int, es: seq<Event>, until: int)
    requires swept <= since && Ordered(since, es, until) && HeardBetween(reg, swept - TIMEOUT, since)
    ensures HeardBetween(After(reg, es), LastSweep(swept, es) - TIMEOUT, until)
    decreases |es|
  {
    if es != [] {
      var e := es[0];
      var reg' := Apply(reg, e);
      assert HeardBetween(reg', (if e.op.Sweep? then e.at else swept) - TIMEOUT, e.at);
      FreshAfter(reg', if e.op.Sweep? then e.at else swept, e.at, es[1..], until);
    }
  }

  /** In every run of a status server, every server it can hand out was heard from no earlier
      than TIMEOUT before the last sweep; with a sweep in the last SWEEP_PERIOD seconds, no
      more than TIMEOUT + SWEEP_PERIOD seconds ago. */
  lemma HandedOutIsRecent(start: int, es: seq<Event>, now: int, n: string)
    requires Ordered(start, es, now) && n in After(map[], es)
    ensures LastSweep(start, es) - TIMEOUT <= After(map[], es)[n].lastHeartbeat <= now
    ensures now - LastSweep(start, es) <= SWEEP_PERIOD ==>
              now - After(map[], es)[n].lastHeartbeat <= TIMEOUT + SWEEP_PERIOD
  {
    FreshAfter(map[], start, start, es, now);
  }

  // ---------------------------------------------------------------- imperative form

  /** An answer of `hget LOGIN_COUNT name`. */
  datatype CountReply = Missing | Count(n: int) | Malformed

  function CountOf(r: CountReply): int
    requires !r.Malformed?
  {
    if r.Missing? then INT_MAX else r.n
  }

  predicate Distinct(order: seq<string>) {
    forall i, j :: 0 <= i < j < |order| ==> order[i] != order[j]
  }

  predicate AllIn(order: seq<string>, reg: Registry) {
    forall i :: 0 <= i < |order| ==> order[i] in reg
  }

  /** `order` is an iteration order of the map. */
  ghost predicate Enumerates(order: seq<string>, reg: Registry) {
    Distinct(order) && AllIn(order, reg) && forall n :: n in reg ==> n in order
  }

  /** `m` is the least loaded of the first `k` servers, the earliest among equals. */
  ghost predicate LeastLoaded(reg: Registry, order: seq<string>, k: nat, m: nat)
    requires k <= |order| && AllIn(order, reg)
  {
    && m < k
    && (forall i :: 0 <= i < k ==> reg[order[m]].connCount <= reg[order[i]].connCount)
    && (forall i :: 0 <= i < m ==> reg[order[m]].connCount < reg[order[i]].connCount)
  }

  /** `server` is the entry of the least loaded server. */
  ghost predicate IsLeast(reg: Registry, order: seq<string>, server: ChatServer) {
    AllIn(order, reg) &&
    exists m :: 0 <= m < |order| && server == reg[order[m]] && LeastLoaded(reg, order, |order|, m)
  }

  /** A server of figure `a` is no more loaded than one of figure `b`; a missing figure is as good
      as the largest int. */
  predicate NoMoreLoaded(a: CountReply, b: CountReply) {
    match (a, b)
    case (Count(n), Count(k)) => n <= k
    case (Count(n), Missing) => n <= 2147483647
    case (Missing, Count(k)) => 2147483647 <= k
    case (Missing, Missing) => true
    case _ => false
  }

  /** Of the figures last read, that of server number `m` is the least, the earliest of equals. */
  ghost predicate LeastReply(replies: seq<CountReply>, m: nat)
    requires m + 1 < |replies|
  {
    forall i :: 1 <= i < |replies| ==>
      NoMoreLoaded(replies[m + 1], replies[i]) && (i < m + 1 ==> !NoMoreLoaded(replies[i], replies[m + 1]))
  }

  /** The server in place `m` is handed out, with the figure read for it. */
  ghost predicate Chosen(reg: Registry, order: seq<string>, replies: seq<CountReply>, m: nat, server: ChatServer)
    requires m < |order| && |replies| == |order| + 1
  {
    && order[m] in reg && server == reg[order[m]] && LeastReply(replies, m)
    && server.connCount == match replies[m + 1]
                           case Count(n) => n
                           case _ => 2147483647
  }

  lemma ChosenFromLeast(reg: Registry, order: seq<string>, replies: seq<CountReply>, server: ChatServer)
    requires |replies| == |order| + 1
    requires Carries(reg, order, replies, |order|) && IsLeast(reg, order, server)
    ensures exists m :: 0 <= m < |order| && Chosen(reg, order, replies, m, server)
  {
    var m :| 0 <= m < |order| && server == reg[order[m]] && LeastLoaded(reg, order, |order|, m);
    LeastOfReplies(reg, order, replies, m);
    assert reg[order[m]].connCount == CountOf(replies[m + 1]);
    assert Chosen(reg, order, replies, m, server);
  }

  /** What is least of the recorded figures is least of the figures read. */
  lemma LeastOfReplies(reg: Registry, order: seq<string>, replies: seq<CountReply>, m: nat)
    requires |replies| == |order| + 1 && AllIn(order, reg) && Carries(reg, order, replies, |order|)
    requires LeastLoaded(reg, order, |order|, m)
    ensures LeastReply(replies, m)
  {
    forall i | 1 <= i < |replies|
      ensures NoMoreLoaded(replies[m + 1], replies[i])
      ensures i < m + 1 ==> !NoMoreLoaded(replies[i], replies[m + 1])
    {
      assert reg[order[i - 1]].connCount == CountOf(replies[i]);
      assert reg[order[m]].connCount == CountOf(replies[m + 1]);
    }
  }

  ghost predicate SomeMalformed(replies: seq<CountReply>) {
    exists i :: 0 <= i < |replies| && replies[i].Malformed?
  }

  /** Only load figures differ. */
  ghost predicate SameButCounts(before: Registry, after: Registry) {
    && after.Keys == before.Keys
    && forall n :: n in after ==> after[n] == before[n].(connCount := after[n].connCount)
  }

  /** The first `k` servers carry the figures last read for them. */
  ghost predicate Carries(reg: Registry, order: seq<string>, replies: seq<CountReply>, k: nat)
    requires k <= |order| && |replies| == |order| + 1
  {
    && (forall j :: 0 <= j <= k ==> !replies[j].Malformed?)
    && (forall j :: 0 <= j < k ==> order[j] in reg && reg[order[j]].connCount == CountOf(replies[j + 1]))
  }

  function Recorded(reg: Registry, name: string, reply: CountReply): Registry
    requires name in reg && !reply.Malformed?
  {
    reg[name := reg[name].(connCount := CountOf(reply))]
  }

  lemma SameStep(orig: Registry, reg: Registry, name: string, reply: CountReply)
    requires SameButCounts(orig, reg) && name in reg && !reply.Malformed?
    ensures SameButCounts(orig, Recorded(reg, name, reply))
  {
    var reg' := Recorded(reg, name, reply);
    forall n | n in reg' ensures reg'[n] == orig[n].(connCount := reg'[n].connCount) {
      assert n in reg;
    }
  }

  lemma LeastStep(reg: Registry, order: seq<string>, replies: seq<CountReply>, i: nat, min: nat)
    requires Distinct(order) && AllIn(order, reg) && i < |order| && |replies| == |order| + 1
    requires Carries(reg, order, replies, i) && !replies[i + 1].Malformed?
    requires if i == 0 then min == 0 else LeastLoaded(reg, order, i, min)
    ensures var reg' := Recorded(reg, order[i], replies[i + 1]);
            && AllIn(order, reg')
            && Carries(reg', order, replies, i + 1)
            && LeastLoaded(reg', order, i + 1,
                           if reg'[order[i]].connCount < reg'[order[min]].connCount then i else min)
  {
    var reg' := Recorded(reg, order[i], replies[i + 1]);
    assert forall j :: 0 <= j < i ==> reg'[order[j]] == reg[order[j]];
  }

  /** A look-up that changed only load figures is a look-up event of a run. */
  lemma LookUpRecounts(before: Registry, after: Registry)
    requires SameButCounts(before, after)
    ensures after == Recounted(before, map n | n in after :: after[n].connCount)
  {
  }

  // ---------------------------------------------------------------- histories

  lemma {:induction false} OrderedAppend(since: int, es: seq<Event>, until: int, e: Event)
    requires Ordered(since, es, until) && until <= e.at
    ensures Ordered(since, es + [e], e.at)
    decreases |es|
  {
    if es == [] {
      assert es + [e] == [e];
      assert [e][1..] == [];
    } else {
      assert (es + [e])[1..] == es[1..] + [e];
      OrderedAppend(es[0].at, es[1..], until, e);
    }
  }

  lemma AfterOne(reg: Registry, es: seq<Event>, e: Event)
    ensures After(reg, es + [e]) == Apply(After(reg, es), e)
  {
    AfterAppend(reg, es, [e]);
    assert [e][1..] == [];
  }

  /** The registration by which `n` last made itself known. */
  function LastRegistration(es: seq<Event>, n: string): Option<Registration> {
    if es == [] then None
    else
      match es[|es| - 1].op
      case Register(r) =>
        if r.name == n && n != "" && r.port != "" then Some(r) else LastRegistration(es[..|es| - 1], n)
      case _ => LastRegistration(es[..|es| - 1], n)
  }

  /** An entry gives the address of a registration. */
  predicate Serves(c: ChatServer, r: Registration) {
    c.name == r.name && c.port == r.port && c.host == if r.host == "" then r.peer else r.host
  }

  /** In every run, a registered server is known by the name, the port and the host of its last
      registration, or by the address it called from if that gave no host. */
  lemma {:induction false} AddressAsRegistered(es: seq<Event>, n: string)
    requires n in After(map[], es)
    ensures LastRegistration(es, n).Some? && Serves(After(map[], es)[n], LastRegistration(es, n).value)
  {
    if es != [] {
      var before, last := es[..|es| - 1], es[|es| - 1];
      assert es == before + [last];
      AfterOne(map[], before, last);
      if n in After(map[], before) {
        AddressAsRegistered(before, n);
      }
    }
  }

  lemma {:induction false} AfterFiled(reg: Registry, es: seq<Event>)
    requires Filed(reg)
    ensures Filed(After(reg, es))
    decreases |es|
  {
    if es != [] {
      AfterFiled(Apply(reg, es[0]), es[1..]);
    }
  }

  class StatusServiceImpl {
    var servers: Registry
    ghost var start: int            // when the server came up
    ghost var history: seq<Event>   // what has happened since
    ghost var clock: int            // when something last happened

    /** The registry is what its history makes of an empty one. */
    ghost predicate Valid()
      reads this
    {
      servers == After(map[], history) && Ordered(start, history, clock)
    }

    constructor (now: int)
      ensures Valid() && history == [] && start == clock == now
    {
      servers, start, history, clock := map[], now, [], now;
    }

    /** `e` has happened. */
    ghost method Happen(e: Event)
      requires After(map[], history + [e]) == servers
      requires Ordered(start, history, clock) && clock <= e.at
      modifies this`history, this`clock
      ensures Valid() && history == old(history) + [e] && clock == e.at
    {
      OrderedAppend(start, history, clock, e);
      history, clock := history + [e], e.at;
    }

    method RegisterChatServer(now: int, r: Registration) returns (reply: Reply)
      requires Valid() && clock <= now
      modifies this
      ensures Valid() && start == old(start) && clock == now
      ensures history == old(history) + [Event(now, Register(r))]
      ensures servers == Apply(old(servers), Event(now, Register(r)))
      ensures reply == if r.name == "" || r.port == "" then InvalidArgument else Success
      ensures reply.Success? ==>
                && r.name in servers && Serves(servers[r.name], r)
                && servers[r.name].connCount == 0 && servers[r.name].lastHeartbeat == now
    {
      AfterOne(map[], history, Event(now, Register(r)));
      if r.port == "" || r.name == "" {
        reply := InvalidArgument;
      } else {
        var peerHost := r.host;
        if peerHost == "" {
          peerHost := r.peer;
        }
        servers := servers[r.name := ChatServer(peerHost, r.port, r.name, 0, now)];
        reply := Success;
      }
      Happen(Event(now, Register(r)));
    }

    method Heartbeat(now: int, name: string) returns (reply: Reply)
      requires Valid() && clock <= now
      modifies this
      ensures Valid() && start == old(start) && clock == now
      ensures history == old(history) + [Event(now, Op.Heartbeat(name))]
      ensures servers == Apply(old(servers), Event(now, Op.Heartbeat(name)))
      ensures reply == if name in old(servers) then Success else ServerNotFound
      ensures servers == if name in old(servers)
                         then old(servers)[name := old(servers)[name].(lastHeartbeat := now)] else old(servers)
    {
      AfterOne(map[], history, Event(now, Op.Heartbeat(name)));
      if name !in servers {
        reply := ServerNotFound;
      } else {
        servers := servers[name := servers[name].(lastHeartbeat := now)];
        reply := Success;
      }
      Happen(Event(now, Op.Heartbeat(name)));
    }

    /** checkHeartbeat: erase while iterating. */
    method CheckHeartbeat(now: int, order: seq<string>)
      requires Valid() && clock <= now && Enumerates(order, servers)
      modifies this
      ensures Valid() && start == old(start) && clock == now && history == old(history) + [Event(now, Sweep)]
      ensures servers == Apply(old(servers), Event(now, Sweep))
      ensures forall n :: n in servers <==> n in old(servers) && now - old(servers)[n].lastHeartbeat <= 30
      ensures forall n :: n in servers ==> servers[n] == old(servers)[n]
    {
      EraseStale(now, order);
      AfterOne(map[], history, Event(now, Sweep));
      Happen(Event(now, Sweep));
    }

    /** The loop of checkHeartbeat. */
    method EraseStale(now: int, order: seq<string>)
      requires Enumerates(order, servers)
      modifies this`servers
      ensures servers == Swept(old(servers), now)
    {
      ghost var before := servers;
      for i := 0 to |order|
        invariant forall n :: n in servers <==>
                    n in before && (n in order[..i] ==> now - before[n].lastHeartbeat <= TIMEOUT)
        invariant forall n :: n in servers ==> servers[n] == before[n]
      {
        assert order[i] in order && order[i] !in order[..i];
        assert order[..i + 1] == order[..i] + [order[i]];
        var timeDiff := now - servers[order[i]].lastHeartbeat;
        if timeDiff > TIMEOUT {
          servers := servers - {order[i]};
        }
      }
      assert order[..|order|] == order;
    }

    /** GetChatServer: the least loaded server goes to the client. It is a registered one, and
        was heard from recently. */
    method GetChatServer(now: int, order: seq<string>, replies: seq<CountReply>) returns (r: Option<ChatServer>)
      requires Valid() && clock <= now && Enumerates(order, servers) && |replies| == |order| + 1
      modifies this
      ensures Valid() && start == old(start) && clock == now
      ensures |history| == |old(history)| + 1 && history[..|old(history)|] == old(history)
      ensures history[|old(history)|].op.LookUp? && SameButCounts(old(servers), servers)
      ensures r.None? <==> old(servers) == map[] || SomeMalformed(replies)
      ensures r.Some? ==>
                && Carries(servers, order, replies, |order|) && IsLeast(servers, order, r.value)
                && (exists m :: 0 <= m < |order| && Chosen(servers, order, replies, m, r.value))
                && r.value.name in servers && servers[r.value.name] == r.value
                && LastRegistration(history, r.value.name).Some?
                && Serves(r.value, LastRegistration(history, r.value.name).value)
                && LastSweep(start, history) - TIMEOUT <= r.value.lastHeartbeat <= now
                && (now - LastSweep(start, history) <= SWEEP_PERIOD ==>
                      now - r.value.lastHeartbeat <= TIMEOUT + SWEEP_PERIOD)
    {
      r := ChooseServer(order, replies);
      ghost var counts := map n | n in servers :: servers[n].connCount;
      LookUpRecounts(old(servers), servers);
      AfterOne(map[], history, Event(now, LookUp(counts)));
      Happen(Event(now, LookUp(counts)));
      AfterFiled(map[], history);
      if r.Some? {
        HandedOutIsRecent(start, history, now, r.value.name);
        AddressAsRegistered(history, r.value.name);
      }
    }

    /** getChatServer. The load figures are read one by one from Redis, that of the first
        entry twice, and may change between any two reads; a malformed one throws. */
    method ChooseServer(order: seq<string>, replies: seq<CountReply>) returns (r: Option<ChatServer>)
      requires Enumerates(order, servers) && |replies| == |order| + 1
      modifies this`servers
      ensures SameButCounts(old(servers), servers)
      ensures r.None? <==> old(servers) == map[] || SomeMalformed(replies)
      ensures r.Some? ==>
                && Carries(servers, order, replies, |order|)
                && IsLeast(servers, order, r.value)
                && exists m :: 0 <= m < |order| && Chosen(servers, order, replies, m, r.value)
    {
      if servers == map[] {
        return None;
      }
      assert order != [] by {
        var n :| n in servers;
        assert n in order;
      }
      var ok := Record(order[0], replies[0]);
      if !ok {
        return None;
      }
      SameStep(old(servers), old(servers), order[0], replies[0]);
      var min := 0;
      for i := 0 to |order|
        invariant SameButCounts(old(servers), servers) && AllIn(order, servers)
        invariant Carries(servers, order, replies, i)
        invariant if i == 0 then min == 0 else LeastLoaded(servers, order, i, min)
      {
        ghost var before := servers;
        ok := Record(order[i], replies[i + 1]);
        if !ok {
          return None;
        }
        SameStep(old(servers), before, order[i], replies[i + 1]);
        LeastStep(before, order, replies, i, min);
        if servers[order[i]].connCount < servers[order[min]].connCount {
          min := i;
        }
      }
      ChosenFromLeast(servers, order, replies, servers[order[min]]);
      r := Some(servers[order[min]]);
    }

    /** One `hget` and the assignment to conn_count. */
    method Record(name: string, reply: CountReply) returns (ok: bool)
      requires name in servers
      modifies this`servers
      ensures ok <==> !reply.Malformed?
      ensures servers == if ok then Recorded(old(servers), name, reply) else old(servers)
    {
      if reply.Malformed? {
        return false;
      }
      servers := servers[name := servers[name].(connCount := CountOf(reply))];
      ok := true;
    }
  }
}
