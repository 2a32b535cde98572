/**
  Text messages across a cluster of chat servers: DealChatTextMsgHandler (LogicSystem.cpp), the
  RPC it makes (ChatGrpcClient.cpp) and its remote end (ChatServiceImpl.cpp).

  Handlers run on thread pools, on every server, while users log in and out. A request is
  therefore split at each access to shared state, and a run is any interleaving of the steps
  of any number of requests with changes of routing keys and session bindings. A call to
  another server may be given up by the caller while the other side still works on it.
*/
module ClusterRouting {
  import opened Wrappers

  type Server = string
  type Sid = nat

  datatype Message = Message(msgId: string, fromUid: int, toUid: int, content: string, sendTime: int, msgType: int)

  datatype ErrorCode = Success | UidInvalid

  /** What is handed to CSession::send. The notification sent locally carries no message id,
      the one sent by the remote end does. */
  datatype Packet =
    | Notify(fromUid: int, toUid: int, content: string, sendTime: int, msgType: int, msgId: Option<string>)
    | Response(error: ErrorCode, fromUid: int, toUid: int, content: string, sendTime: int, msgType: int)

  /** One call of `send` on session `sid` of `server`, made for request number `req`. */
  datatype Sent = Sent(server: Server, sid: Sid, packet: Packet, req: nat)

  /** Where a request is in its handler. */
  datatype Pc =
    | Received                     // parsed, not yet saved
    | Saved                        // SaveChatMessage returned true
    | Find                         // routed here: about to ask the own UserMgr
    | Deliver(sid: Sid)            // holds the recipient's session
    | Call(server: Server)         // routed elsewhere: about to make the RPC
    | Waiting                      // in the RPC
    | Reply(error: ErrorCode)      // the deferred response is next
    | Finished(saved: bool)

  /** Where the other server is with the call. */
  datatype Remote =
    | Idle
    | RemoteFind(server: Server)
    | RemoteDeliver(server: Server, sid: Sid)
    | RemoteDone

  /** `route` is the routing key value the handler read. */
  datatype Request = Request(home: Server, sid: Sid, msg: Message, route: Option<Server>, pc: Pc, remote: Remote)

  datatype Cluster = Cluster(
    saved: seq<Message>,                  // messages whose SaveChatMessage returned true
    routing: map<int, Server>,            // uip_<uid> in Redis
    bound: map<(Server, int), Sid>,       // each server's UserMgr
    peers: set<(Server, Server)>,         // who has an RPC pool to whom
    requests: seq<Request>,
    log: seq<Sent>)                       // send calls, in order

  datatype Step =
    | Arrive(home: Server, sid: Sid, msg: Message)
    | Save(r: nat, ok: bool)
    | Route(r: nat)
    | LookUp(r: nat)                   // UserMgr::GetSession on the own server
    | Push(r: nat)                     // session->send of the notification there
    | Rpc(r: nat, reached: bool)       // NotifyTextChatMsg leaves, or finds no pool
    | RemoteLookUp(r: nat)             // GetSession on the called server
    | RemotePush(r: nat)               // its session->send
    | RpcReturns(r: nat)               // the call comes back, in order or with a failed status
    | Respond(r: nat)                  // the deferred session->send of the response
    | SetRoute(uid: int, server: Server)
    | Bind(server: Server, uid: int, sid: Sid)
    | Unbind(server: Server, uid: int)

  predicate Enabled(s: Cluster, step: Step) {
    match step
    case Save(r, ok) => r < |s.requests| && s.requests[r].pc.Received?
    case Route(r) => r < |s.requests| && s.requests[r].pc.Saved?
    case LookUp(r) => r < |s.requests| && s.requests[r].pc.Find?
    case Push(r) => r < |s.requests| && s.requests[r].pc.Deliver?
    case Rpc(r, reached) => r < |s.requests| && s.requests[r].pc.Call?
    case RemoteLookUp(r) => r < |s.requests| && s.requests[r].remote.RemoteFind?
    case RemotePush(r) => r < |s.requests| && s.requests[r].remote.RemoteDeliver?
    case RpcReturns(r) => r < |s.requests| && s.requests[r].pc.Waiting?
    case Respond(r) => r < |s.requests| && s.requests[r].pc.Reply?
    case _ => true
  }

  function NotifyPacket(q: Request, server: Server): Packet {
    Notify(q.msg.fromUid, q.msg.toUid, q.msg.content, q.msg.sendTime, q.msg.msgType,
           if server == q.home then None else Some(q.msg.msgId))
  }

  function ResponsePacket(q: Request, error: ErrorCode): Packet {
    Response(error, q.msg.fromUid, q.msg.toUid, q.msg.content, q.msg.sendTime, q.msg.msgType)
  }

  /** A request after it read its routing key. */
  function Routed(q: Request, routing: map<int, Server>): Request {
    if q.msg.toUid !in routing then q.(pc := Reply(UidInvalid))
    else
      var server := routing[q.msg.toUid];
      q.(route := Some(server), pc := if server == q.home then Find else Call(server))
  }

  /** A request after it asked its own server for the recipient's session. */
  function Found(q: Request, bound: map<(Server, int), Sid>): Request {
    var key := (q.home, q.msg.toUid);
    q.(pc := if key in bound then Deliver(bound[key]) else Reply(UidInvalid))
  }

  /** A request after its RPC left. Without a pool for that name, or when the call does not
      get through, the handler still answers Success. */
  function Called(q: Request, peers: set<(Server, Server)>, reached: bool): Request
    requires q.pc.Call?
  {
    if (q.home, q.pc.server) !in peers then q.(pc := Reply(Success))
    else q.(pc := Waiting, remote := if reached then RemoteFind(q.pc.server) else RemoteDone)
  }

  /** A call after the called server asked for the recipient's session. */
  function RemotelyFound(q: Request, bound: map<(Server, int), Sid>): Request
    requires q.remote.RemoteFind?
  {
    var key := (q.remote.server, q.msg.toUid);
    q.(remote := if key in bound then RemoteDeliver(key.0, bound[key]) else RemoteDone)
  }

  function Move(s: Cluster, r: nat, q: Request): Cluster
    requires r < |s.requests|
  {
    s.(requests := s.requests[r := q])
  }

  function Next(s: Cluster, step: Step): Cluster
    requires Enabled(s, step)
  {
    match step
    case Arrive(home, sid, msg) => s.(requests := s.requests + [Request(home, sid, msg, None, Received, Idle)])
    case Save(r, ok) =>
      var q := s.requests[r];
      if ok then Move(s, r, q.(pc := Saved)).(saved := s.saved + [q.msg])
      else Move(s, r, q.(pc := Finished(false)))
    case Route(r) => Move(s, r, Routed(s.requests[r], s.routing))
    case LookUp(r) => Move(s, r, Found(s.requests[r], s.bound))
    case Push(r) =>
      var q := s.requests[r];
      Move(s, r, q.(pc := Reply(Success)))
        .(log := s.log + [Sent(q.home, q.pc.sid, NotifyPacket(q, q.home), r)])
    case Rpc(r, reached) => Move(s, r, Called(s.requests[r], s.peers, reached))
    case RemoteLookUp(r) => Move(s, r, RemotelyFound(s.requests[r], s.bound))
    case RemotePush(r) =>
      var q := s.requests[r];
      Move(s, r, q.(remote := RemoteDone))
        .(log := s.log + [Sent(q.remote.server, q.remote.sid, NotifyPacket(q, q.remote.server), r)])
    case RpcReturns(r) => Move(s, r, s.requests[r].(pc := Reply(Success)))
    case Respond(r) =>
      var q := s.requests[r];
      Move(s, r, q.(pc := Finished(true)))
        .(log := s.log + [Sent(q.home, q.sid, ResponsePacket(q, q.pc.error), r)])
    case SetRoute(uid, server) => s.(routing := s.routing[uid := server])
    case Bind(server, uid, sid) => s.(bound := s.bound[(server, uid) := sid])
    case Unbind(server, uid) => s.(bound := s.bound - {(server, uid)})
  }

  predicate Runs(s: Cluster, steps: seq<Step>)
    decreases |steps|
  {
    steps == [] || (Enabled(s, steps[0]) && Runs(Next(s, steps[0]), steps[1..]))
  }

  function After(s: Cluster, steps: seq<Step>): Cluster
    requires Runs(s, steps)
    decreases |steps|
  {
    if steps == [] then s else After(Next(s, steps[0]), steps[1..])
  }

  function Start(peers: set<(Server, Server)>): Cluster {
    Cluster([], map[], map[], peers, [], [])
  }

  // ---------------------------------------------------------------- invariants

  function Notifications(log: seq<Sent>, r: nat): nat {
    if log == [] then 0
    else
      var last := log[|log| - 1];
      Notifications(log[..|log| - 1], r) + if last.req == r && last.packet.Notify? then 1 else 0
  }

  function Responses(log: seq<Sent>, r: nat): nat {
    if log == [] then 0
    else
      var last := log[|log| - 1];
      Responses(log[..|log| - 1], r) + if last.req == r && last.packet.Response? then 1 else 0
  }

  lemma CountsAppend(log: seq<Sent>, e: Sent, r: nat)
    ensures Notifications(log + [e], r) == Notifications(log, r) + if e.req == r && e.packet.Notify? then 1 else 0
    ensures Responses(log + [e], r) == Responses(log, r) + if e.req == r && e.packet.Response? then 1 else 0
  {
    assert (log + [e])[..|log|] == log;
  }

  /** The message of a request that got past its save. */
  predicate WasSaved(q: Request) {
    !q.pc.Received? && q.pc != Finished(false)
  }

  /** No notification can have been made yet. */
  predicate NotYetNotified(q: Request) {
    || q.remote.RemoteFind? || q.remote.RemoteDeliver?
    || (q.remote.Idle? && !q.pc.Reply? && q.pc != Finished(true))
  }

  /** A request and what it has sent so far. */
  ghost predicate RequestInv(s: Cluster, r: nat)
    requires r < |s.requests|
  {
    var q := s.requests[r];
    && (WasSaved(q) ==> q.msg in s.saved)
    && (q.pc.Received? || q.pc.Saved? || q.pc == Finished(false) ==> q.route.None?)
    && (q.pc.Find? || q.pc.Deliver? ==> q.route == Some(q.home))
    && (q.pc.Call? ==> q.route == Some(q.pc.server))
    && (!q.remote.Idle? ==> q.pc.Waiting? || q.pc.Reply? || q.pc == Finished(true))
    && (q.pc.Waiting? ==> !q.remote.Idle?)
    && (q.remote.RemoteFind? || q.remote.RemoteDeliver? ==> q.route == Some(q.remote.server))
    && Notifications(s.log, r) <= (if NotYetNotified(q) then 0 else 1)
    && Responses(s.log, r) == (if q.pc == Finished(true) then 1 else 0)
  }

  /** A send was made for a request whose message is saved: a notification on the server the
      handler was routed to, or a response on the request's own session, each with the saved
      fields. */
  ghost predicate SentInv(s: Cluster, e: Sent) {
    && e.req < |s.requests|
    && var q := s.requests[e.req];
    && WasSaved(q) && q.msg in s.saved
    && (e.packet.Notify? ==> q.route == Some(e.server))
    && (e.packet.Notify? ==> e.packet == NotifyPacket(q, e.server))
    && (e.packet.Response? ==> e.server == q.home && e.sid == q.sid && e.packet == ResponsePacket(q, e.packet.error))
  }

  ghost predicate Inv(s: Cluster) {
    && (forall r :: 0 <= r < |s.requests| ==> RequestInv(s, r))
    && (forall k :: 0 <= k < |s.log| ==> SentInv(s, s.log[k]))
  }

  /** What never changes about a request: its data, and its route once read. */
  predicate SameRequest(p: Request, q: Request) {
    && p.home == q.home && p.sid == q.sid && p.msg == q.msg
    && (p.route.Some? ==> q.route == p.route)
    && (WasSaved(p) ==> WasSaved(q))
  }

  /** A step that moves request `r` and sends nothing. */
  lemma QuietMove(s: Cluster, s': Cluster, r: nat)
    requires Inv(s) && r < |s.requests| == |s'.requests| && s' == Move(s, r, s'.requests[r]).(saved := s'.saved)
    requires forall m :: m in s.saved ==> m in s'.saved
    requires SameRequest(s.requests[r], s'.requests[r]) && RequestInv(s', r)
    ensures Inv(s')
  {
    forall i | 0 <= i < |s'.requests| ensures RequestInv(s', i) {
      if i != r {
        assert RequestInv(s, i);
      }
    }
    forall k | 0 <= k < |s'.log| ensures SentInv(s', s'.log[k]) {
      assert SentInv(s, s.log[k]);
    }
  }

  /** A step that moves request `r` and makes send `e` for it. */
  lemma SendMove(s: Cluster, s': Cluster, r: nat, e: Sent)
    requires Inv(s) && r < |s.requests| == |s'.requests| && e.req == r
    requires s' == Move(s, r, s'.requests[r]).(log := s.log + [e])
    requires SameRequest(s.requests[r], s'.requests[r]) && RequestInv(s', r) && SentInv(s', e)
    ensures Inv(s')
  {
    forall i | 0 <= i < |s'.requests| ensures RequestInv(s', i) {
      if i != r {
        assert RequestInv(s, i);
        CountsAppend(s.log, e, i);
      }
    }
    forall k | 0 <= k < |s'.log| ensures SentInv(s', s'.log[k]) {
      if k < |s.log| {
        assert SentInv(s, s.log[k]);
      }
    }
  }

  /** A step that touches neither requests nor sends. */
  lemma SameRequests(s: Cluster, s': Cluster)
    requires Inv(s) && s'.requests == s.requests && s'.log == s.log && s'.saved == s.saved
    ensures Inv(s')
  {
    forall r | 0 <= r < |s'.requests| ensures RequestInv(s', r) {
      assert RequestInv(s, r);
    }
    forall k | 0 <= k < |s'.log| ensures SentInv(s', s'.log[k]) {
      assert SentInv(s, s.log[k]);
    }
  }

  lemma ArriveKeepsInv(s: Cluster, home: Server, sid: Sid, msg: Message)
    requires Inv(s)
    ensures Inv(Next(s, Arrive(home, sid, msg)))
  {
    var s' := Next(s, Arrive(home, sid, msg));
    forall r | 0 <= r < |s'.requests| ensures RequestInv(s', r) {
      if r < |s.requests| {
        assert RequestInv(s, r);
      } else {
        NoSendsYet(s, s.log, r);
      }
    }
    forall k | 0 <= k < |s'.log| ensures SentInv(s', s'.log[k]) {
      assert SentInv(s, s.log[k]);
    }
  }

  lemma {:induction false} NoSendsYet(s: Cluster, log: seq<Sent>, r: nat)
    requires r >= |s.requests| && forall k :: 0 <= k < |log| ==> SentInv(s, log[k])
    ensures Notifications(log, r) == 0 && Responses(log, r) == 0
  {
    if log != [] {
      NoSendsYet(s, log[..|log| - 1], r);
      assert SentInv(s, log[|log| - 1]);
    }
  }

  /** The steps of a request that send nothing. */
  predicate Quiet(step: Step) {
    || step.Save? || step.Route? || step.LookUp? || step.Rpc? || step.RemoteLookUp? || step.RpcReturns?
  }

  /** What a quiet step does to its own request. */
  lemma EarlyRequest(s: Cluster, step: Step)
    requires Enabled(s, step) && (step.Save? || step.Route? || step.LookUp?) && RequestInv(s, step.r)
    ensures step.r < |Next(s, step).requests| && RequestInv(Next(s, step), step.r)
    ensures SameRequest(s.requests[step.r], Next(s, step).requests[step.r])
  {
  }

  lemma RpcRequest(s: Cluster, step: Step)
    requires Enabled(s, step) && (step.Rpc? || step.RemoteLookUp? || step.RpcReturns?) && RequestInv(s, step.r)
    ensures step.r < |Next(s, step).requests| && RequestInv(Next(s, step), step.r)
    ensures SameRequest(s.requests[step.r], Next(s, step).requests[step.r])
  {
  }

  lemma QuietKeepsInv(s: Cluster, step: Step)
    requires Inv(s) && Enabled(s, step) && Quiet(step)
    ensures Inv(Next(s, step))
  {
    assert RequestInv(s, step.r);
    if step.Save? || step.Route? || step.LookUp? {
      EarlyRequest(s, step);
    } else {
      RpcRequest(s, step);
    }
    QuietMove(s, Next(s, step), step.r);
  }

  /** What a sending step does to its own request, and the send it makes. */
  lemma SendRequest(s: Cluster, step: Step)
    requires Enabled(s, step) && (step.Push? || step.RemotePush? || step.Respond?)
    requires RequestInv(s, step.r)
    ensures var s' := Next(s, step);
            && |s'.log| == |s.log| + 1
            && step.r < |s'.requests| && RequestInv(s', step.r) && SentInv(s', s'.log[|s.log|])
            && SameRequest(s.requests[step.r], s'.requests[step.r])
  {
    CountsAppend(s.log, Next(s, step).log[|s.log|], step.r);
  }

  lemma SendKeepsInv(s: Cluster, step: Step)
    requires Inv(s) && Enabled(s, step) && (step.Push? || step.RemotePush? || step.Respond?)
    ensures Inv(Next(s, step))
  {
    assert RequestInv(s, step.r);
    SendRequest(s, step);
    SendMove(s, Next(s, step), step.r, Next(s, step).log[|s.log|]);
  }

  lemma StepKeepsInv(s: Cluster, step: Step)
    requires Inv(s) && Enabled(s, step)
    ensures Inv(Next(s, step))
  {
    var s' := Next(s, step);
    match step
    case Arrive(home, sid, msg) => ArriveKeepsInv(s, home, sid, msg);
    case Push(r) => SendKeepsInv(s, step);
    case RemotePush(r) => SendKeepsInv(s, step);
    case Respond(r) => SendKeepsInv(s, step);
    case SetRoute(uid, server) => SameRequests(s, s');
    case Bind(server, uid, sid) => SameRequests(s, s');
    case Unbind(server, uid) => SameRequests(s, s');
    case _ => QuietKeepsInv(s, step);
  }

  lemma {:induction false} RunKeepsInv(s: Cluster, steps: seq<Step>)
    requires Inv(s) && Runs(s, steps)
    ensures Inv(After(s, steps))
    decreases |steps|
  {
    if steps != [] {
      StepKeepsInv(s, steps[0]);
      RunKeepsInv(Next(s, steps[0]), steps[1..]);
    }
  }

  // ---------------------------------------------------------------- what a run promises

  /** In every run each request makes at most one notification, by the local or the remote
      route; it makes one response, at its end and only if its message was saved; one whose
      save failed makes no send at all. */
  lemma SendsPerRequest(peers: set<(Server, Server)>, steps: seq<Step>, r: nat)
    requires Runs(Start(peers), steps) && r < |After(Start(peers), steps).requests|
    ensures var s := After(Start(peers), steps);
            var q := s.requests[r];
            && Notifications(s.log, r) <= 1
            && Responses(s.log, r) == (if q.pc == Finished(true) then 1 else 0)
            && (q.pc.Received? || q.pc == Finished(false) ==> Notifications(s.log, r) == 0)
            && (q.pc == Finished(true) ==> q.msg in s.saved)
  {
    RunKeepsInv(Start(peers), steps);
    assert RequestInv(After(Start(peers), steps), r);
  }

  /** Steps a request has left, at most. */
  function Stage(pc: Pc): nat {
    match pc
    case Received => 5
    case Saved => 4
    case Find => 3
    case Call(_) => 3
    case Deliver(_) => 2
    case Waiting => 2
    case Reply(_) => 1
    case Finished(_) => 0
  }

  /** The steps of the handler of request `r`. */
  predicate Handles(step: Step, r: nat) {
    match step
    case Save(q, _) => q == r
    case Route(q) => q == r
    case LookUp(q) => q == r
    case Push(q) => q == r
    case Rpc(q, _) => q == r
    case RpcReturns(q) => q == r
    case Respond(q) => q == r
    case _ => false
  }

  function Handled(steps: seq<Step>, r: nat): nat
    decreases |steps|
  {
    if steps == [] then 0 else (if Handles(steps[0], r) then 1 else 0) + Handled(steps[1..], r)
  }

  /** In every run, whatever others do in between, a handler takes at most five steps of its own
      between reading its request and sending the response. */
  lemma {:induction false} HandlerStepsBounded(s: Cluster, steps: seq<Step>, r: nat)
    requires r < |s.requests| && Runs(s, steps)
    ensures r < |After(s, steps).requests|
    ensures Handled(steps, r) + Stage(After(s, steps).requests[r].pc) <= Stage(s.requests[r].pc)
    decreases |steps|
  {
    if steps != [] {
      HandlerStepsBounded(Next(s, steps[0]), steps[1..], r);
    }
  }

  // ---------------------------------------------------------------- what logins leave behind

  /** The session last bound to a user on a server and not unbound since. */
  function LatestSession(steps: seq<Step>, server: Server, uid: int): Option<Sid> {
    if steps == [] then None
    else
      match steps[|steps| - 1]
      case Bind(s, u, sid) =>
        if s == server && u == uid then Some(sid) else LatestSession(steps[..|steps| - 1], server, uid)
      case Unbind(s, u) =>
        if s == server && u == uid then None else LatestSession(steps[..|steps| - 1], server, uid)
      case _ => LatestSession(steps[..|steps| - 1], server, uid)
  }

  /** The server of the user's latest login. */
  function LatestServer(steps: seq<Step>, uid: int): Option<Server> {
    if steps == [] then None
    else
      match steps[|steps| - 1]
      case SetRoute(u, server) => if u == uid then Some(server) else LatestServer(steps[..|steps| - 1], uid)
      case _ => LatestServer(steps[..|steps| - 1], uid)
  }

  function SessionOf(bound: map<(Server, int), Sid>, server: Server, uid: int): Option<Sid> {
    if (server, uid) in bound then Some(bound[(server, uid)]) else None
  }

  function RouteOf(routing: map<int, Server>, uid: int): Option<Server> {
    if uid in routing then Some(routing[uid]) else None
  }

  lemma {:induction false} RunFront(s: Cluster, steps: seq<Step>, step: Step)
    requires Runs(s, steps + [step])
    ensures Runs(s, steps) && Enabled(After(s, steps), step)
    ensures After(s, steps + [step]) == Next(After(s, steps), step)
    decreases |steps|
  {
    if steps == [] {
      assert steps + [step] == [step];
      assert [step][1..] == [];
    } else {
      assert (steps + [step])[1..] == steps[1..] + [step];
      RunFront(Next(s, steps[0]), steps[1..], step);
    }
  }

  /** In every run, what UserMgr answers on a server is the session of the user's latest binding
      there, unless an unbinding came after it; and a routing key names the server of the latest
      login, wherever the user was before. */
  lemma {:induction false} LookUpsFindTheLatest(peers: set<(Server, Server)>, steps: seq<Step>, server: Server, uid: int)
    requires Runs(Start(peers), steps)
    ensures SessionOf(After(Start(peers), steps).bound, server, uid) == LatestSession(steps, server, uid)
    ensures RouteOf(After(Start(peers), steps).routing, uid) == LatestServer(steps, uid)
    decreases |steps|
  {
    if steps != [] {
      var before, last := steps[..|steps| - 1], steps[|steps| - 1];
      assert steps == before + [last];
      RunFront(Start(peers), before, last);
      LookUpsFindTheLatest(peers, before, server, uid);
    }
  }

  // ---------------------------------------------------------------- imperative form

  class Deployment {
    var saved: seq<Message>
    var routing: map<int, Server>
    var bound: map<(Server, int), Sid>
    const peers: set<(Server, Server)>
    var requests: seq<Request>
    var log: seq<Sent>

    ghost function Abs(): Cluster
      reads this
    {
      Cluster(saved, routing, bound, peers, requests, log)
    }

    constructor (links: set<(Server, Server)>)
      ensures Abs() == Start(links)
    {
      saved, routing, bound, peers, requests, log := [], map[], map[], links, [], [];
    }

    /** LoginHandler: the routing key names this server. */
    method SetRouting(uid: int, server: Server)
      modifies this
      ensures Abs() == Next(old(Abs()), SetRoute(uid, server))
    {
      routing := routing[uid := server];
    }

    /** UserMgr::SetUserSession. */
    method SetUserSession(server: Server, uid: int, sid: Sid)
      modifies this
      ensures Abs() == Next(old(Abs()), Bind(server, uid, sid))
    {
      bound := bound[(server, uid) := sid];
    }

    /** UserMgr::RemoveUserSession. */
    method RemoveUserSession(server: Server, uid: int)
      modifies this
      ensures Abs() == Next(old(Abs()), Unbind(server, uid))
    {
      bound := bound - {(server, uid)};
    }

    /** UserMgr::GetSession. */
    method GetSession(server: Server, uid: int) returns (sid: Option<Sid>)
      ensures sid == SessionOf(bound, server, uid)
    {
      if (server, uid) in bound {
        sid := Some(bound[(server, uid)]);
      } else {
        sid := None;
      }
    }

    /** CSession::send, as far as this module is concerned. */
    method Send(server: Server, sid: Sid, packet: Packet, req: nat)
      modifies this`log
      ensures log == old(log) + [Sent(server, sid, packet, req)]
    {
      log := log + [Sent(server, sid, packet, req)];
    }

    /** Where a message goes: the server named by the routing key, if it can be reached and
        holds a session for the recipient. */
    ghost function Target(home: Server, msg: Message, reached: bool): Option<(Server, Sid)>
      reads this
    {
      if msg.toUid !in routing then None
      else
        var server := routing[msg.toUid];
        if server != home && ((home, server) !in peers || !reached) then None
        else if (server, msg.toUid) !in bound then None
        else Some((server, bound[(server, msg.toUid)]))
    }

    /** The sender is told the recipient is unknown: no routing key, or a key naming the
        sender's own server without a session there. */
    ghost predicate Unknown(home: Server, msg: Message)
      reads this
    {
      msg.toUid !in routing || (routing[msg.toUid] == home && (home, msg.toUid) !in bound)
    }

    /** The stores other handlers share are as they were. */
    twostate predicate SameStores()
      reads this
    {
      saved == old(saved) && routing == old(routing) && bound == old(bound)
    }

    /** Parse and save: the first half of DealChatTextMsgHandler. */
    method SaveMessage(home: Server, sid: Sid, msg: Message, saveOk: bool) returns (r: nat, ghost steps: seq<Step>)
      modifies this`saved, this`requests
      ensures r == |old(requests)| && Runs(old(Abs()), steps) && Abs() == After(old(Abs()), steps)
      ensures saved == old(saved) + if saveOk then [msg] else []
      ensures requests == old(requests)
                          + [Request(home, sid, msg, None, if saveOk then Saved else Finished(false), Idle)]
    {
      ghost var s0 := Abs();
      r := |requests|;
      requests := requests + [Request(home, sid, msg, None, Received, Idle)];
      steps := Extend(s0, [], Arrive(home, sid, msg));
      steps := Extend(s0, steps, Save(r, saveOk));
      if saveOk {
        saved := saved + [msg];
        requests := requests[r := requests[r].(pc := Saved)];
      } else {
        requests := requests[r := requests[r].(pc := Finished(false))];
      }
    }

    /** The branch for a recipient whose routing key names this server. */
    method NotifyHere(r: nat, ghost s0: Cluster, ghost before: seq<Step>) returns (ghost steps: seq<Step>)
      requires r < |requests| && requests[r].pc.Find?
      requires Runs(s0, before) && Abs() == After(s0, before)
      modifies this
      ensures Runs(s0, steps) && Abs() == After(s0, steps) && SameStores()
      ensures var q := old(requests)[r];
              var known := (q.home, q.msg.toUid) in bound;
              && requests == old(requests)[r := q.(pc := Reply(if known then Success else UidInvalid))]
              && log == old(log) + if known
                                   then [Sent(q.home, bound[(q.home, q.msg.toUid)], NotifyPacket(q, q.home), r)]
                                   else []
    {
      var sid := GetSession(requests[r].home, requests[r].msg.toUid);
      steps := Extend(s0, before, LookUp(r));
      if sid.None? {
        requests := requests[r := requests[r].(pc := Reply(UidInvalid))];
        return;
      }
      requests := requests[r := requests[r].(pc := Deliver(sid.value))];
      Send(requests[r].home, sid.value, NotifyPacket(requests[r], requests[r].home), r);
      requests := requests[r := requests[r].(pc := Reply(Success))];
      steps := Extend(s0, steps, Push(r));
    }

    /** The branch for a recipient on another server: ChatGrpcClient::NotifyTextChatMsg. */
    method NotifyThere(r: nat, reached: bool, ghost s0: Cluster, ghost before: seq<Step>) returns (ghost steps: seq<Step>)
      requires r < |requests| && requests[r].pc.Call? && requests[r].remote.Idle?
      requires Runs(s0, before) && Abs() == After(s0, before)
      modifies this
      ensures Runs(s0, steps) && Abs() == After(s0, steps) && SameStores()
      ensures |requests| == |old(requests)|
      ensures var q := old(requests)[r];
              var server := q.pc.server;
              && requests[r] == q.(pc := Reply(Success), remote := requests[r].remote)
              && log == old(log) + if (q.home, server) in peers && reached && (server, q.msg.toUid) in bound
                                   then [Sent(server, bound[(server, q.msg.toUid)], NotifyPacket(q, server), r)]
                                   else []
    {
      requests := requests[r := Called(requests[r], peers, reached)];
      steps := Extend(s0, before, Rpc(r, reached));
      if requests[r].remote.RemoteFind? {
        ghost var more := NotifyTextChatMsg(r, s0, steps);
        steps := more;
      }
      if requests[r].pc.Waiting? {
        requests := requests[r := requests[r].(pc := Reply(Success))];
        steps := Extend(s0, steps, RpcReturns(r));
      }
    }

    /** The deferred action. */
    method SendResponse(r: nat, ghost s0: Cluster, ghost before: seq<Step>) returns (ghost steps: seq<Step>)
      requires r < |requests| && requests[r].pc.Reply?
      requires Runs(s0, before) && Abs() == After(s0, before)
      modifies this
      ensures Runs(s0, steps) && Abs() == After(s0, steps) && SameStores()
      ensures var q := old(requests)[r];
              log == old(log) + [Sent(q.home, q.sid, ResponsePacket(q, q.pc.error), r)]
    {
      Send(requests[r].home, requests[r].sid, ResponsePacket(requests[r], requests[r].pc.error), r);
      requests := requests[r := requests[r].(pc := Finished(true))];
      steps := Extend(s0, before, Respond(r));
    }

    /** DealChatTextMsgHandler on server `home`, for a request read from session `sid`, with
        no other step in between: a run of the machine, and what it sends. */
    method DealChatTextMsg(home: Server, sid: Sid, msg: Message, saveOk: bool, reached: bool)
      returns (r: nat, ghost steps: seq<Step>)
      modifies this
      ensures Runs(old(Abs()), steps) && Abs() == After(old(Abs()), steps)
      ensures r == |old(requests)| && saved == old(saved) + if saveOk then [msg] else []
      ensures !saveOk ==> log == old(log)
      ensures saveOk ==>
                var q := Request(home, sid, msg, None, Saved, Idle);
                var t := old(Target(home, msg, reached));
                log == old(log)
                       + (if t.None? then [] else [Sent(t.value.0, t.value.1, NotifyPacket(q, t.value.0), r)])
                       + [Sent(home, sid, ResponsePacket(q, if old(Unknown(home, msg)) then UidInvalid else Success), r)]
    {
      ghost var s0 := Abs();
      r, steps := SaveMessage(home, sid, msg, saveOk);
      if !saveOk {
        return;
      }
      requests := requests[r := Routed(requests[r], routing)];
      steps := Extend(s0, steps, Route(r));
      if requests[r].pc.Find? {
        ghost var more := NotifyHere(r, s0, steps);
        steps := more;
      } else if requests[r].pc.Call? {
        ghost var more := NotifyThere(r, reached, s0, steps);
        steps := more;
      }
      ghost var all := SendResponse(r, s0, steps);
      steps := all;
    }

    /** ChatServiceImpl::NotifyTextChatMsg, on the server that was called for request `r`. */
    method NotifyTextChatMsg(r: nat, ghost s0: Cluster, ghost before: seq<Step>) returns (ghost steps: seq<Step>)
      requires r < |requests| && requests[r].remote.RemoteFind?
      requires Runs(s0, before) && Abs() == After(s0, before)
      modifies this
      ensures Runs(s0, steps) && Abs() == After(s0, steps) && SameStores()
      ensures requests == old(requests)[r := old(requests)[r].(remote := RemoteDone)]
      ensures var q := old(requests)[r];
              var server := q.remote.server;
              log == old(log) + if (server, q.msg.toUid) in bound
                                then [Sent(server, bound[(server, q.msg.toUid)], NotifyPacket(q, server), r)]
                                else []
    {
      var server := requests[r].remote.server;
      var sid := GetSession(server, requests[r].msg.toUid);
      steps := Extend(s0, before, RemoteLookUp(r));
      if sid.None? {
        requests := requests[r := requests[r].(remote := RemoteDone)];
        return;
      }
      requests := requests[r := requests[r].(remote := RemoteDeliver(server, sid.value))];
      Send(server, sid.value, NotifyPacket(requests[r], server), r);
      requests := requests[r := requests[r].(remote := RemoteDone)];
      steps := Extend(s0, steps, RemotePush(r));
    }
  }

  /** A run with one more step at its end. */
  lemma {:induction false} Extend(s: Cluster, steps: seq<Step>, step: Step) returns (more: seq<Step>)
    requires Runs(s, steps) && Enabled(After(s, steps), step)
    ensures more == steps + [step]
    ensures Runs(s, more) && After(s, more) == Next(After(s, steps), step)
    decreases |steps|
  {
    more := steps + [step];
    if steps == [] {
      assert more == [step];
      assert [step][1..] == [];
    } else {
      assert more[1..] == steps[1..] + [step];
      var _ := Extend(Next(s, steps[0]), steps[1..], step);
    }
  }
}
