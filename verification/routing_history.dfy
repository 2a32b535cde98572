/**
  What the sends of a cluster have to do with its history. ClusterRouting's machine keeps records
  of its own (a request's route, the session it holds, the response code it will send); here they
  are tied to the logins, bindings and unbindings of the run, at the moment each was looked up.
*/
module RoutingHistory {
  import opened Wrappers
  import opened ClusterRouting

  /** A request as it came in. */
  datatype Origin = Origin(home: Server, sid: Sid, msg: Message)

  function Arrived(steps: seq<Step>): seq<Origin> {
    if steps == [] then []
    else
      var before := Arrived(steps[..|steps| - 1]);
      match steps[|steps| - 1]
      case Arrive(home, sid, msg) => before + [Origin(home, sid, msg)]
      case _ => before
  }

  /** What request `r` has been told: the routing key of the recipient, the recipient's session on
      its own server, and on the server it was routed to. The outer None: not asked yet. */
  datatype Trace = Trace(read: Option<Option<Server>>, found: Option<Option<Sid>>, remote: Option<Option<Sid>>)

  const UNASKED := Trace(None, None, None)

  /** Each answer is that of the latest login, or the latest binding, before the question. */
  function TraceOf(steps: seq<Step>, r: nat, a: Origin): Trace {
    if steps == [] then UNASKED
    else
      var before, last, uid := steps[..|steps| - 1], steps[|steps| - 1], a.msg.toUid;
      var t := TraceOf(before, r, a);
      if last == Route(r) then t.(read := Some(LatestServer(before, uid)))
      else if last == LookUp(r) then t.(found := Some(LatestSession(before, a.home, uid)))
      else if last == RemoteLookUp(r) && Answered(t.read) then
        t.(remote := Some(LatestSession(before, t.read.value.value, uid)))
      else t
  }

  /** The question was asked and there was something. */
  predicate Answered<T>(x: Option<Option<T>>) {
    x.Some? && x.value.Some?
  }

  /** The code of the response: the recipient is unknown if there was no routing key, or if it
      named the sender's own server and that had no session. */
  function Verdict(t: Trace): ErrorCode {
    if t.read == Some(None) || t.found == Some(None) then UidInvalid else Success
  }

  // ---------------------------------------------------------------- one request

  predicate Unrouted(q: Request) {
    q.pc.Received? || q.pc.Saved? || q.pc == Finished(false)
  }

  predicate Replied(q: Request) {
    q.pc.Reply? || q.pc == Finished(true)
  }

  predicate Elsewhere(q: Request) {
    q.route.Some? && q.route.value != q.home
  }

  /** The records of a request are what it was told, and it has made `n` notifications. */
  ghost predicate Consistent(q: Request, t: Trace, n: nat) {
    && (if Unrouted(q) then t == UNASKED && q.remote.Idle? && q.route.None? else t.read == Some(q.route))
    && (t.found.Some? ==> q.route == Some(q.home))
    && (q.pc.Find? || q.pc.Deliver? ==> q.route == Some(q.home))
    && (q.pc.Find? ==> t.found.None?)
    && (q.pc.Deliver? ==> t.found == Some(Some(q.pc.sid)))
    && (q.pc.Call? ==> q.route == Some(q.pc.server))
    && (q.pc.Call? || q.pc.Waiting? || !q.remote.Idle? ==> Elsewhere(q))
    && (!q.remote.Idle? ==> q.pc.Waiting? || Replied(q))
    && (q.remote.Idle? || q.remote.RemoteFind? ==> t.remote.None?)
    && (q.remote.RemoteFind? || q.remote.RemoteDeliver? ==> q.route == Some(q.remote.server))
    && (q.remote.RemoteDeliver? ==> t.remote == Some(Some(q.remote.sid)))
    && (Replied(q) && q.route == Some(q.home) ==> t.found.Some?)
    && (q.pc.Reply? ==> q.pc.error == Verdict(t))
    && n == (if Delivered(q, t) then 1 else 0)
  }

  /** The look-up found a session and the notification went out. */
  predicate Delivered(q: Request, t: Trace) {
    (Replied(q) && Answered(t.found)) || (q.remote.RemoteDone? && Answered(t.remote))
  }

  /** A send that was made for the request. */
  ghost predicate Justified(q: Request, t: Trace, e: Sent) {
    if e.packet.Notify? then
      && q.route == Some(e.server) && e.packet == NotifyPacket(q, e.server)
      && if e.server == q.home then Replied(q) && t.found == Some(Some(e.sid))
         else q.remote.RemoteDone? && t.remote == Some(Some(e.sid))
    else
      q.pc == Finished(true) && e.server == q.home && e.sid == q.sid && e.packet == ResponsePacket(q, Verdict(t))
  }

  /** What a step tells request `r`, from the stores as they are. */
  function Told(t: Trace, s: Cluster, step: Step, r: nat, a: Origin): Trace {
    var uid := a.msg.toUid;
    if step == Route(r) then t.(read := Some(RouteOf(s.routing, uid)))
    else if step == LookUp(r) then t.(found := Some(SessionOf(s.bound, a.home, uid)))
    else if step == RemoteLookUp(r) && Answered(t.read) then
      t.(remote := Some(SessionOf(s.bound, t.read.value.value, uid)))
    else t
  }

  function OriginOf(q: Request): Origin {
    Origin(q.home, q.sid, q.msg)
  }

  /** A step of request `r` itself. */
  predicate Concerns(step: Step, r: nat) {
    Handles(step, r) || step == RemoteLookUp(r) || step == RemotePush(r)
  }

  function Notifies(step: Step, r: nat): nat {
    if step == Push(r) || step == RemotePush(r) then 1 else 0
  }

  lemma OtherSteps(s: Cluster, step: Step, r: nat)
    requires Enabled(s, step) && r < |s.requests| && !Concerns(step, r)
    ensures r < |Next(s, step).requests| && Next(s, step).requests[r] == s.requests[r]
  {
  }

  lemma StepKeepsOrigin(s: Cluster, step: Step, r: nat)
    requires Enabled(s, step) && r < |s.requests|
    ensures r < |Next(s, step).requests| && OriginOf(Next(s, step).requests[r]) == OriginOf(s.requests[r])
  {
  }

  lemma QuietLog(s: Cluster, step: Step)
    requires Enabled(s, step) && !step.Push? && !step.RemotePush? && !step.Respond?
    ensures Next(s, step).log == s.log
  {
  }

  lemma SendLog(s: Cluster, step: Step) returns (e: Sent)
    requires Enabled(s, step) && (step.Push? || step.RemotePush? || step.Respond?)
    ensures Next(s, step).log == s.log + [e] && e.req == step.r && (e.packet.Notify? <==> !step.Respond?)
  {
    e := Next(s, step).log[|s.log|];
  }

  lemma NotificationsStep(s: Cluster, step: Step, r: nat)
    requires Enabled(s, step)
    ensures Notifications(Next(s, step).log, r) == Notifications(s.log, r) + Notifies(step, r)
  {
    if step.Push? || step.RemotePush? || step.Respond? {
      var e := SendLog(s, step);
      CountsAppend(s.log, e, r);
    } else {
      QuietLog(s, step);
    }
  }

  /** The handler's steps up to its look-up. */
  lemma EarlyStepConsistent(s: Cluster, step: Step, r: nat, t: Trace, n: nat)
    requires Enabled(s, step) && r < |s.requests| && Consistent(s.requests[r], t, n)
    requires Handles(step, r) && (step.Save? || step.Route? || step.LookUp?)
    ensures r < |Next(s, step).requests|
    ensures Consistent(Next(s, step).requests[r], Told(t, s, step, r, OriginOf(s.requests[r])), n)
  {
  }

  lemma LateStepConsistent(s: Cluster, step: Step, r: nat, t: Trace, n: nat)
    requires Enabled(s, step) && r < |s.requests| && Consistent(s.requests[r], t, n)
    requires Handles(step, r) && !step.Save? && !step.Route? && !step.LookUp?
    ensures r < |Next(s, step).requests| && Consistent(Next(s, step).requests[r], t, n + Notifies(step, r))
  {
  }

  lemma RemoteStepConsistent(s: Cluster, step: Step, r: nat, t: Trace, n: nat)
    requires Enabled(s, step) && r < |s.requests| && Consistent(s.requests[r], t, n)
    requires step == RemoteLookUp(r) || step == RemotePush(r)
    ensures r < |Next(s, step).requests|
    ensures Consistent(Next(s, step).requests[r], Told(t, s, step, r, OriginOf(s.requests[r])), n + Notifies(step, r))
  {
  }

  lemma StepKeepsConsistent(s: Cluster, step: Step, r: nat, t: Trace, n: nat)
    requires Enabled(s, step) && r < |s.requests| && Consistent(s.requests[r], t, n)
    ensures r < |Next(s, step).requests|
    ensures Consistent(Next(s, step).requests[r], Told(t, s, step, r, OriginOf(s.requests[r])), n + Notifies(step, r))
  {
    if !Concerns(step, r) {
      OtherSteps(s, step, r);
    } else if !Handles(step, r) {
      RemoteStepConsistent(s, step, r, t, n);
    } else if step.Save? || step.Route? || step.LookUp? {
      EarlyStepConsistent(s, step, r, t, n);
    } else {
      LateStepConsistent(s, step, r, t, n);
    }
  }

  /** A send once justified stays so: whatever it rests on is not asked again. */
  lemma StepKeepsJustified(s: Cluster, step: Step, r: nat, t: Trace, n: nat, e: Sent)
    requires Enabled(s, step) && r < |s.requests| && Consistent(s.requests[r], t, n)
    requires Justified(s.requests[r], t, e)
    ensures r < |Next(s, step).requests|
    ensures Justified(Next(s, step).requests[r], Told(t, s, step, r, OriginOf(s.requests[r])), e)
  {
  }

  /** The send a step makes is justified. */
  lemma NewSendJustified(s: Cluster, step: Step, r: nat, t: Trace, n: nat)
    requires Enabled(s, step) && (step == Push(r) || step == RemotePush(r) || step == Respond(r))
    requires r < |s.requests| && Consistent(s.requests[r], t, n)
    ensures var s' := Next(s, step);
            && |s'.log| == |s.log| + 1 && s'.log[..|s.log|] == s.log && s'.log[|s.log|].req == r
            && r < |s'.requests| && Justified(s'.requests[r], t, s'.log[|s.log|])
  {
  }

  // ---------------------------------------------------------------- whole runs

  /** Everything the machine has recorded and sent is accounted for by the steps of the run. */
  ghost predicate Accounted(steps: seq<Step>, s: Cluster) {
    && |Arrived(steps)| == |s.requests|
    && (forall r :: 0 <= r < |s.requests| ==> RequestAccounted(steps, s, r))
    && (forall k :: 0 <= k < |s.log| ==> SendAccounted(steps, s, s.log[k]))
  }

  ghost predicate RequestAccounted(steps: seq<Step>, s: Cluster, r: nat)
    requires r < |s.requests|
  {
    && r < |Arrived(steps)| && OriginOf(s.requests[r]) == Arrived(steps)[r]
    && Consistent(s.requests[r], TraceOf(steps, r, OriginOf(s.requests[r])), Notifications(s.log, r))
  }

  ghost predicate SendAccounted(steps: seq<Step>, s: Cluster, e: Sent) {
    && e.req < |s.requests|
    && Justified(s.requests[e.req], TraceOf(steps, e.req, OriginOf(s.requests[e.req])), e)
  }

  /** A request is told what the history says. */
  lemma TraceStep(peers: set<(Server, Server)>, steps: seq<Step>, step: Step, r: nat, a: Origin)
    requires Runs(Start(peers), steps)
    ensures TraceOf(steps + [step], r, a) ==
            Told(TraceOf(steps, r, a), After(Start(peers), steps), step, r, a)
  {
    assert (steps + [step])[..|steps|] == steps;
    var t, uid := TraceOf(steps, r, a), a.msg.toUid;
    LookUpsFindTheLatest(peers, steps, a.home, uid);
    if Answered(t.read) {
      LookUpsFindTheLatest(peers, steps, t.read.value.value, uid);
    }
  }

  lemma ArrivedStep(steps: seq<Step>, step: Step)
    ensures Arrived(steps + [step]) ==
            Arrived(steps) + if step.Arrive? then [Origin(step.home, step.sid, step.msg)] else []
  {
    assert (steps + [step])[..|steps|] == steps;
  }

  /** Nobody has asked anything for a request that is not there yet. */
  lemma {:induction false} UnaskedYet(peers: set<(Server, Server)>, steps: seq<Step>, r: nat, a: Origin)
    requires Runs(Start(peers), steps) && r >= |After(Start(peers), steps).requests|
    ensures TraceOf(steps, r, a) == UNASKED
    decreases |steps|
  {
    if steps != [] {
      var before, last := steps[..|steps| - 1], steps[|steps| - 1];
      assert steps == before + [last];
      RunFront(Start(peers), before, last);
      RequestsGrow(After(Start(peers), before), last);
      UnaskedYet(peers, before, r, a);
    }
  }

  lemma RequestsGrow(s: Cluster, step: Step)
    requires Enabled(s, step)
    ensures |Next(s, step).requests| == |s.requests| + if step.Arrive? then 1 else 0
    ensures step.Arrive? ==>
              Next(s, step).requests == s.requests + [Request(step.home, step.sid, step.msg, None, Received, Idle)]
  {
  }

  lemma RequestAccountedStep(peers: set<(Server, Server)>, steps: seq<Step>, step: Step, r: nat)
    requires Runs(Start(peers), steps) && Enabled(After(Start(peers), steps), step)
    requires r < |After(Start(peers), steps).requests| && RequestAccounted(steps, After(Start(peers), steps), r)
    ensures r < |Next(After(Start(peers), steps), step).requests|
    ensures RequestAccounted(steps + [step], Next(After(Start(peers), steps), step), r)
  {
    var s := After(Start(peers), steps);
    var a := OriginOf(s.requests[r]);
    TraceStep(peers, steps, step, r, a);
    ArrivedStep(steps, step);
    NotificationsStep(s, step, r);
    StepKeepsOrigin(s, step, r);
    StepKeepsConsistent(s, step, r, TraceOf(steps, r, a), Notifications(s.log, r));
  }

  lemma NewRequestAccounted(peers: set<(Server, Server)>, steps: seq<Step>, step: Step)
    requires Runs(Start(peers), steps) && step.Arrive?
    requires |Arrived(steps)| == |After(Start(peers), steps).requests|
    requires Notifications(After(Start(peers), steps).log, |After(Start(peers), steps).requests|) == 0
    ensures var s, s' := After(Start(peers), steps), Next(After(Start(peers), steps), step);
            |s.requests| < |s'.requests| && RequestAccounted(steps + [step], s', |s.requests|)
  {
    var s := After(Start(peers), steps);
    var r, a := |s.requests|, Origin(step.home, step.sid, step.msg);
    RequestsGrow(s, step);
    ArrivedStep(steps, step);
    TraceStep(peers, steps, step, r, a);
    UnaskedYet(peers, steps, r, a);
    NotificationsStep(s, step, r);
    NewConsistent(a);
  }

  lemma NoSendsBefore(s: Cluster)
    requires Inv(s)
    ensures Notifications(s.log, |s.requests|) == 0
  {
    NoSendsYet(s, s.log, |s.requests|);
  }

  lemma NewConsistent(a: Origin)
    ensures Consistent(Request(a.home, a.sid, a.msg, None, Received, Idle), UNASKED, 0)
  {
  }

  lemma SendAccountedStep(peers: set<(Server, Server)>, steps: seq<Step>, step: Step, e: Sent)
    requires Runs(Start(peers), steps) && Enabled(After(Start(peers), steps), step)
    requires Accounted(steps, After(Start(peers), steps)) && SendAccounted(steps, After(Start(peers), steps), e)
    ensures SendAccounted(steps + [step], Next(After(Start(peers), steps), step), e)
  {
    var s := After(Start(peers), steps);
    var r := e.req;
    var a := OriginOf(s.requests[r]);
    assert RequestAccounted(steps, s, r);
    TraceStep(peers, steps, step, r, a);
    StepKeepsOrigin(s, step, r);
    StepKeepsJustified(s, step, r, TraceOf(steps, r, a), Notifications(s.log, r), e);
  }

  lemma NewSendAccounted(peers: set<(Server, Server)>, steps: seq<Step>, step: Step)
    requires Runs(Start(peers), steps) && Enabled(After(Start(peers), steps), step)
    requires Accounted(steps, After(Start(peers), steps)) && (step.Push? || step.RemotePush? || step.Respond?)
    ensures var s, s' := After(Start(peers), steps), Next(After(Start(peers), steps), step);
            && |s'.log| == |s.log| + 1 && s'.log[..|s.log|] == s.log
            && SendAccounted(steps + [step], s', s'.log[|s.log|])
  {
    var s, r := After(Start(peers), steps), step.r;
    assert RequestAccounted(steps, s, r);
    var a := OriginOf(s.requests[r]);
    TraceStep(peers, steps, step, r, a);
    StepKeepsOrigin(s, step, r);
    NewSendJustified(s, step, r, TraceOf(steps, r, a), Notifications(s.log, r));
  }

  lemma AccountedStep(peers: set<(Server, Server)>, steps: seq<Step>, step: Step)
    requires Runs(Start(peers), steps) && Enabled(After(Start(peers), steps), step)
    requires Inv(After(Start(peers), steps)) && Accounted(steps, After(Start(peers), steps))
    ensures Accounted(steps + [step], Next(After(Start(peers), steps), step))
  {
    var s := After(Start(peers), steps);
    var s' := Next(s, step);
    RequestsGrow(s, step);
    ArrivedStep(steps, step);
    forall r | 0 <= r < |s'.requests| ensures RequestAccounted(steps + [step], s', r) {
      if r < |s.requests| {
        RequestAccountedStep(peers, steps, step, r);
      } else {
        NoSendsBefore(s);
        NewRequestAccounted(peers, steps, step);
      }
    }
    if step.Push? || step.RemotePush? || step.Respond? {
      NewSendAccounted(peers, steps, step);
    } else {
      QuietLog(s, step);
    }
    forall k | 0 <= k < |s'.log| ensures SendAccounted(steps + [step], s', s'.log[k]) {
      if k < |s.log| {
        assert s'.log[k] == s'.log[..|s.log|][k] == s.log[k];
        SendAccountedStep(peers, steps, step, s.log[k]);
      }
    }
  }

  lemma {:induction false} RunAccounted(peers: set<(Server, Server)>, steps: seq<Step>)
    requires Runs(Start(peers), steps)
    ensures Inv(After(Start(peers), steps)) && Accounted(steps, After(Start(peers), steps))
    decreases |steps|
  {
    if steps != [] {
      var before, last := steps[..|steps| - 1], steps[|steps| - 1];
      assert steps == before + [last];
      RunFront(Start(peers), before, last);
      RunAccounted(peers, before);
      AccountedStep(peers, before, last);
      StepKeepsInv(After(Start(peers), before), last);
    }
  }

  // ---------------------------------------------------------------- what a run promises

  /** The step at which a trace got its route. */
  lemma {:induction false} ReadAt(steps: seq<Step>, r: nat, a: Origin) returns (i: nat)
    requires TraceOf(steps, r, a).read.Some?
    ensures i < |steps| && steps[i] == Route(r)
    ensures LatestServer(steps[..i], a.msg.toUid) == TraceOf(steps, r, a).read.value
  {
    var n := |steps| - 1;
    if steps[n] == Route(r) {
      i := n;
    } else {
      i := ReadAt(steps[..n], r, a);
      assert steps[..n][..i] == steps[..i];
    }
  }

  /** The step at which it found the session on its own server. */
  lemma {:induction false} FoundAt(steps: seq<Step>, r: nat, a: Origin) returns (j: nat)
    requires TraceOf(steps, r, a).found.Some?
    ensures j < |steps| && steps[j] == LookUp(r)
    ensures LatestSession(steps[..j], a.home, a.msg.toUid) == TraceOf(steps, r, a).found.value
  {
    var n := |steps| - 1;
    if steps[n] == LookUp(r) {
      j := n;
    } else {
      j := FoundAt(steps[..n], r, a);
      assert steps[..n][..j] == steps[..j];
    }
  }

  /** The step at which it found it on another; the route it went by was not read again. */
  lemma {:induction false} RemoteFoundAt(peers: set<(Server, Server)>, steps: seq<Step>, r: nat) returns (j: nat)
    requires Runs(Start(peers), steps) && r < |After(Start(peers), steps).requests|
    requires var a := OriginOf(After(Start(peers), steps).requests[r]);
             TraceOf(steps, r, a).remote.Some? && Answered(TraceOf(steps, r, a).read)
    ensures var a := OriginOf(After(Start(peers), steps).requests[r]);
            var t := TraceOf(steps, r, a);
            && j < |steps| && steps[j] == RemoteLookUp(r)
            && LatestSession(steps[..j], t.read.value.value, a.msg.toUid) == t.remote.value
    decreases |steps|
  {
    var n := |steps| - 1;
    var before, last := steps[..n], steps[n];
    assert steps == before + [last];
    RunFront(Start(peers), before, last);
    var s := After(Start(peers), before);
    RequestsGrow(s, last);
    if last == RemoteLookUp(r) && Answered(TraceOf(before, r, OriginOf(After(Start(peers), steps).requests[r])).read) {
      j := n;
    } else {
      RunAccounted(peers, before);
      if r >= |s.requests| {
        UnaskedYet(peers, before, r, OriginOf(After(Start(peers), steps).requests[r]));
        assert false;
      }
      StepKeepsOrigin(s, last, r);
      assert RequestAccounted(before, s, r);
      j := RemoteFoundAt(peers, before, r);
      assert steps[..n][..j] == steps[..j];
    }
  }

  /** Store before deliver, in every run: a notification is queued only for a message already
      saved, with the sender, recipient, text and time that came in; on the server that the
      recipient's latest login named when the handler read the routing key, and on the session
      that the recipient's latest binding there held when it was looked up. */
  lemma StoreBeforeDeliver(peers: set<(Server, Server)>, steps: seq<Step>, k: nat) returns (i: nat, j: nat)
    requires Runs(Start(peers), steps)
    requires k < |After(Start(peers), steps).log| && After(Start(peers), steps).log[k].packet.Notify?
    ensures var s := After(Start(peers), steps);
            var e := s.log[k];
            && e.req < |Arrived(steps)|
            && var a := Arrived(steps)[e.req];
               && a.msg in s.saved
               && i < |steps| && steps[i] == Route(e.req)
               && LatestServer(steps[..i], a.msg.toUid) == Some(e.server)
               && j < |steps| && steps[j] == (if e.server == a.home then LookUp(e.req) else RemoteLookUp(e.req))
               && LatestSession(steps[..j], e.server, a.msg.toUid) == Some(e.sid)
               && e.packet == Notify(a.msg.fromUid, a.msg.toUid, a.msg.content, a.msg.sendTime, a.msg.msgType,
                                     if e.server == a.home then None else Some(a.msg.msgId))
  {
    RunAccounted(peers, steps);
    var s := After(Start(peers), steps);
    var e := s.log[k];
    assert SendAccounted(steps, s, e) && SentInv(s, e) && RequestAccounted(steps, s, e.req);
    var a := Arrived(steps)[e.req];
    i := ReadAt(steps, e.req, a);
    if e.server == a.home {
      j := FoundAt(steps, e.req, a);
    } else {
      j := RemoteFoundAt(peers, steps, e.req);
    }
  }

  /** In every run a response goes to the session the request came from, with the fields that
      came in, and says that the recipient is unknown exactly when there was no routing key when
      the handler read it, or it named the sender's own server and that had no session for the
      recipient when it was asked. */
  lemma ResponseSaysWhatWasFound(peers: set<(Server, Server)>, steps: seq<Step>, k: nat)
    requires Runs(Start(peers), steps)
    requires k < |After(Start(peers), steps).log| && After(Start(peers), steps).log[k].packet.Response?
    ensures var s := After(Start(peers), steps);
            var e := s.log[k];
            && e.req < |Arrived(steps)|
            && var a := Arrived(steps)[e.req];
               var t := TraceOf(steps, e.req, a);
               && a.msg in s.saved && e.server == a.home && e.sid == a.sid
               && e.packet == Response(Verdict(t), a.msg.fromUid, a.msg.toUid, a.msg.content, a.msg.sendTime, a.msg.msgType)
               && t.read.Some?
               && (t.found.Some? <==> t.read == Some(Some(a.home)))
  {
    RunAccounted(peers, steps);
    var s := After(Start(peers), steps);
    var e := s.log[k];
    assert SendAccounted(steps, s, e) && SentInv(s, e) && RequestAccounted(steps, s, e.req);
  }

  /** In every run a request makes its notification exactly when it should: a finished one routed
      to its own server, when the look-up there found a session; one routed elsewhere whose call
      has ended there, when the look-up there did. Never more than one. */
  lemma NotifiedExactly(peers: set<(Server, Server)>, steps: seq<Step>, r: nat)
    requires Runs(Start(peers), steps) && r < |After(Start(peers), steps).requests|
    ensures var s := After(Start(peers), steps);
            var q := s.requests[r];
            && r < |Arrived(steps)|
            && var t := TraceOf(steps, r, Arrived(steps)[r]);
               && Notifications(s.log, r) <= 1
               && (q.pc == Finished(true) && t.read == Some(Some(q.home)) ==>
                     (Notifications(s.log, r) == 1 <==> Answered(t.found)))
               && (q.pc == Finished(true) && t.read != Some(Some(q.home)) && q.remote.RemoteDone? ==>
                     (Notifications(s.log, r) == 1 <==> Answered(t.remote)))
               && (q.pc == Finished(true) && q.remote.Idle? && t.read != Some(Some(q.home)) ==> Notifications(s.log, r) == 0)
  {
    RunAccounted(peers, steps);
    assert RequestAccounted(steps, After(Start(peers), steps), r);
  }
}
