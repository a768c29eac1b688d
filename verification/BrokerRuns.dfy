/** What every interleaving of the broker keeps: own-connection isolation, cleanup of closed
    connections, bounded channels, and lossy chunks with a lossless end. */
module BrokerRuns {
  import opened Broker

  // ---------------------------------------------------------------- the invariant

  /** Subscriptions are recorded, belong to a connection that is not dropped, and an own-conn
      scope names the subscriber's own connection. */
  ghost predicate RegistryOk(s: State) {
    && (forall sub :: sub in s.registry ==> sub in s.ever && s.ever[sub] == s.registry[sub])
    && (forall sub :: sub in s.ever ==>
          sub < s.nextSub && s.ever[sub].conn in s.conns &&
          (s.ever[sub].scope.OwnConn? ==> s.ever[sub].scope.conn == s.ever[sub].conn))
    && (forall sub :: sub in s.registry ==> !s.conns[s.registry[sub].conn].phase.Dropped?)
  }

  ghost predicate RequestsOk(s: State) {
    && (forall conn :: conn in s.conns ==> conn < s.nextConn)
    && (forall req :: req in s.requests ==>
          s.requests[req].conn in s.conns &&
          (s.requests[req].Active() ==> !s.conns[s.requests[req].conn].phase.Dropped?))
    && (forall req :: IsStream(s, req) ==> StreamOk(s, s.requests[req]))
  }

  ghost predicate StreamOk(s: State, r: Request)
    requires r.Streaming?
  {
    && (forall i :: 0 <= i < |r.events| - 1 ==> r.events[i].Chunk?)
    && r.next <= |r.events|
    && (r.pc.Fanning? || r.pc.Writing? || r.pc == Ended(false) ==> r.next < |r.events|)
    && (r.pc == Ended(true) ==> r.next == |r.events|)
    && (r.pc.Fanning? ==> TargetsOk(s, r.pc.targets))
  }

  ghost predicate TargetsOk(s: State, targets: seq<Target>) {
    && (forall i :: 0 <= i < |targets| ==>
          targets[i].sub in s.ever && s.ever[targets[i].sub] == targets[i].subscriber && targets[i].subscriber.stdio)
    && (forall i, j :: 0 <= i < j < |targets| ==> targets[i].sub != targets[j].sub)
  }

  predicate Pending(targets: seq<Target>, sub: SubId) {
    exists i :: 0 <= i < |targets| && targets[i].sub == sub
  }

  /** The events of stream `r` that have been offered to `sub` are those below this number. */
  function Offered(r: Request, sub: SubId): nat
    requires r.Streaming?
  {
    match r.pc
    case Receiving => r.next
    case Fanning(targets) => if Pending(targets, sub) then r.next else r.next + 1
    case Writing => r.next + 1
    case Ended(complete) => if complete then r.next else r.next + 1
  }

  /** A queued frame is an event of its stream that was offered to its subscription, which the
      subscription's scope allows. */
  ghost predicate FrameOk(s: State, conn: ConnId, f: Frame) {
    f.Stdio? ==>
      && f.sub in s.ever && s.ever[f.sub].conn == conn && s.ever[f.sub].stdio
      && IsStream(s, f.req)
      && var r := s.requests[f.req];
      && f.index < |r.events| && f.event == r.events[f.index] && f.index < Offered(r, f.sub)
      && s.ever[f.sub].scope.Allows(r.task, r.conn)
  }

  predicate SameThread(f: Frame, g: Frame) {
    f.Stdio? && g.Stdio? && f.sub == g.sub && f.req == g.req
  }

  /** Frames of one stream to one subscription are queued in the order of their events. */
  ghost predicate Ordered(sent: seq<Frame>) {
    forall i, j :: 0 <= i < j < |sent| && SameThread(sent[i], sent[j]) ==> sent[i].index < sent[j].index
  }

  ghost predicate ChannelOk(s: State, conn: ConnId, chan: Channel) {
    && chan.taken <= |chan.sent| <= chan.taken + CAPACITY
    && (forall k :: 0 <= k < |chan.sent| ==> FrameOk(s, conn, chan.sent[k]))
    && Ordered(chan.sent)
  }

  ghost predicate ChannelsOk(s: State) {
    forall conn :: conn in s.conns ==> ChannelOk(s, conn, s.conns[conn].chan)
  }

  ghost predicate Inv(s: State) {
    RegistryOk(s) && RequestsOk(s) && ChannelsOk(s)
  }

  // ---------------------------------------------------------------- preservation

  /** Streams only move forward and subscriptions are only added, so old frames stay good. */
  ghost predicate Grows(s: State, s': State) {
    && (forall sub :: sub in s.ever ==> sub in s'.ever && s'.ever[sub] == s.ever[sub])
    && (forall req :: IsStream(s, req) ==>
          IsStream(s', req) &&
          var r, r' := s.requests[req], s'.requests[req];
          r'.events == r.events && r'.task == r.task && r'.conn == r.conn &&
          forall sub :: Offered(r, sub) <= Offered(r', sub))
  }

  lemma OldFrames(s: State, s': State)
    requires ChannelsOk(s) && Grows(s, s')
    requires forall conn :: conn in s'.conns ==>
               (if conn in s.conns then
                  s'.conns[conn].chan.sent == s.conns[conn].chan.sent &&
                  s'.conns[conn].chan.taken <= |s.conns[conn].chan.sent| &&
                  s.conns[conn].chan.taken <= s'.conns[conn].chan.taken
                else s'.conns[conn].chan == Channel([], 0, true))
    ensures ChannelsOk(s')
  {
    forall conn | conn in s'.conns ensures ChannelOk(s', conn, s'.conns[conn].chan) {
      if conn in s.conns {
        var sent := s.conns[conn].chan.sent;
        forall k | 0 <= k < |sent| ensures FrameOk(s', conn, sent[k]) {
          assert FrameOk(s, conn, sent[k]);
        }
      }
    }
  }

  /** Everything a step leaves to check once the old frames are known to be good. */
  lemma OldStreams(s: State, s': State)
    requires RequestsOk(s) && Grows(s, s')
    requires s.conns.Keys <= s'.conns.Keys
    requires forall conn :: conn in s'.conns ==> conn < s'.nextConn
    requires forall req :: req in s'.requests ==>
               s'.requests[req].conn in s'.conns &&
               (s'.requests[req].Active() ==> !s'.conns[s'.requests[req].conn].phase.Dropped?)
    requires forall req :: IsStream(s', req) ==>
               (IsStream(s, req) && s'.requests[req] == s.requests[req]) || s'.requests[req].Initial() ||
               StreamOk(s', s'.requests[req])
    ensures RequestsOk(s')
  {
    forall req | IsStream(s', req) ensures StreamOk(s', s'.requests[req]) {
      if IsStream(s, req) && s'.requests[req] == s.requests[req] { assert StreamOk(s, s.requests[req]); }
    }
  }

  lemma RequestStepGrows(s: State, req: ReqId, r: Request)
    requires Inv(s)
    requires IsStream(s, req) ==>
               r.Streaming? && r.events == s.requests[req].events && r.task == s.requests[req].task &&
               r.conn == s.requests[req].conn && forall sub :: Offered(s.requests[req], sub) <= Offered(r, sub)
    ensures Grows(s, SetRequest(s, req, r))
  {
  }

  lemma PendingAfter(targets: seq<Target>, sub: SubId)
    requires targets != [] && forall i, j :: 0 <= i < j < |targets| ==> targets[i].sub != targets[j].sub
    ensures Pending(targets, sub) <==> sub == targets[0].sub || Pending(targets[1..], sub)
    ensures !Pending(targets[1..], targets[0].sub)
  {
    var rest := targets[1..];
    if Pending(targets, sub) && sub != targets[0].sub {
      var i :| 0 <= i < |targets| && targets[i].sub == sub;
      assert rest[i - 1].sub == sub;
    }
    if Pending(rest, sub) {
      var i :| 0 <= i < |rest| && rest[i].sub == sub;
      assert targets[i + 1].sub == sub;
    }
  }

  /** The first target leaves the list: it has been offered the frame. */
  lemma FanOnKeepsInv(s: State, req: ReqId)
    requires Inv(s) && SendEnabled(s, req)
    ensures var r := s.requests[req];
            var r' := r.(pc := Fanning(r.pc.targets[1..]));
            && Inv(SetRequest(s, req, r'))
            && Offered(r, r.pc.targets[0].sub) == r.next && Offered(r', r.pc.targets[0].sub) == r.next + 1
            && TargetsOk(s, r.pc.targets)
  {
    var r := s.requests[req];
    assert StreamOk(s, r);
    forall sub { PendingAfter(r.pc.targets, sub); }
    PendingAfter(r.pc.targets, r.pc.targets[0].sub);
    var r' := r.(pc := Fanning(r.pc.targets[1..]));
    assert TargetsOk(s, r'.pc.targets);
    RequestStepKeepsInv(s, req, r');
  }

  lemma SendKeepsInv(s: State, req: ReqId)
    requires Inv(s) && SendEnabled(s, req)
    ensures Inv(SendOne(s, req))
  {
    var r := s.requests[req];
    var t := r.pc.targets[0];
    FanOnKeepsInv(s, req);
    if t.subscriber.scope.Allows(r.task, r.conn) {
      var s1 := SetRequest(s, req, r.(pc := Fanning(r.pc.targets[1..])));
      var conn := t.subscriber.conn;
      var f := Stdio(t.sub, req, r.next, r.events[r.next]);
      var chan := s.conns[conn].chan;
      if chan.open && chan.HasRoom() {
        assert FrameOk(s1, conn, f);
        assert ChannelOk(s, conn, chan);
        forall k | 0 <= k < |chan.sent| && SameThread(chan.sent[k], f) ensures chan.sent[k].index < f.index {
          assert FrameOk(s, conn, chan.sent[k]);
        }
        PushKeepsInv(s1, conn, f);
      } else {
        assert s1.conns[conn := s1.conns[conn].(chan := chan)] == s1.conns;
      }
    }
  }

  lemma PushKeepsChannel(s: State, conn: ConnId, f: Frame)
    requires conn in s.conns && ChannelOk(s, conn, s.conns[conn].chan)
    requires s.conns[conn].chan.HasRoom() && FrameOk(s, conn, f)
    requires forall k :: 0 <= k < |s.conns[conn].chan.sent| && SameThread(s.conns[conn].chan.sent[k], f) ==>
               s.conns[conn].chan.sent[k].index < f.index
    ensures ChannelOk(s, conn, s.conns[conn].chan.Push(f))
  {
    var sent := s.conns[conn].chan.sent;
    forall k | 0 <= k < |sent| + 1 ensures FrameOk(s, conn, (sent + [f])[k]) {
      if k < |sent| { assert FrameOk(s, conn, sent[k]); }
    }
  }

  lemma PushKeepsInv(s: State, conn: ConnId, f: Frame)
    requires Inv(s) && conn in s.conns && s.conns[conn].chan.HasRoom() && FrameOk(s, conn, f)
    requires forall k :: 0 <= k < |s.conns[conn].chan.sent| && SameThread(s.conns[conn].chan.sent[k], f) ==>
               s.conns[conn].chan.sent[k].index < f.index
    ensures Inv(SetChan(s, conn, s.conns[conn].chan.Push(f)))
  {
    var s' := SetChan(s, conn, s.conns[conn].chan.Push(f));
    assert ChannelOk(s, conn, s.conns[conn].chan);
    PushKeepsChannel(s, conn, f);
    PushKeepsChannels(s, conn, s.conns[conn].chan.Push(f));
    ChannelsAside(s, s');
  }

  /** Requests and registry do not depend on what the channels hold. */
  lemma ChannelsAside(s: State, s': State)
    requires RegistryOk(s) && RequestsOk(s)
    requires s'.registry == s.registry && s'.ever == s.ever && s'.requests == s.requests
    requires s'.nextConn == s.nextConn && s'.nextSub == s.nextSub && s'.conns.Keys == s.conns.Keys
    requires forall conn :: conn in s.conns ==> s'.conns[conn].phase == s.conns[conn].phase
    ensures RegistryOk(s') && RequestsOk(s')
  {
    forall req | IsStream(s', req) ensures StreamOk(s', s'.requests[req]) { assert StreamOk(s, s.requests[req]); }
  }

  lemma PushKeepsChannels(s: State, conn: ConnId, chan: Channel)
    requires ChannelsOk(s) && conn in s.conns && ChannelOk(s, conn, chan)
    ensures ChannelsOk(SetChan(s, conn, chan))
  {
    var s' := SetChan(s, conn, chan);
    forall c | c in s'.conns ensures ChannelOk(s', c, s'.conns[c].chan) {
      assert ChannelOk(s, c, s'.conns[c].chan);
      SameChannelOk(s, s', c, s'.conns[c].chan);
    }
  }

  lemma SameChannelOk(s: State, s': State, conn: ConnId, chan: Channel)
    requires ChannelOk(s, conn, chan) && s'.ever == s.ever && s'.requests == s.requests
    ensures ChannelOk(s', conn, chan)
  {
    forall k | 0 <= k < |chan.sent| ensures FrameOk(s', conn, chan.sent[k]) { assert FrameOk(s, conn, chan.sent[k]); }
  }

  /** The registry does not depend on requests, channels or how far a connection has come, short of
      being dropped. */
  lemma RegistryAside(s: State, s': State)
    requires RegistryOk(s) && s'.registry == s.registry && s'.ever == s.ever && s'.nextSub == s.nextSub
    requires s.conns.Keys <= s'.conns.Keys
    requires forall conn :: conn in s.conns && s'.conns[conn].phase.Dropped? ==> s.conns[conn].phase.Dropped?
    ensures RegistryOk(s')
  {
  }

  lemma SnapshotTargets(s: State, targets: seq<Target>)
    requires RegistryOk(s) && Snapshot(s.registry, targets)
    ensures TargetsOk(s, targets)
  {
    forall i | 0 <= i < |targets|
      ensures targets[i].sub in s.ever && s.ever[targets[i].sub] == targets[i].subscriber && targets[i].subscriber.stdio
    {}
  }

  lemma ReceiveKeepsInv(s: State, req: ReqId, targets: seq<Target>)
    requires Inv(s) && Enabled(s, Receive(req, targets))
    ensures Inv(Apply(s, Receive(req, targets)))
  {
    var r := s.requests[req];
    assert StreamOk(s, r);
    SnapshotTargets(s, targets);
    RequestStepKeepsInv(s, req, r.(pc := if r.next < |r.events| then Fanning(targets) else Ended(true)));
  }

  lemma RequestStepKeepsInv(s: State, req: ReqId, r': Request)
    requires Inv(s) && IsStream(s, req) && s.requests[req].Active()
    requires r'.Streaming? && r'.events == s.requests[req].events && r'.task == s.requests[req].task
    requires r'.conn == s.requests[req].conn && StreamOk(s, r')
    requires forall sub :: Offered(s.requests[req], sub) <= Offered(r', sub)
    ensures Inv(SetRequest(s, req, r'))
  {
    var s' := SetRequest(s, req, r');
    RequestStepGrows(s, req, r');
    OldFrames(s, s');
    assert StreamOk(s', r');
    OldStreams(s, s');
    RegistryAside(s, s');
  }

  lemma EndFanKeepsInv(s: State, req: ReqId)
    requires Inv(s) && Enabled(s, EndFan(req))
    ensures Inv(Apply(s, EndFan(req)))
  {
    var r := s.requests[req];
    assert StreamOk(s, r);
    RequestStepKeepsInv(s, req, r.(pc := Writing));
  }

  lemma WrittenKeepsInv(s: State, req: ReqId)
    requires Inv(s) && Enabled(s, Write(req, true))
    ensures Inv(Apply(s, Write(req, true)))
  {
    var r := s.requests[req];
    var r' := r.(pc := Receiving, next := r.next + 1);
    assert StreamOk(s, r);
    assert StreamOk(s, r');
    forall sub ensures Offered(r, sub) == Offered(r', sub) {}
    RequestStepKeepsInv(s, req, r');
    assert Apply(s, Write(req, true)) == SetRequest(s, req, r');
  }

  lemma WriteFailedKeepsInv(s: State, req: ReqId)
    requires Inv(s) && Enabled(s, Write(req, false))
    ensures Inv(Apply(s, Write(req, false)))
  {
    var r := s.requests[req];
    assert StreamOk(s, r);
    RequestStepKeepsInv(s, req, r.(pc := Ended(false)));
  }

  lemma SpawnKeepsInv(s: State, step: Step)
    requires Inv(s) && Enabled(s, step) && step.Spawn?
    ensures Inv(Apply(s, step))
  {
    var s' := Apply(s, step);
    assert Grows(s, s');
    OldFrames(s, s');
    OldStreams(s, s');
    assert RegistryOk(s');
  }

  /** A request that is no stream is answered. */
  lemma AnswerKeepsInv(s: State, req: ReqId)
    requires Inv(s) && req in s.requests && !s.requests[req].Streaming?
    ensures Inv(SetRequest(s, req, Answered(s.requests[req].conn)))
  {
    var s' := SetRequest(s, req, Answered(s.requests[req].conn));
    assert Grows(s, s');
    OldFrames(s, s');
    OldStreams(s, s');
    RegistryAside(s, s');
  }

  lemma RegisterKeepsInv(s: State, subscriber: Subscriber, want: Want)
    requires Inv(s) && subscriber.conn in s.conns && !s.conns[subscriber.conn].phase.Dropped?
    requires subscriber.scope.OwnConn? ==> subscriber.scope.conn == subscriber.conn
    ensures Inv(Registered(s, subscriber, want))
  {
    var s' := Registered(s, subscriber, want);
    RegisterKeepsRegistry(s, subscriber, want);
    assert Grows(s, s');
    OldFrames(s, s');
    OldStreams(s, s');
  }

  lemma RegisterKeepsRegistry(s: State, subscriber: Subscriber, want: Want)
    requires RegistryOk(s) && subscriber.conn in s.conns && !s.conns[subscriber.conn].phase.Dropped?
    requires subscriber.scope.OwnConn? ==> subscriber.scope.conn == subscriber.conn
    ensures RegistryOk(Registered(s, subscriber, want))
  {
  }

  lemma SubscribeKeepsInv(s: State, step: Step)
    requires Inv(s) && Enabled(s, step) && step.Subscribe?
    ensures Inv(Apply(s, step))
  {
    var r := s.requests[step.req];
    assert r.Active();
    AnswerKeepsInv(s, step.req);
    RegisterKeepsInv(SetRequest(s, step.req, Answered(r.conn)),
                     Subscriber(r.conn, r.stdio, ScopeFor(r.want, r.conn)), r.want);
  }

  lemma UnsubscribeKeepsInv(s: State, step: Step)
    requires Inv(s) && Enabled(s, step) && step.Unsubscribe?
    ensures Inv(Apply(s, step))
  {
    var answered := SetRequest(s, step.req, Answered(s.requests[step.req].conn));
    AnswerKeepsInv(s, step.req);
    FewerSubscriptions(answered, s.requests[step.req].sub);
    assert Apply(s, step) == answered.(registry := answered.registry - {s.requests[step.req].sub});
  }

  lemma FewerSubscriptions(s: State, sub: SubId)
    requires Inv(s)
    ensures Inv(s.(registry := s.registry - {sub}))
  {
    var s' := s.(registry := s.registry - {sub});
    assert Grows(s, s');
    OldFrames(s, s');
    OldStreams(s, s');
    assert RegistryOk(s');
  }

  /** A step that changes connections only: channels keep what was queued, and a connection is
      dropped only with no active request and no subscription left. */
  lemma ConnStepKeepsInv(s: State, s': State)
    requires Inv(s)
    requires s'.ever == s.ever && s'.requests == s.requests && s'.nextSub == s.nextSub
    requires s.conns.Keys <= s'.conns.Keys && forall conn :: conn in s'.conns ==> conn < s'.nextConn
    requires forall sub :: sub in s'.registry ==> sub in s.registry && s'.registry[sub] == s.registry[sub]
    requires forall conn :: conn in s'.conns ==>
               (if conn in s.conns then
                  s'.conns[conn].chan.sent == s.conns[conn].chan.sent &&
                  s.conns[conn].chan.taken <= s'.conns[conn].chan.taken <= |s.conns[conn].chan.sent|
                else s'.conns[conn].chan == Channel([], 0, true))
    requires forall conn :: conn in s.conns && s'.conns[conn].phase.Dropped? ==>
               (forall req :: req in s.requests && s.requests[req].conn == conn ==> !s.requests[req].Active()) &&
               (forall sub :: sub in s'.registry ==> s'.registry[sub].conn != conn)
    ensures Inv(s')
  {
    assert Grows(s, s');
    OldFrames(s, s');
    OldStreams(s, s');
    assert RegistryOk(s');
  }

  lemma TakenOk(s: State)
    requires Inv(s)
    ensures forall conn :: conn in s.conns ==> s.conns[conn].chan.taken <= |s.conns[conn].chan.sent|
  {
    forall conn | conn in s.conns ensures s.conns[conn].chan.taken <= |s.conns[conn].chan.sent| {
      assert ChannelOk(s, conn, s.conns[conn].chan);
    }
  }

  lemma AcceptKeepsInv(s: State)
    requires Inv(s)
    ensures Inv(Apply(s, Accept))
  {
    TakenOk(s);
    ConnStepKeepsInv(s, Apply(s, Accept));
  }

  lemma EofKeepsInv(s: State, conn: ConnId)
    requires Inv(s) && Enabled(s, Eof(conn))
    ensures Inv(Apply(s, Eof(conn)))
  {
    TakenOk(s);
    ConnStepKeepsInv(s, Apply(s, Eof(conn)));
  }

  /** The receiving end of a channel takes a frame or goes away. */
  lemma ReceiverKeepsInv(s: State, conn: ConnId, chan: Channel)
    requires Inv(s) && conn in s.conns && chan.sent == s.conns[conn].chan.sent
    requires s.conns[conn].chan.taken <= chan.taken <= |chan.sent|
    ensures Inv(SetChan(s, conn, chan))
  {
    TakenOk(s);
    ConnStepKeepsInv(s, SetChan(s, conn, chan));
  }

  lemma CloseKeepsInv(s: State, conn: ConnId)
    requires Inv(s) && Enabled(s, Close(conn))
    ensures Inv(Apply(s, Close(conn)))
  {
    TakenOk(s);
    ReceiverKeepsInv(s, conn, s.conns[conn].chan.(open := false));
  }

  lemma DrainKeepsInv(s: State, conn: ConnId)
    requires Inv(s) && Enabled(s, Drain(conn))
    ensures Inv(Apply(s, Drain(conn)))
  {
    var chan := s.conns[conn].chan;
    assert Apply(s, Drain(conn)) == SetChan(s, conn, chan.(taken := chan.taken + 1));
    ReceiverKeepsInv(s, conn, chan.(taken := chan.taken + 1));
  }

  lemma DropKeepsInv(s: State, conn: ConnId)
    requires Inv(s) && Enabled(s, Drop(conn))
    ensures Inv(Apply(s, Drop(conn)))
  {
    TakenOk(s);
    ConnStepKeepsInv(s, Apply(s, Drop(conn)));
  }

  lemma OccupyKeepsInv(s: State, conn: ConnId)
    requires Inv(s) && conn in s.conns
    ensures Inv(Apply(s, Occupy(conn)))
  {
    var chan := s.conns[conn].chan;
    if chan.open && chan.HasRoom() {
      PushKeepsInv(s, conn, Other);
    } else {
      assert s.conns[conn := s.conns[conn].(chan := chan)] == s.conns;
    }
  }

  lemma StepKeepsInv(s: State, step: Step)
    requires Inv(s) && Enabled(s, step)
    ensures Inv(Apply(s, step))
  {
    match step
    case Send(req) => SendKeepsInv(s, req);
    case Receive(req, targets) => ReceiveKeepsInv(s, req, targets);
    case EndFan(req) => EndFanKeepsInv(s, req);
    case Write(req, ok) => if ok { WrittenKeepsInv(s, req); } else { WriteFailedKeepsInv(s, req); }
    case Spawn(_, _) => SpawnKeepsInv(s, step);
    case Subscribe(_) => SubscribeKeepsInv(s, step);
    case Unsubscribe(_) => UnsubscribeKeepsInv(s, step);
    case Occupy(conn) => OccupyKeepsInv(s, conn);
    case Drop(conn) => DropKeepsInv(s, conn);
    case Accept => AcceptKeepsInv(s);
    case Eof(conn) => EofKeepsInv(s, conn);
    case Close(conn) => CloseKeepsInv(s, conn);
    case Drain(conn) => DrainKeepsInv(s, conn);
  }

  lemma {:induction false} RunKeepsInv(s: State, steps: seq<Step>)
    requires Inv(s) && Valid(s, steps)
    ensures Inv(Exec(s, steps))
    decreases |steps|
  {
    if steps != [] {
      StepKeepsInv(s, steps[0]);
      RunKeepsInv(Apply(s, steps[0]), steps[1..]);
    }
  }

  lemma InitInv()
    ensures Inv(INIT)
  {
  }

  // ---------------------------------------------------------------- isolation

  /** In every reachable state an own-conn scope names its subscriber's own connection, and
      every stdio frame ever queued for such a subscription comes from a command that the same
      connection sent; a frame queued under a task list comes from a listed task. */
  lemma OwnConnIsolation(steps: seq<Step>, conn: ConnId, k: nat)
    requires Valid(INIT, steps)
    ensures var s := Exec(INIT, steps);
            && (forall sub :: sub in s.registry && s.registry[sub].scope.OwnConn? ==>
                  s.registry[sub].scope.conn == s.registry[sub].conn)
            && (conn in s.conns && k < |s.conns[conn].chan.sent| && s.conns[conn].chan.sent[k].Stdio? ==>
                  var f := s.conns[conn].chan.sent[k];
                  && f.sub in s.ever && s.ever[f.sub].conn == conn && IsStream(s, f.req)
                  && (s.ever[f.sub].scope.OwnConn? ==> s.requests[f.req].conn == conn)
                  && (s.ever[f.sub].scope.Tasks? ==>
                        s.requests[f.req].task.Some? && s.requests[f.req].task.value in s.ever[f.sub].scope.ids))
  {
    InitInv();
    RunKeepsInv(INIT, steps);
    var s := Exec(INIT, steps);
    if conn in s.conns && k < |s.conns[conn].chan.sent| {
      assert ChannelOk(s, conn, s.conns[conn].chan);
      assert FrameOk(s, conn, s.conns[conn].chan.sent[k]);
    }
  }

  // ---------------------------------------------------------------- cleanup

  lemma StepKeepsDropped(s: State, step: Step, conn: ConnId)
    requires Enabled(s, step) && conn in s.conns && s.conns[conn].phase.Dropped? && conn < s.nextConn
    ensures var s' := Apply(s, step); conn in s'.conns && s'.conns[conn].phase.Dropped? && conn < s'.nextConn
  {
  }

  lemma {:induction false} DroppedForever(s: State, steps: seq<Step>, conn: ConnId)
    requires Valid(s, steps) && conn in s.conns && s.conns[conn].phase.Dropped? && conn < s.nextConn
    ensures conn in Exec(s, steps).conns && Exec(s, steps).conns[conn].phase.Dropped?
    decreases |steps|
  {
    if steps != [] {
      StepKeepsDropped(s, steps[0], conn);
      DroppedForever(Apply(s, steps[0]), steps[1..], conn);
    }
  }

  /** Once a connection has joined its request tasks and dropped its subscriptions, no
      subscription of it is ever in the registry again, and none of its requests is active. */
  lemma CleanedUpForGood(before: seq<Step>, after: seq<Step>, conn: ConnId)
    requires Valid(INIT, before) && Enabled(Exec(INIT, before), Drop(conn))
    requires Valid(Apply(Exec(INIT, before), Drop(conn)), after)
    ensures var s := Exec(Apply(Exec(INIT, before), Drop(conn)), after);
            && (forall sub :: sub in s.registry ==> s.registry[sub].conn != conn)
            && (forall req :: req in s.requests && s.requests[req].conn == conn ==> !s.requests[req].Active())
  {
    InitInv();
    RunKeepsInv(INIT, before);
    var dropped := Apply(Exec(INIT, before), Drop(conn));
    StepKeepsInv(Exec(INIT, before), Drop(conn));
    DroppedForever(dropped, after, conn);
    RunKeepsInv(dropped, after);
    var s := Exec(dropped, after);
    assert RegistryOk(s) && RequestsOk(s);
  }

  // ---------------------------------------------------------------- lossy chunks, lossless end

  /** The frames of stream `req` in a channel that are addressed to `sub`. */
  function Project(sent: seq<Frame>, sub: SubId, req: ReqId): seq<Frame> {
    if sent == [] then []
    else
      var f := sent[|sent| - 1];
      Project(sent[..|sent| - 1], sub, req) + (if f.Stdio? && f.sub == sub && f.req == req then [f] else [])
  }

  /** What `Project` keeps: its frames are those of the channel, in the channel's order. */
  lemma {:induction false} ProjectKeepsOrder(sent: seq<Frame>, sub: SubId, req: ReqId)
    requires Ordered(sent)
    ensures forall f :: f in Project(sent, sub, req) <==> f in sent && f.Stdio? && f.sub == sub && f.req == req
    ensures forall i, j :: 0 <= i < j < |Project(sent, sub, req)| ==>
              Project(sent, sub, req)[i].Stdio? && Project(sent, sub, req)[j].Stdio? &&
              Project(sent, sub, req)[i].index < Project(sent, sub, req)[j].index
    decreases |sent|
  {
    if sent != [] {
      var init, f := sent[..|sent| - 1], sent[|sent| - 1];
      ProjectKeepsOrder(init, sub, req);
      assert sent == init + [f];
      forall g | g in Project(init, sub, req) && SameThread(g, f) ensures g.index < f.index {
        var i :| 0 <= i < |init| && init[i] == g;
        assert sent[i] == g && sent[|sent| - 1] == f;
      }
      forall g ensures g in sent <==> g in init || g == f {}
    }
  }

  /** `sub` is a stdio subscription whose scope allows `req`'s stream, still registered, with a
      receiver that is there. */
  ghost predicate Listening(s: State, sub: SubId) {
    sub in s.registry && s.registry[sub].stdio && s.registry[sub].conn in s.conns &&
    s.conns[s.registry[sub].conn].chan.open
  }

  ghost predicate KeepsListening(s: State, steps: seq<Step>, sub: SubId)
    requires Valid(s, steps)
    decreases |steps|
  {
    Listening(s, sub) && (steps != [] ==> KeepsListening(Apply(s, steps[0]), steps[1..], sub))
  }

  /** Every terminal frame that was offered to `sub` is in its channel. */
  ghost predicate EndsDelivered(s: State, sub: SubId, req: ReqId) {
    Listening(s, sub) && IsStream(s, req) ==>
      var r := s.requests[req];
      forall d :: 0 <= d < |r.events| && r.events[d].Done? && d < Offered(r, sub) &&
                  s.registry[sub].scope.Allows(r.task, r.conn) ==>
        Stdio(sub, req, d, r.events[d]) in s.conns[s.registry[sub].conn].chan.sent
  }

  lemma SendDelivers(s: State, sub: SubId, req: ReqId, other: ReqId)
    requires Inv(s) && SendEnabled(s, other) && Listening(s, sub) && EndsDelivered(s, sub, req)
    requires Listening(SendOne(s, other), sub)
    ensures EndsDelivered(SendOne(s, other), sub, req)
  {
    if other == req {
      OwnSendDelivers(s, sub, req);
    } else {
      var conn := s.registry[sub].conn;
      assert forall f :: f in s.conns[conn].chan.sent ==> f in SendOne(s, other).conns[conn].chan.sent;
    }
  }

  lemma OwnSendDelivers(s: State, sub: SubId, req: ReqId)
    requires Inv(s) && SendEnabled(s, req) && Listening(s, sub) && EndsDelivered(s, sub, req)
    requires Listening(SendOne(s, req), sub)
    ensures EndsDelivered(SendOne(s, req), sub, req)
  {
    var conn, r := s.registry[sub].conn, s.requests[req];
    assert forall f :: f in s.conns[conn].chan.sent ==> f in SendOne(s, req).conns[conn].chan.sent;
    assert StreamOk(s, r);
    PendingAfter(r.pc.targets, sub);
    assert r.pc.targets[0].sub in s.ever && s.ever[r.pc.targets[0].sub] == r.pc.targets[0].subscriber;
    assert sub in s.ever && s.ever[sub] == s.registry[sub];
  }

  lemma ReceiveOffersToAll(s: State, sub: SubId, req: ReqId, targets: seq<Target>)
    requires Inv(s) && Enabled(s, Receive(req, targets)) && Listening(s, sub)
    requires s.requests[req].next < |s.requests[req].events|
    ensures Offered(Apply(s, Receive(req, targets)).requests[req], sub) == s.requests[req].next
  {
    assert Target(sub, s.registry[sub]) in targets;
    var i :| 0 <= i < |targets| && targets[i] == Target(sub, s.registry[sub]);
    assert targets[i].sub == sub;
    assert Pending(targets, sub);
  }

  lemma StepDelivers(s: State, step: Step, sub: SubId, req: ReqId)
    requires Inv(s) && Enabled(s, step) && Listening(s, sub) && EndsDelivered(s, sub, req)
    requires Listening(Apply(s, step), sub)
    ensures EndsDelivered(Apply(s, step), sub, req)
  {
    if step.Send? {
      SendDelivers(s, sub, req, step.req);
    } else if step.Receive? {
      ReceiveDelivers(s, step, sub, req);
    } else if step.Occupy? {
      OccupyDelivers(s, step, sub, req);
    } else if step.EndFan? || step.Write? {
      StreamStepDelivers(s, step, sub, req);
    } else if step.Spawn? || step.Subscribe? || step.Unsubscribe? {
      HandlerStepDelivers(s, step, sub, req);
    } else {
      ConnStepDelivers(s, step, sub, req);
    }
  }

  lemma ReceiveDelivers(s: State, step: Step, sub: SubId, req: ReqId)
    requires Inv(s) && Enabled(s, step) && Listening(s, sub) && EndsDelivered(s, sub, req)
    requires step.Receive? && Listening(Apply(s, step), sub)
    ensures EndsDelivered(Apply(s, step), sub, req)
  {
    var s' := Apply(s, step);
    if step.req == req && s.requests[req].next < |s.requests[req].events| {
      ReceiveOffersToAll(s, sub, req, step.targets);
    }
    if step.req == req { assert StreamOk(s, s.requests[req]); }
    assert s'.conns == s.conns && s'.registry == s.registry;
  }

  lemma OccupyDelivers(s: State, step: Step, sub: SubId, req: ReqId)
    requires Enabled(s, step) && Listening(s, sub) && EndsDelivered(s, sub, req)
    requires step.Occupy? && Listening(Apply(s, step), sub)
    ensures EndsDelivered(Apply(s, step), sub, req)
  {
    var s' := Apply(s, step);
    assert forall f :: f in s.conns[step.conn].chan.sent ==> f in s'.conns[step.conn].chan.sent;
    assert s'.requests == s.requests && s'.registry == s.registry;
  }

  lemma ConnStepDelivers(s: State, step: Step, sub: SubId, req: ReqId)
    requires RequestsOk(s) && Enabled(s, step) && Listening(s, sub) && EndsDelivered(s, sub, req)
    requires Listening(Apply(s, step), sub)
    requires step.Accept? || step.Eof? || step.Drop? || step.Close? || step.Drain?
    ensures EndsDelivered(Apply(s, step), sub, req)
  {
    var s' := Apply(s, step);
    assert s'.requests == s.requests && s'.registry[sub] == s.registry[sub];
    assert s'.conns[s.registry[sub].conn].chan.sent == s.conns[s.registry[sub].conn].chan.sent;
  }

  lemma StreamStepDelivers(s: State, step: Step, sub: SubId, req: ReqId)
    requires Enabled(s, step) && Listening(s, sub) && EndsDelivered(s, sub, req)
    requires step.EndFan? || step.Write?
    ensures EndsDelivered(Apply(s, step), sub, req)
  {
    var s' := Apply(s, step);
    assert s'.registry == s.registry && s'.conns == s.conns;
    if IsStream(s', req) {
      assert s'.requests[req].events == s.requests[req].events;
      assert Offered(s'.requests[req], sub) == Offered(s.requests[req], sub);
    }
  }

  lemma HandlerStepDelivers(s: State, step: Step, sub: SubId, req: ReqId)
    requires RegistryOk(s) && Enabled(s, step) && Listening(s, sub) && EndsDelivered(s, sub, req)
    requires Listening(Apply(s, step), sub)
    requires step.Spawn? || step.Subscribe? || step.Unsubscribe?
    ensures EndsDelivered(Apply(s, step), sub, req)
  {
    var s' := Apply(s, step);
    assert sub < s.nextSub && s'.registry[sub] == s.registry[sub] && s'.conns == s.conns;
  }

  lemma SubscriptionStays(s: State, step: Step, sub: SubId)
    requires RegistryOk(s) && Enabled(s, step) && sub in s.registry && sub in Apply(s, step).registry
    ensures Apply(s, step).registry[sub] == s.registry[sub]
  {
  }

  lemma {:induction false} RunDelivers(s: State, steps: seq<Step>, sub: SubId, req: ReqId)
    requires Inv(s) && Valid(s, steps) && EndsDelivered(s, sub, req) && KeepsListening(s, steps, sub)
    ensures Inv(Exec(s, steps)) && Listening(Exec(s, steps), sub) && EndsDelivered(Exec(s, steps), sub, req)
    ensures Exec(s, steps).registry[sub] == s.registry[sub]
    decreases |steps|
  {
    if steps != [] {
      StepKeepsInv(s, steps[0]);
      StepDelivers(s, steps[0], sub, req);
      SubscriptionStays(s, steps[0], sub);
      RunDelivers(Apply(s, steps[0]), steps[1..], sub, req);
    }
  }

  /** The frames are events of the stream, in order and without repetition. */
  predicate InOrder(got: seq<Frame>, events: seq<Event>) {
    && (forall i :: 0 <= i < |got| ==>
          got[i].Stdio? && got[i].index < |events| && got[i].event == events[got[i].index])
    && (forall i, j :: 0 <= i < j < |got| ==> got[i].index < got[j].index)
  }

  /** The last event is the last frame, and no other frame is terminal. */
  predicate EndsOnce(got: seq<Frame>, events: seq<Event>)
    requires InOrder(got, events) && events != []
  {
    && got != [] && got[|got| - 1].event == events[|events| - 1]
    && (forall i :: 0 <= i < |got| - 1 ==> got[i].event.Chunk?)
  }

  /** What stands in a projection of a channel. */
  lemma ProjectionInOrder(s: State, conn: ConnId, sub: SubId, req: ReqId)
    requires Inv(s) && conn in s.conns && IsStream(s, req)
    ensures Ordered(s.conns[conn].chan.sent)
    ensures InOrder(Project(s.conns[conn].chan.sent, sub, req), s.requests[req].events)
    ensures forall f :: f in Project(s.conns[conn].chan.sent, sub, req) ==> f.Stdio? && f.sub == sub && f.req == req
    ensures forall f :: f in Project(s.conns[conn].chan.sent, sub, req) ==> FrameOk(s, conn, f)
  {
    var sent := s.conns[conn].chan.sent;
    assert ChannelOk(s, conn, s.conns[conn].chan);
    ProjectKeepsOrder(sent, sub, req);
    var got := Project(sent, sub, req);
    forall f | f in got ensures f.Stdio? && f.sub == sub && f.req == req && FrameOk(s, conn, f) {
      var k :| 0 <= k < |sent| && sent[k] == f;
      assert FrameOk(s, conn, sent[k]);
    }
    forall i | 0 <= i < |got|
      ensures got[i].index < |s.requests[req].events| && got[i].event == s.requests[req].events[got[i].index]
    {
      assert got[i] in got && FrameOk(s, conn, got[i]);
    }
  }

  /** In an increasing sequence the largest possible value can only stand at the end. */
  lemma TopIsLast(s: seq<nat>, i: nat, n: nat)
    requires forall j, k :: 0 <= j < k < |s| ==> s[j] < s[k]
    requires forall j :: 0 <= j < |s| ==> s[j] < n
    requires i < |s| && s[i] == n - 1
    ensures i == |s| - 1 && s[|s| - 1] == n - 1
  {
  }

  lemma LastIsTerminal(got: seq<Frame>, events: seq<Event>, f: Frame)
    requires InOrder(got, events) && events != [] && forall i :: 0 <= i < |events| - 1 ==> events[i].Chunk?
    requires f in got && f.index == |events| - 1
    ensures EndsOnce(got, events)
  {
    var i :| 0 <= i < |got| && got[i] == f;
    TopIsLast(seq(|got|, j requires 0 <= j < |got| => got[j].index), i, |events|);
    forall k | 0 <= k < |got| - 1 ensures got[k].event.Chunk? { assert got[k].index < got[|got| - 1].index; }
  }

  lemma QueuedEndIsLast(sent: seq<Frame>, events: seq<Event>, last: Frame)
    requires Ordered(sent) && last in sent && last.Stdio?
    requires events != [] && last.index == |events| - 1 && forall i :: 0 <= i < |events| - 1 ==> events[i].Chunk?
    requires InOrder(Project(sent, last.sub, last.req), events)
    ensures EndsOnce(Project(sent, last.sub, last.req), events)
  {
    ProjectKeepsOrder(sent, last.sub, last.req);
    LastIsTerminal(Project(sent, last.sub, last.req), events, last);
  }

  /** The stream has a terminal event, and its connection was still taking frames when that event
      came up: it was the last one written, or the one whose write failed. */
  predicate Finishes(r: Request)
    requires r.Streaming?
  {
    r.events != [] && r.events[|r.events| - 1].Done? && r.next + 1 >= |r.events|
  }

  /** What subscription `sub` has been queued of an ended stream `req`: nothing if its scope does not
      allow it; otherwise events of the stream in order without repetition, with the terminal event
      last and once if the stream got that far, and without any terminal event if it did not. */
  ghost predicate Delivered(s: State, sub: SubId, req: ReqId)
    requires Listening(s, sub) && IsStream(s, req)
  {
    var r := s.requests[req];
    var got := Project(s.conns[s.registry[sub].conn].chan.sent, sub, req);
    && InOrder(got, r.events)
    && (if !s.registry[sub].scope.Allows(r.task, r.conn) then got == []
        else if Finishes(r) then EndsOnce(got, r.events)
        else forall i :: 0 <= i < |got| ==> got[i].event.Chunk?)
  }

  lemma EndIsQueued(s: State, sub: SubId, req: ReqId)
    requires RequestsOk(s) && Listening(s, sub) && EndsDelivered(s, sub, req)
    requires IsStream(s, req) && s.requests[req].pc.Ended? && Finishes(s.requests[req])
    requires s.registry[sub].scope.Allows(s.requests[req].task, s.requests[req].conn)
    ensures var events := s.requests[req].events;
            && (forall i :: 0 <= i < |events| - 1 ==> events[i].Chunk?)
            && Stdio(sub, req, |events| - 1, events[|events| - 1]) in s.conns[s.registry[sub].conn].chan.sent
  {
    assert StreamOk(s, s.requests[req]);
  }

  /** A frame that stands for `sub` in a channel is allowed, and it is a chunk unless its stream got
      to the terminal event. */
  lemma FrameOfEnded(s: State, sub: SubId, f: Frame)
    requires Inv(s) && Listening(s, sub) && f.Stdio? && f.sub == sub && FrameOk(s, s.registry[sub].conn, f)
    requires s.requests[f.req].pc.Ended?
    ensures s.registry[sub].scope.Allows(s.requests[f.req].task, s.requests[f.req].conn)
    ensures !Finishes(s.requests[f.req]) ==> f.event.Chunk?
  {
    assert StreamOk(s, s.requests[f.req]);
  }

  lemma FramesOfEnded(s: State, sub: SubId, req: ReqId, got: seq<Frame>)
    requires Inv(s) && Listening(s, sub) && IsStream(s, req) && s.requests[req].pc.Ended?
    requires forall f :: f in got ==> f.Stdio? && f.sub == sub && f.req == req
    requires forall f :: f in got ==> FrameOk(s, s.registry[sub].conn, f)
    ensures got != [] ==> s.registry[sub].scope.Allows(s.requests[req].task, s.requests[req].conn)
    ensures !Finishes(s.requests[req]) ==> forall i :: 0 <= i < |got| ==> got[i].event.Chunk?
  {
    forall i | 0 <= i < |got|
      ensures s.registry[sub].scope.Allows(s.requests[req].task, s.requests[req].conn)
      ensures !Finishes(s.requests[req]) ==> got[i].event.Chunk?
    {
      assert got[i] in got;
      FrameOfEnded(s, sub, got[i]);
    }
    assert got != [] ==> got[0] in got;
  }

  lemma EndedStreamDelivered(s: State, sub: SubId, req: ReqId)
    requires Inv(s) && Listening(s, sub) && EndsDelivered(s, sub, req)
    requires IsStream(s, req) && s.requests[req].pc.Ended?
    ensures Delivered(s, sub, req)
  {
    var conn, r := s.registry[sub].conn, s.requests[req];
    ProjectionInOrder(s, conn, sub, req);
    FramesOfEnded(s, sub, req, Project(s.conns[conn].chan.sent, sub, req));
    if s.registry[sub].scope.Allows(r.task, r.conn) && Finishes(r) {
      EndIsQueued(s, sub, req);
      QueuedEndIsLast(s.conns[conn].chan.sent, r.events, Stdio(sub, req, |r.events| - 1, r.events[|r.events| - 1]));
    }
  }

  /** Whatever the channel's fill level at each send, a subscription that listens from before the
      stream is spawned until the stream has ended, and whose scope allows it, has been queued a part
      of its chunks in order; then exactly one end if the requester took every frame before it, and
      no end otherwise. */
  lemma LossyChunksLosslessEnd(s: State, steps: seq<Step>, sub: SubId, req: ReqId)
    requires Inv(s) && Valid(s, steps) && KeepsListening(s, steps, sub) && req !in s.requests
    requires IsStream(Exec(s, steps), req) && Exec(s, steps).requests[req].pc.Ended?
    ensures Listening(Exec(s, steps), sub) && Delivered(Exec(s, steps), sub, req)
  {
    RunDelivers(s, steps, sub, req);
    EndedStreamDelivered(Exec(s, steps), sub, req);
  }

  /** A frame offered to a listening, allowed subscription is queued unless it is a chunk and
      the channel is full; and no channel ever holds more than its capacity. */
  lemma DropsOnlyChunksWhenFull(s: State, req: ReqId)
    requires Inv(s) && SendEnabled(s, req)
    ensures var r := s.requests[req];
            var t := r.pc.targets[0];
            var chan, chan' := s.conns[t.subscriber.conn].chan, SendOne(s, req).conns[t.subscriber.conn].chan;
            && |chan'.sent| - chan'.taken <= CAPACITY
            && (chan.open && t.subscriber.scope.Allows(r.task, r.conn) ==>
                  if |chan.sent| - chan.taken < CAPACITY
                  then chan'.sent == chan.sent + [Stdio(t.sub, req, r.next, r.events[r.next])]
                  else r.events[r.next].Chunk? && chan' == chan)
  {
    var conn := s.requests[req].pc.targets[0].subscriber.conn;
    assert ChannelOk(s, conn, s.conns[conn].chan);
  }
}
