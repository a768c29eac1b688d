/** How connections of the broker depend on each other: a subscriber that does not read holds up the
    streams of others, and who can end a subscription. */
module BrokerTies {
  import opened Basics
  import opened Broker
  import opened BrokerRuns

  // ---------------------------------------------------------------- a subscriber that does not read

  /** Stream `req` has its terminal event to offer to a subscription whose channel is full. */
  ghost predicate Stalled(s: State, req: ReqId) {
    && IsStream(s, req)
    && var r := s.requests[req];
    && r.pc.Fanning? && r.pc.targets != [] && r.next < |r.events| && r.events[r.next].Done?
    && var t := r.pc.targets[0].subscriber;
    && t.scope.Allows(r.task, r.conn) && t.conn in s.conns && Full(s.conns[t.conn].chan)
  }

  /** The step takes a frame from the channel of `conn` or ends its receiver. */
  predicate Relieves(step: Step, conn: ConnId) { step == Drain(conn) || step == Close(conn) }

  predicate Full(chan: Channel) { chan.open && !chan.HasRoom() }

  lemma StaysFullExactly(s: State, step: Step, conn: ConnId)
    requires Enabled(s, step) && conn in s.conns && Full(s.conns[conn].chan)
    requires conn < s.nextConn && |s.conns[conn].chan.sent| <= s.conns[conn].chan.taken + CAPACITY
    ensures conn in Apply(s, step).conns
    ensures Full(Apply(s, step).conns[conn].chan) <==> !Relieves(step, conn)
  {
  }

  lemma OnlySendMoves(s: State, step: Step, req: ReqId)
    requires Stalled(s, req) && Enabled(s, step)
    ensures step != Send(req) && step != Drop(s.requests[req].conn)
    ensures req in Apply(s, step).requests && Apply(s, step).requests[req] == s.requests[req]
  {
    assert s.requests[req].Active();
  }

  /** Only the reader of the full channel can let the stream go on: a step of anybody else leaves it
      where it is, and its connection cannot be cleaned up. */
  lemma StepStallsExactly(s: State, step: Step, req: ReqId)
    requires Inv(s) && Stalled(s, req) && Enabled(s, step)
    ensures step != Send(req) && step != Drop(s.requests[req].conn)
    ensures IsStream(Apply(s, step), req) && Apply(s, step).requests[req] == s.requests[req]
    ensures Stalled(Apply(s, step), req) <==> !Relieves(step, s.requests[req].pc.targets[0].subscriber.conn)
  {
    var conn := s.requests[req].pc.targets[0].subscriber.conn;
    assert ChannelOk(s, conn, s.conns[conn].chan) && conn < s.nextConn;
    OnlySendMoves(s, step, req);
    StaysFullExactly(s, step, conn);
  }

  predicate NobodyRelieves(steps: seq<Step>, conn: ConnId) {
    forall i :: 0 <= i < |steps| ==> !Relieves(steps[i], conn)
  }

  lemma NoCleanup(s: State, req: ReqId)
    requires Stalled(s, req)
    ensures !Enabled(s, Drop(s.requests[req].conn)) && !Enabled(s, Send(req))
  {
    assert s.requests[req].Active();
  }

  /** As long as the reader neither reads nor goes away, every run leaves the stream where it is, and
      its own connection cannot be cleaned up. */
  lemma {:induction false} StallLasts(s: State, steps: seq<Step>, req: ReqId)
    requires Inv(s) && Stalled(s, req) && Valid(s, steps)
    requires NobodyRelieves(steps, s.requests[req].pc.targets[0].subscriber.conn)
    ensures Stalled(Exec(s, steps), req) && Exec(s, steps).requests[req] == s.requests[req]
    ensures !Enabled(Exec(s, steps), Drop(s.requests[req].conn)) && !Enabled(Exec(s, steps), Send(req))
    decreases |steps|
  {
    if steps == [] {
      NoCleanup(s, req);
    } else {
      StepKeepsInv(s, steps[0]);
      StepStallsExactly(s, steps[0], req);
      StallLasts(Apply(s, steps[0]), steps[1..], req);
    }
  }

  // ---------------------------------------------------------------- a requester that does not take frames

  /** When writing a frame to the requester fails, the stream is over: whatever happens later, it offers
      nothing more to anybody. */
  lemma {:induction false} EndedStays(s: State, steps: seq<Step>, req: ReqId)
    requires Valid(s, steps) && IsStream(s, req) && s.requests[req].pc.Ended?
    ensures IsStream(Exec(s, steps), req) && Exec(s, steps).requests[req] == s.requests[req]
    decreases |steps|
  {
    if steps != [] {
      EndedStep(s, steps[0], req);
      EndedStays(Apply(s, steps[0]), steps[1..], req);
    }
  }

  lemma EndedStep(s: State, step: Step, req: ReqId)
    requires Enabled(s, step) && IsStream(s, req) && s.requests[req].pc.Ended?
    ensures IsStream(Apply(s, step), req) && Apply(s, step).requests[req] == s.requests[req]
  {
  }

  lemma FailedWriteEndsStream(s: State, req: ReqId, steps: seq<Step>)
    requires Enabled(s, Write(req, false)) && Valid(Apply(s, Write(req, false)), steps)
    ensures var r, s' := s.requests[req], Exec(Apply(s, Write(req, false)), steps);
            && IsStream(s', req) && s'.requests[req] == r.(pc := Ended(false))
            && !s'.requests[req].Active()
  {
    EndedStays(Apply(s, Write(req, false)), steps, req);
  }

  // ---------------------------------------------------------------- a stall that happens

  lemma Before(s: State, step: Step, rest: seq<Step>)
    requires Enabled(s, step) && Valid(Apply(s, step), rest)
    ensures Valid(s, [step] + rest) && Exec(s, [step] + rest) == Exec(Apply(s, step), rest)
  {
    assert ([step] + rest)[1..] == rest;
  }

  /** `n` telemetry or screenshot frames more in the channel of `conn`. */
  function Fuller(s: State, conn: ConnId, n: nat): State
    requires conn in s.conns
  {
    SetChan(s, conn, s.conns[conn].chan.(sent := s.conns[conn].chan.sent + seq(n, _ => Other)))
  }

  lemma {:induction false} FillUp(s: State, conn: ConnId, n: nat, rest: seq<Step>) returns (steps: seq<Step>)
    requires conn in s.conns && s.conns[conn].chan.open
    requires |s.conns[conn].chan.sent| + n <= s.conns[conn].chan.taken + CAPACITY
    requires Valid(Fuller(s, conn, n), rest)
    ensures Valid(s, steps) && Exec(s, steps) == Exec(Fuller(s, conn, n), rest)
    decreases n
  {
    if n == 0 {
      assert s.conns[conn].chan.sent + seq(0, _ => Other) == s.conns[conn].chan.sent;
      assert s.conns[conn := s.conns[conn]] == s.conns;
      assert Fuller(s, conn, 0) == s;
      return rest;
    }
    var s' := Apply(s, Occupy(conn));
    var sent := s.conns[conn].chan.sent;
    assert sent + [Other] + seq(n - 1, _ => Other) == sent + seq(n, _ => Other);
    assert s'.conns[conn := Fuller(s, conn, n).conns[conn]] == Fuller(s, conn, n).conns;
    assert Fuller(s', conn, n - 1) == Fuller(s, conn, n);
    var more := FillUp(s', conn, n - 1, rest);
    Before(s, Occupy(conn), more);
    steps := [Occupy(conn)] + more;
  }

  /** Two connections: the first subscribes and stops reading while telemetry fills its channel; then
      the stream of the second is stuck. */
  lemma StallHappens() returns (steps: seq<Step>)
    ensures Valid(INIT, steps) && Stalled(Exec(INIT, steps), 2)
    ensures Exec(INIT, steps).requests[2].conn != Exec(INIT, steps).requests[2].pc.targets[0].subscriber.conn
  {
    var s1 := Apply(INIT, Accept);
    var s2 := Apply(s1, Accept);
    var subscribe := Spawn(1, Subscribing(1, true, WantAll));
    var s3 := Apply(s2, subscribe);
    var s4 := Apply(s3, Subscribe(1));
    var stream := Spawn(2, Streaming(2, None, [Done("")], 0, Receiving));
    var s5 := Apply(s4, stream);
    var s6 := Fuller(s5, 1, CAPACITY);
    var targets := [Target(1, Subscriber(1, true, All))];
    assert Target(1, Subscriber(1, true, All)) in targets;
    var receive := Receive(2, targets);
    assert Snapshot(s6.registry, targets);
    var s7 := Apply(s6, receive);
    assert Stalled(s7, 2);
    Before(s6, receive, []);
    steps := FillUp(s5, 1, CAPACITY, [receive] + []);
    Before(s4, stream, steps);
    steps := [stream] + steps;
    Before(s3, Subscribe(1), steps);
    steps := [Subscribe(1)] + steps;
    Before(s2, subscribe, steps);
    steps := [subscribe] + steps;
    Before(s1, Accept, steps);
    steps := [Accept] + steps;
    Before(INIT, Accept, steps);
    steps := [Accept] + steps;
  }

  // ---------------------------------------------------------------- who ends a subscription

  /** The step is an unsubscribe request that names `sub`, whoever asks, or the cleanup of the
      connection that `sub` belongs to. */
  ghost predicate Removes(s: State, step: Step, sub: SubId)
    requires Enabled(s, step) && sub in s.registry
  {
    || (step.Unsubscribe? && s.requests[step.req].sub == sub)
    || (step.Drop? && step.conn == s.registry[sub].conn)
  }

  ghost predicate RemovedIn(s: State, steps: seq<Step>, sub: SubId)
    requires Valid(s, steps) && sub in s.registry
    decreases |steps|
  {
    steps != [] &&
    (Removes(s, steps[0], sub) ||
     (sub in Apply(s, steps[0]).registry && RemovedIn(Apply(s, steps[0]), steps[1..], sub)))
  }

  lemma OthersKeepRegistry(s: State, step: Step)
    requires Enabled(s, step) && !step.Subscribe? && !step.Unsubscribe? && !step.Drop?
    ensures Apply(s, step).registry == s.registry && Apply(s, step).nextSub == s.nextSub
  {
  }

  lemma SubscribeRemovesNothing(s: State, step: Step, sub: SubId)
    requires Enabled(s, step) && step.Subscribe? && sub in s.registry && sub < s.nextSub
    ensures var s' := Apply(s, step); sub in s'.registry && s'.registry[sub] == s.registry[sub] && sub < s'.nextSub
  {
  }

  lemma StepRemovesExactly(s: State, step: Step, sub: SubId)
    requires Inv(s) && Enabled(s, step) && sub in s.registry
    ensures sub !in Apply(s, step).registry <==> Removes(s, step, sub)
    ensures sub in Apply(s, step).registry ==> Apply(s, step).registry[sub] == s.registry[sub]
    ensures sub < Apply(s, step).nextSub
  {
    assert sub < s.nextSub;
    if step.Subscribe? {
      SubscribeRemovesNothing(s, step, sub);
    } else if !step.Unsubscribe? && !step.Drop? {
      OthersKeepRegistry(s, step);
    }
  }

  lemma StaysRemoved(s: State, step: Step, sub: SubId)
    requires Enabled(s, step) && sub !in s.registry && sub < s.nextSub
    ensures sub !in Apply(s, step).registry && sub < Apply(s, step).nextSub
  {
  }

  lemma {:induction false} GoneForGood(s: State, steps: seq<Step>, sub: SubId)
    requires Valid(s, steps) && sub !in s.registry && sub < s.nextSub
    ensures sub !in Exec(s, steps).registry
    decreases |steps|
  {
    if steps != [] {
      StaysRemoved(s, steps[0], sub);
      GoneForGood(Apply(s, steps[0]), steps[1..], sub);
    }
  }

  /** A subscription is gone at the end of a run if and only if some unsubscribe named it or its own
      connection was cleaned up. */
  lemma {:induction false} RemovedExactly(s: State, steps: seq<Step>, sub: SubId)
    requires Inv(s) && Valid(s, steps) && sub in s.registry
    ensures sub !in Exec(s, steps).registry <==> RemovedIn(s, steps, sub)
    decreases |steps|
  {
    if steps != [] {
      var s' := Apply(s, steps[0]);
      StepKeepsInv(s, steps[0]);
      StepRemovesExactly(s, steps[0], sub);
      if sub in s'.registry {
        RemovedExactly(s', steps[1..], sub);
      } else {
        GoneForGood(s', steps[1..], sub);
      }
    }
  }

  /** Any connection that still reads can end anybody's subscription. */
  lemma AnyoneMayUnsubscribe(s: State, sub: SubId, conn: ConnId, req: ReqId)
    requires sub in s.registry && conn in s.conns && s.conns[conn].phase.Reading? && req !in s.requests
    ensures var steps := [Spawn(req, Unsubscribing(conn, sub)), Unsubscribe(req)];
            Valid(s, steps) && sub !in Exec(s, steps).registry
  {
    var first, second := Spawn(req, Unsubscribing(conn, sub)), Unsubscribe(req);
    var s1 := Apply(s, first);
    Before(s1, second, []);
    Before(s, first, [second] + []);
    assert [first] + ([second] + []) == [first, second];
  }
}
