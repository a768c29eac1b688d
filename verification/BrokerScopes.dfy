/** Who sees whose output, from what the subscribe requests asked for. */
module BrokerScopes {
  import opened Basics
  import opened Broker
  import opened BrokerRuns

  /** A frame about `task`, from a command of connection `source`, is what a subscription of connection
      `conn` asked for: everything, some tasks, or its own connection's commands. */
  predicate AskedFor(want: Want, conn: ConnId, task: Option<string>, source: ConnId) {
    || want == WantAll
    || (want == WantOwn && source == conn)
    || (want.WantTasks? && task.Some? && task.value in want.ids)
  }

  /** Every subscription has a recorded wish, and its scope allows exactly what that asks for. */
  ghost predicate WishesOk(s: State) {
    && s.ever.Keys == s.wants.Keys
    && (forall sub :: sub in s.ever ==> sub < s.nextSub)
    && (forall sub, task, source :: sub in s.ever ==>
          (s.ever[sub].scope.Allows(task, source) <==> AskedFor(s.wants[sub], s.ever[sub].conn, task, source)))
  }

  lemma SubscribeKeepsWishes(s: State, req: ReqId)
    requires WishesOk(s) && Enabled(s, Subscribe(req))
    ensures WishesOk(Apply(s, Subscribe(req)))
    ensures var r, s' := s.requests[req], Apply(s, Subscribe(req));
            if r.want == WantTasks({}) then s' == s.(requests := s.requests[req := Answered(r.conn)])
            else
            && s'.wants == s.wants[s.nextSub := r.want]
            && s'.ever[s.nextSub].conn == r.conn && s'.ever[s.nextSub].stdio == r.stdio
            && s.nextSub in s'.registry && s'.registry[s.nextSub] == s'.ever[s.nextSub]
  {
  }

  lemma StepKeepsWishes(s: State, step: Step)
    requires WishesOk(s) && Enabled(s, step)
    ensures WishesOk(Apply(s, step))
    ensures forall sub :: sub in s.wants ==>
              sub in Apply(s, step).wants && Apply(s, step).wants[sub] == s.wants[sub] &&
              Apply(s, step).ever[sub] == s.ever[sub]
  {
    if step.Subscribe? {
      SubscribeKeepsWishes(s, step.req);
    } else {
      assert Apply(s, step).ever == s.ever && Apply(s, step).wants == s.wants && Apply(s, step).nextSub == s.nextSub;
    }
  }

  lemma {:induction false} RunKeepsWishes(s: State, steps: seq<Step>)
    requires WishesOk(s) && Valid(s, steps)
    ensures WishesOk(Exec(s, steps))
    ensures forall sub :: sub in s.wants ==>
              sub in Exec(s, steps).wants && Exec(s, steps).wants[sub] == s.wants[sub] &&
              Exec(s, steps).ever[sub] == s.ever[sub]
    decreases |steps|
  {
    if steps != [] {
      StepKeepsWishes(s, steps[0]);
      RunKeepsWishes(Apply(s, steps[0]), steps[1..]);
    }
  }

  /** In every run, whatever is queued for a subscription is stdio it subscribed to and asked for: one to
      its own connection gets output of that connection's commands only, and one that lists tasks gets
      those tasks' only. */
  lemma OnlyWhatWasAskedFor(steps: seq<Step>, conn: ConnId, f: Frame)
    requires Valid(INIT, steps) && conn in Exec(INIT, steps).conns
    requires f in Exec(INIT, steps).conns[conn].chan.sent && f.Stdio?
    ensures var s := Exec(INIT, steps);
            && f.sub in s.wants && f.sub in s.ever && s.ever[f.sub].stdio && IsStream(s, f.req)
            && var want, source := s.wants[f.sub], s.requests[f.req];
               && (want == WantOwn ==> source.conn == conn)
               && (want.WantTasks? ==> source.task.Some? && source.task.value in want.ids)
  {
    InitInv();
    RunKeepsInv(INIT, steps);
    RunKeepsWishes(INIT, steps);
    var s := Exec(INIT, steps);
    assert ChannelOk(s, conn, s.conns[conn].chan);
    var k :| 0 <= k < |s.conns[conn].chan.sent| && s.conns[conn].chan.sent[k] == f;
    assert FrameOk(s, conn, s.conns[conn].chan.sent[k]);
  }

  /** And everything that was asked for is offered: at a turn of a fan-out the frame is queued if and only
      if the target's request asked for it, its receiver is there and a slot is free. */
  lemma QueuedExactlyWhenAskedFor(s: State, req: ReqId)
    requires Inv(s) && WishesOk(s) && SendEnabled(s, req)
    ensures var r := s.requests[req];
            var t := r.pc.targets[0];
            var conn := t.subscriber.conn;
            var chan, sent' := s.conns[conn].chan, SendOne(s, req).conns[conn].chan.sent;
            var sent := chan.sent;
            && t.sub in s.wants
            && sent' == if AskedFor(s.wants[t.sub], conn, r.task, r.conn) && chan.open && |sent| - chan.taken < 128
                        then sent + [Stdio(t.sub, req, r.next, r.events[r.next])] else sent
  {
    var r := s.requests[req];
    assert StreamOk(s, r) && TargetsOk(s, r.pc.targets);
    assert s.ever[r.pc.targets[0].sub] == r.pc.targets[0].subscriber;
  }

  /** The wish of a request is recorded under the id that the request gets, for good. */
  lemma WishIsRecorded(s: State, req: ReqId, steps: seq<Step>)
    requires WishesOk(s) && Enabled(s, Subscribe(req)) && Valid(Apply(s, Subscribe(req)), steps)
    requires s.requests[req].want != WantTasks({})
    ensures var r, s' := s.requests[req], Exec(Apply(s, Subscribe(req)), steps);
            && s.nextSub in s'.wants && s'.wants[s.nextSub] == r.want
            && s.nextSub in s'.ever && s'.ever[s.nextSub].conn == r.conn && s'.ever[s.nextSub].stdio == r.stdio
  {
    SubscribeKeepsWishes(s, req);
    RunKeepsWishes(Apply(s, Subscribe(req)), steps);
  }
}
