/** The broker's connections, subscriptions and stdio fan-out as interleaved atomic steps.

    One step is one lock section of the registry, one operation on a push channel, one frame
    written to the requester, or one life-cycle event of a connection. */
module Broker {
  import opened Basics

  type ConnId = nat
  type SubId = nat
  type ReqId = nat

  /** Which commands' stdio a subscription may see. */
  datatype Scope = All | OwnConn(conn: ConnId) | Tasks(ids: set<string>) {
    predicate Allows(task: Option<string>, source: ConnId) {
      match this
      case All => true
      case OwnConn(c) => c == source
      case Tasks(ids) => task.Some? && task.value in ids
    }
  }

  /** What a subscribe request asks for; the default is the requester's own connection. */
  datatype Want = WantAll | WantTasks(ids: set<string>) | WantOwn

  function ScopeFor(want: Want, conn: ConnId): Scope {
    match want
    case WantAll => All
    case WantTasks(ids) => Tasks(ids)
    case WantOwn => OwnConn(conn)
  }

  datatype Event = Chunk(data: string) | Done(result: string)

  /** A frame on a push channel. `index` is the number of the event in its stream; it is not on
      the wire. `Other` is a telemetry or screenshot frame on the same channel. */
  datatype Frame = Stdio(sub: SubId, req: ReqId, index: nat, event: Event) | Other

  const CAPACITY := 128

  /** A bounded push channel: every frame ever queued, how many the push task has taken, and
      whether its receiver is still there. */
  datatype Channel = Channel(sent: seq<Frame>, taken: nat, open: bool) {
    predicate HasRoom() { |sent| < taken + CAPACITY }
    function Push(f: Frame): Channel { this.(sent := sent + [f]) }
  }

  datatype Phase = Reading | Joining | Dropped

  datatype Conn = Conn(phase: Phase, chan: Channel)

  datatype Subscriber = Subscriber(conn: ConnId, stdio: bool, scope: Scope)

  datatype Target = Target(sub: SubId, subscriber: Subscriber)

  datatype StreamPc =
    | Receiving
    | Fanning(targets: seq<Target>)
    | Writing
    | Ended(complete: bool)

  datatype Request =
    | Subscribing(conn: ConnId, stdio: bool, want: Want)
    | Unsubscribing(conn: ConnId, sub: SubId)
    | Answered(conn: ConnId)
    | Streaming(conn: ConnId, task: Option<string>, events: seq<Event>, next: nat, pc: StreamPc)
  {
    predicate Active() {
      !Answered? && !(Streaming? && pc.Ended?)
    }
    /** The form in which a request is spawned. A non-streaming execution is a stream whose
        only event is its result. */
    predicate Initial() {
      match this
      case Streaming(_, _, events, next, pc) =>
        next == 0 && pc.Receiving? && (forall i :: 0 <= i < |events| - 1 ==> events[i].Chunk?)
      case Answered(_) => false
      case _ => true
    }
  }

  /** `ever` and `wants` are history: every subscription that was registered at some time, and what
      its request asked for. */
  datatype State = State(
    conns: map<ConnId, Conn>,
    registry: map<SubId, Subscriber>,
    ever: map<SubId, Subscriber>,
    wants: map<SubId, Want>,
    requests: map<ReqId, Request>,
    nextConn: nat,
    nextSub: nat)

  const INIT := State(map[], map[], map[], map[], map[], 1, 1)

  datatype Step =
    | Accept
    | Spawn(req: ReqId, request: Request)
    | Subscribe(req: ReqId)
    | Unsubscribe(req: ReqId)
    | Receive(req: ReqId, targets: seq<Target>)
    | Send(req: ReqId)
    | EndFan(req: ReqId)
    | Write(req: ReqId, ok: bool)
    | Eof(conn: ConnId)
    | Drop(conn: ConnId)
    | Close(conn: ConnId)
    | Drain(conn: ConnId)
    | Occupy(conn: ConnId)

  /** The snapshot that `collect_targets` takes: every stdio subscription once, in any order. */
  ghost predicate Snapshot(registry: map<SubId, Subscriber>, targets: seq<Target>) {
    && (forall i :: 0 <= i < |targets| ==>
          targets[i].sub in registry && registry[targets[i].sub] == targets[i].subscriber &&
          targets[i].subscriber.stdio)
    && (forall i, j :: 0 <= i < j < |targets| ==> targets[i].sub != targets[j].sub)
    && (forall sub :: sub in registry && registry[sub].stdio ==> Target(sub, registry[sub]) in targets)
  }

  predicate IsStream(s: State, req: ReqId) { req in s.requests && s.requests[req].Streaming? }

  predicate SendEnabled(s: State, req: ReqId) {
    IsStream(s, req) &&
    var r := s.requests[req];
    r.pc.Fanning? && r.pc.targets != [] && r.next < |r.events| && r.pc.targets[0].subscriber.conn in s.conns &&
    var t := r.pc.targets[0];
    var chan := s.conns[t.subscriber.conn].chan;
    // the terminal frame waits for a slot unless the receiver is gone
    (r.events[r.next].Done? && t.subscriber.scope.Allows(r.task, r.conn) ==> !chan.open || chan.HasRoom())
  }

  ghost predicate Enabled(s: State, step: Step) {
    match step
    case Accept => true
    case Spawn(req, request) =>
      req !in s.requests && request.Initial() && request.conn in s.conns && s.conns[request.conn].phase.Reading?
    case Subscribe(req) => req in s.requests && s.requests[req].Subscribing?
    case Unsubscribe(req) => req in s.requests && s.requests[req].Unsubscribing?
    case Receive(req, targets) =>
      IsStream(s, req) && s.requests[req].pc.Receiving? && Snapshot(s.registry, targets)
    case Send(req) => SendEnabled(s, req)
    case EndFan(req) => IsStream(s, req) && s.requests[req].pc == Fanning([])
    case Write(req, _) => IsStream(s, req) && s.requests[req].pc.Writing?
    case Eof(conn) => conn in s.conns && s.conns[conn].phase.Reading?
    case Drop(conn) =>
      conn in s.conns && s.conns[conn].phase.Joining? &&
      forall req :: req in s.requests && s.requests[req].conn == conn ==> !s.requests[req].Active()
    case Close(conn) => conn in s.conns
    case Drain(conn) =>
      conn in s.conns && s.conns[conn].chan.open && s.conns[conn].chan.taken < |s.conns[conn].chan.sent|
    case Occupy(conn) => conn in s.conns
  }

  function SetRequest(s: State, req: ReqId, request: Request): State {
    s.(requests := s.requests[req := request])
  }

  function Registered(s: State, subscriber: Subscriber, want: Want): State {
    s.(registry := s.registry[s.nextSub := subscriber],
       ever := s.ever[s.nextSub := subscriber],
       wants := s.wants[s.nextSub := want],
       nextSub := s.nextSub + 1)
  }

  function SetChan(s: State, conn: ConnId, chan: Channel): State
    requires conn in s.conns
  {
    s.(conns := s.conns[conn := s.conns[conn].(chan := chan)])
  }

  /** `try_send`, and also a `send` that is not blocked: queued when the receiver is there and
      a slot is free, otherwise dropped. */
  function TrySend(chan: Channel, f: Frame): Channel {
    if chan.open && chan.HasRoom() then chan.Push(f) else chan
  }

  function SendOne(s: State, req: ReqId): State
    requires SendEnabled(s, req)
  {
    var r := s.requests[req];
    var t := r.pc.targets[0];
    var s' := SetRequest(s, req, r.(pc := Fanning(r.pc.targets[1..])));
    if !t.subscriber.scope.Allows(r.task, r.conn) then s'
    else
      var conn := t.subscriber.conn;
      SetChan(s', conn, TrySend(s.conns[conn].chan, Stdio(t.sub, req, r.next, r.events[r.next])))
  }

  ghost function Apply(s: State, step: Step): State
    requires Enabled(s, step)
  {
    match step
    case Accept =>
      s.(conns := s.conns[s.nextConn := Conn(Reading, Channel([], 0, true))], nextConn := s.nextConn + 1)
    case Spawn(req, request) => SetRequest(s, req, request)
    case Subscribe(req) =>
      var r := s.requests[req];
      var subscriber := Subscriber(r.conn, r.stdio, ScopeFor(r.want, r.conn));
      // a list of no tasks is an error: such a subscription could never get anything
      var answered := SetRequest(s, req, Answered(r.conn));
      if r.want == WantTasks({}) then answered else Registered(answered, subscriber, r.want)
    case Unsubscribe(req) =>
      var r := s.requests[req];
      SetRequest(s, req, Answered(r.conn)).(registry := s.registry - {r.sub})
    case Receive(req, targets) =>
      var r := s.requests[req];
      SetRequest(s, req, r.(pc := if r.next < |r.events| then Fanning(targets) else Ended(true)))
    case Send(req) => SendOne(s, req)
    case EndFan(req) => SetRequest(s, req, s.requests[req].(pc := Writing))
    case Write(req, ok) =>
      var r := s.requests[req];
      SetRequest(s, req, if ok then r.(pc := Receiving, next := r.next + 1) else r.(pc := Ended(false)))
    case Eof(conn) => s.(conns := s.conns[conn := s.conns[conn].(phase := Joining)])
    case Drop(conn) =>
      s.(conns := s.conns[conn := s.conns[conn].(phase := Dropped)],
         registry := map sub | sub in s.registry && s.registry[sub].conn != conn :: s.registry[sub])
    case Close(conn) => SetChan(s, conn, s.conns[conn].chan.(open := false))
    case Drain(conn) => SetChan(s, conn, s.conns[conn].chan.(taken := s.conns[conn].chan.taken + 1))
    case Occupy(conn) => SetChan(s, conn, TrySend(s.conns[conn].chan, Other))
  }

  ghost predicate Valid(s: State, steps: seq<Step>)
    decreases |steps|
  {
    steps == [] || (Enabled(s, steps[0]) && Valid(Apply(s, steps[0]), steps[1..]))
  }

  ghost function Exec(s: State, steps: seq<Step>): State
    requires Valid(s, steps)
    decreases |steps|
  {
    if steps == [] then s else Exec(Apply(s, steps[0]), steps[1..])
  }
}
