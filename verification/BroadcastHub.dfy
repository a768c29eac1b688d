/** The hub object: the registry behind its lock and the loops over a registry snapshot, tied
    to the steps that the broker theorems are stated for. */
module BroadcastHubs {
  import opened Basics
  import opened Broker

  type Conns = map<ConnId, Conn>

  predicate TargetsConnected(conns: Conns, targets: seq<Target>) {
    forall i :: 0 <= i < |targets| ==> targets[i].subscriber.conn in conns
  }

  /** One target of a lossy broadcast. */
  function Offer(conns: Conns, t: Target, task: Option<string>, source: ConnId, f: Frame): Conns
    requires t.subscriber.conn in conns
  {
    if !t.subscriber.scope.Allows(task, source) then conns
    else
      var c := conns[t.subscriber.conn];
      conns[t.subscriber.conn := c.(chan := TrySend(c.chan, f))]
  }

  /** A lossy broadcast to the targets of a snapshot, in the snapshot's order. */
  function FanOut(conns: Conns, targets: seq<Target>, task: Option<string>, source: ConnId,
                  req: ReqId, index: nat, event: Event): Conns
    requires TargetsConnected(conns, targets)
    decreases |targets|
  {
    if targets == [] then conns
    else
      FanOut(Offer(conns, targets[0], task, source, Stdio(targets[0].sub, req, index, event)),
             targets[1..], task, source, req, index, event)
  }

  function Sends(req: ReqId, n: nat): seq<Step> { seq(n, _ => Send(req)) }

  /** The loop of a chunk's broadcast is the run of one `Send` step per target. */
  lemma {:induction false} FanOutIsSends(s: State, req: ReqId)
    requires IsStream(s, req) && s.requests[req].pc.Fanning?
    requires s.requests[req].next < |s.requests[req].events| && s.requests[req].events[s.requests[req].next].Chunk?
    requires TargetsConnected(s.conns, s.requests[req].pc.targets)
    ensures var r := s.requests[req];
            && Valid(s, Sends(req, |r.pc.targets|))
            && Exec(s, Sends(req, |r.pc.targets|)) ==
               s.(conns := FanOut(s.conns, r.pc.targets, r.task, r.conn, req, r.next, r.events[r.next]),
                  requests := s.requests[req := r.(pc := Fanning([]))])
    decreases |s.requests[req].pc.targets|
  {
    var r := s.requests[req];
    var targets := r.pc.targets;
    if targets == [] {
      assert s.requests[req := r.(pc := Fanning([]))] == s.requests;
    } else {
      var s' := SendOne(s, req);
      assert Sends(req, |targets|)[1..] == Sends(req, |targets| - 1);
      var f := Stdio(targets[0].sub, req, r.next, r.events[r.next]);
      assert s'.conns == Offer(s.conns, targets[0], r.task, r.conn, f);
      FanOutIsSends(s', req);
      assert s'.requests[req := r.(pc := Fanning([]))] == s.requests[req := r.(pc := Fanning([]))];
    }
  }

  lemma SameChannel(conns: Conns, conn: ConnId)
    requires conn in conns
    ensures conns[conn := conns[conn].(chan := conns[conn].chan)] == conns
  {
  }

  class BroadcastHub {
    var registry: map<SubId, Subscriber>
    var conns: Conns
    var nextSub: nat

    ghost predicate Valid()
      reads this
    {
      (forall sub :: sub in registry ==> sub < nextSub && registry[sub].conn in conns)
    }

    constructor ()
      ensures Valid() && registry == map[] && conns == map[] && nextSub == 1
    {
      registry, conns, nextSub := map[], map[], 1;
    }

    /** The registration in `subscribe`: a fresh id under the registry lock. */
    method Register(conn: ConnId, stdio: bool, want: Want) returns (sub: SubId)
      requires Valid() && conn in conns
      modifies this
      ensures Valid() && sub !in old(registry)
      ensures registry == old(registry)[sub := Subscriber(conn, stdio, ScopeFor(want, conn))]
      ensures nextSub == old(nextSub) + 1 && conns == old(conns)
      ensures forall task, source :: registry[sub].scope.Allows(task, source) <==>
                (match want
                 case WantAll => true
                 case WantTasks(ids) => task.Some? && task.value in ids
                 case WantOwn => source == conn)
    {
      sub := nextSub;
      nextSub := nextSub + 1;
      var scope: Scope;
      match want {
        case WantAll => scope := All;
        case WantTasks(ids) => scope := Tasks(ids);
        case WantOwn => scope := OwnConn(conn);
      }
      registry := registry[sub := Subscriber(conn, stdio, scope)];
    }

    /** True exactly when the id was registered, whoever asks. */
    method Unregister(sub: SubId) returns (removed: bool)
      requires Valid()
      modifies this
      ensures Valid()
      ensures removed <==> sub in old(registry)
      ensures registry == old(registry) - {sub} && conns == old(conns) && nextSub == old(nextSub)
    {
      removed := sub in registry;
      registry := registry - {sub};
    }

    /** Removes the subscriptions of one connection and keeps every other one. */
    method DropConn(conn: ConnId) returns (dropped: nat)
      requires Valid()
      modifies this
      ensures Valid()
      ensures registry == map sub | sub in old(registry) && old(registry)[sub].conn != conn :: old(registry)[sub]
      ensures dropped == |old(registry)| - |registry|
      ensures conns == old(conns) && nextSub == old(nextSub)
    {
      var before := |registry|;
      registry := map sub | sub in registry && registry[sub].conn != conn :: registry[sub];
      assert registry.Keys <= old(registry).Keys;
      SubsetSize(registry.Keys, old(registry).Keys);
      assert |registry.Keys| == |registry| && |old(registry).Keys| == |old(registry)|;
      dropped := before - |registry|;
    }

    /** The snapshot of the stdio subscriptions, in some order. */
    method CollectTargets() returns (targets: seq<Target>)
      requires Valid()
      ensures Snapshot(registry, targets)
      ensures TargetsConnected(conns, targets)
    {
      targets := [];
      var rest := registry.Keys;
      while rest != {}
        invariant rest <= registry.Keys
        invariant forall i :: 0 <= i < |targets| ==>
                    targets[i].sub in registry && targets[i].sub !in rest &&
                    registry[targets[i].sub] == targets[i].subscriber && targets[i].subscriber.stdio
        invariant forall i, j :: 0 <= i < j < |targets| ==> targets[i].sub != targets[j].sub
        invariant forall sub :: sub in registry && sub !in rest && registry[sub].stdio ==>
                    Target(sub, registry[sub]) in targets
        decreases rest
      {
        var sub :| sub in rest;
        rest := rest - {sub};
        if registry[sub].stdio { targets := targets + [Target(sub, registry[sub])]; }
      }
    }

    /** The lossy broadcast of one event: to the targets of one snapshot, each at most once. */
    method BroadcastStdio(task: Option<string>, source: ConnId, req: ReqId, index: nat, event: Event)
      returns (ghost order: seq<Target>)
      requires Valid()
      modifies this
      ensures Valid() && registry == old(registry) && nextSub == old(nextSub)
      ensures Snapshot(registry, order) && TargetsConnected(old(conns), order)
      ensures conns == FanOut(old(conns), order, task, source, req, index, event)
    {
      var targets := CollectTargets();
      order := targets;
      if targets == [] { return; }
      var i := 0;
      while i < |targets|
        invariant i <= |targets| && registry == old(registry) && nextSub == old(nextSub)
        invariant conns.Keys == old(conns).Keys && TargetsConnected(conns, targets)
        invariant FanOut(conns, targets[i..], task, source, req, index, event) ==
                  FanOut(old(conns), targets, task, source, req, index, event)
      {
        var t := targets[i];
        assert targets[i..][0] == t && targets[i..][1..] == targets[i + 1..];
        if t.subscriber.scope.Allows(task, source) {
          var c := conns[t.subscriber.conn];
          if c.chan.open && c.chan.HasRoom() {
            conns := conns[t.subscriber.conn :=
                           c.(chan := c.chan.(sent := c.chan.sent + [Stdio(t.sub, req, index, event)]))];
          } else {
            SameChannel(conns, t.subscriber.conn);
          }
        }
        i := i + 1;
      }
      assert targets[i..] == [];
    }
  }
}
