/** The lazily started broadcast source of one channel (telemetry or screenshot): the
    subscription registry, the generation counter, the slot and the source tasks.

    Each step is one lock section or one atomic operation of the hub. `registered` is the part
    of the registry that names the channel. */
module Sources {
  import opened Basics

  type SubId = nat

  /** How far a call of `subscribe` has come. */
  datatype Phase = Inserted | Bumped | Ensured

  datatype Pc =
    | InLoop    // about to take its next snapshot of the registry
    | SawNone   // took an empty snapshot, has not read the generation again
    | Leaving   // left its loop, has not cleared the slot
    | Gone      // cleared the slot
    | Panicked

  datatype Source = Source(startGen: nat, pc: Pc) {
    predicate Finished() { pc.Gone? || pc.Panicked? }
    /** Still in its loop, so its subscribers keep getting frames. */
    predicate Serving() { pc.InLoop? || pc.SawNone? }
  }

  datatype Hub = Hub(
    registered: set<SubId>,
    calls: map<SubId, Phase>,
    gen: nat,
    slot: Option<nat>,
    sources: seq<Source>)

  const INIT := Hub({}, map[], 0, None, [])

  datatype Step =
    | Insert(sub: SubId)
    | Bump(sub: SubId)
    | Ensure(sub: SubId)
    | Remove(subs: set<SubId>)
    | Snapshot(src: nat)
    | Recheck(src: nat)
    | SamplerEnd(src: nat)
    | Take(src: nat)
    | Panic(src: nat)

  function SetPc(h: Hub, src: nat, pc: Pc): Hub
    requires src < |h.sources|
  {
    h.(sources := h.sources[src := h.sources[src].(pc := pc)])
  }

  predicate SlotRuns(h: Hub) {
    h.slot.Some? && h.slot.value < |h.sources| && !h.sources[h.slot.value].Finished()
  }

  function EnsureSource(h: Hub): Hub {
    if SlotRuns(h) then h
    else h.(slot := Some(|h.sources|), sources := h.sources + [Source(h.gen, InLoop)])
  }

  predicate Enabled(h: Hub, step: Step) {
    match step
    case Insert(sub) => sub !in h.calls
    case Bump(sub) => sub in h.calls && h.calls[sub].Inserted?
    case Ensure(sub) => sub in h.calls && h.calls[sub].Bumped?
    case Remove(_) => true
    case Snapshot(src) => src < |h.sources| && h.sources[src].pc.InLoop?
    case Recheck(src) => src < |h.sources| && h.sources[src].pc.SawNone?
    case SamplerEnd(src) => src < |h.sources| && h.sources[src].pc.InLoop?
    case Take(src) => src < |h.sources| && h.sources[src].pc.Leaving?
    case Panic(src) => src < |h.sources| && !h.sources[src].Finished()
  }

  function Apply(h: Hub, step: Step): Hub
    requires Enabled(h, step)
  {
    match step
    case Insert(sub) => h.(registered := h.registered + {sub}, calls := h.calls[sub := Inserted])
    case Bump(sub) => h.(gen := h.gen + 1, calls := h.calls[sub := Bumped])
    case Ensure(sub) => EnsureSource(h.(calls := h.calls[sub := Ensured]))
    case Remove(subs) => h.(registered := h.registered - subs)
    case Snapshot(src) => SetPc(h, src, if h.registered == {} then SawNone else InLoop)
    case Recheck(src) => SetPc(h, src, if h.gen != h.sources[src].startGen then InLoop else Leaving)
    case SamplerEnd(src) => SetPc(h, src, Leaving)
    case Take(src) => SetPc(h, src, Gone).(slot := None)
    case Panic(src) => SetPc(h, src, Panicked)
  }

  predicate Valid(h: Hub, steps: seq<Step>)
    decreases |steps|
  {
    steps == [] || (Enabled(h, steps[0]) && Valid(Apply(h, steps[0]), steps[1..]))
  }

  function Exec(h: Hub, steps: seq<Step>): Hub
    requires Valid(h, steps)
    decreases |steps|
  {
    if steps == [] then h else Exec(Apply(h, steps[0]), steps[1..])
  }

  // ---------------------------------------------------------------- at most one source

  ghost predicate Inv(h: Hub) {
    && (forall x :: 0 <= x < |h.sources| && !h.sources[x].Finished() ==> h.slot == Some(x))
    && (h.slot.Some? ==> h.slot.value < |h.sources| && !h.sources[h.slot.value].pc.Gone?)
    && (forall x :: 0 <= x < |h.sources| ==> h.sources[x].startGen <= h.gen)
    && h.registered <= h.calls.Keys
  }

  lemma {:induction false} RunKeepsInv(h: Hub, steps: seq<Step>)
    requires Inv(h) && Valid(h, steps)
    ensures Inv(Exec(h, steps))
    decreases |steps|
  {
    if steps != [] {
      assert Inv(Apply(h, steps[0]));
      RunKeepsInv(Apply(h, steps[0]), steps[1..]);
    }
  }

  /** In every interleaving, panics included, at most one source of the channel is unfinished,
      and it is the one in the slot. */
  lemma AtMostOneSource(steps: seq<Step>, x: nat, y: nat)
    requires Valid(INIT, steps)
    ensures var h := Exec(INIT, steps);
            (x < |h.sources| && !h.sources[x].Finished() ==> h.slot == Some(x)) &&
            (x < |h.sources| && y < |h.sources| && !h.sources[x].Finished() && !h.sources[y].Finished() ==> x == y)
  {
    RunKeepsInv(INIT, steps);
  }

  // ---------------------------------------------------------------- who is served

  /** Every subscriber that is registered and whose `subscribe` has passed `ensure` has a source
      that is still in its loop. */
  ghost predicate Served(h: Hub) {
    forall sub :: sub in h.registered && sub in h.calls && h.calls[sub].Ensured? ==>
      h.slot.Some? && h.slot.value < |h.sources| && h.sources[h.slot.value].Serving()
  }

  ghost predicate AlwaysServed(h: Hub, steps: seq<Step>)
    requires Valid(h, steps)
    decreases |steps|
  {
    Served(h) && (steps != [] ==> AlwaysServed(Apply(h, steps[0]), steps[1..]))
  }

  /** The step is the `ensure` of a registered subscriber and finds the slot held by a source
      that has already decided to leave. */
  predicate LateEnsure(h: Hub, step: Step) {
    step.Ensure? && step.sub in h.registered &&
    h.slot.Some? && h.slot.value < |h.sources| && h.sources[h.slot.value].pc.Leaving?
  }

  /** The sampler of the source that serves ends, or the source panics. */
  predicate Fault(h: Hub, step: Step) {
    (step.SamplerEnd? || step.Panic?) && h.slot == Some(step.src)
  }

  /** A registered subscriber whose `subscribe` has passed `ensure`. */
  predicate SomeEnsured(h: Hub) {
    exists sub :: sub in h.registered && sub in h.calls && h.calls[sub].Ensured?
  }

  /** The step leaves a subscriber without a source. */
  predicate Loses(h: Hub, step: Step) {
    LateEnsure(h, step) || (Fault(h, step) && SomeEnsured(h))
  }

  ghost predicate NothingLost(h: Hub, steps: seq<Step>)
    requires Valid(h, steps)
    decreases |steps|
  {
    steps != [] ==> !Loses(h, steps[0]) && NothingLost(Apply(h, steps[0]), steps[1..])
  }

  ghost predicate NoLateEnsure(h: Hub, steps: seq<Step>)
    requires Valid(h, steps)
    decreases |steps|
  {
    steps != [] ==> !LateEnsure(h, steps[0]) && NoLateEnsure(Apply(h, steps[0]), steps[1..])
  }

  predicate NoFaults(steps: seq<Step>) {
    forall i :: 0 <= i < |steps| ==> !steps[i].SamplerEnd? && !steps[i].Panic?
  }

  /** A source that saw nobody will stay if a registered subscriber has bumped the generation. */
  ghost predicate Warned(h: Hub) {
    forall sub :: sub in h.registered && sub in h.calls && !h.calls[sub].Inserted? ==>
      forall x :: 0 <= x < |h.sources| && h.sources[x].pc.SawNone? ==> h.sources[x].startGen < h.gen
  }

  lemma StepKeepsInv(h: Hub, step: Step)
    requires Inv(h) && Enabled(h, step)
    ensures Inv(Apply(h, step))
  {
  }

  lemma StepKeepsWarned(h: Hub, step: Step)
    requires Inv(h) && Warned(h) && Enabled(h, step)
    ensures Warned(Apply(h, step))
  {
  }

  /** A step after which somebody is not served. */
  lemma LosingStep(h: Hub, step: Step)
    requires Inv(h) && Served(h) && Enabled(h, step) && Loses(h, step)
    ensures !Served(Apply(h, step))
  {
    var h' := Apply(h, step);
    if LateEnsure(h, step) {
      assert step.sub in h'.registered && h'.calls[step.sub].Ensured?;
    } else {
      var sub :| sub in h.registered && sub in h.calls && h.calls[sub].Ensured?;
      assert sub in h'.registered && h'.calls[sub].Ensured?;
    }
  }

  lemma FaultlessStep(h: Hub, step: Step)
    requires Inv(h) && Served(h) && Warned(h) && Enabled(h, step) && !LateEnsure(h, step)
    requires !step.SamplerEnd? && !step.Panic?
    ensures Served(Apply(h, step))
  {
    var h' := Apply(h, step);
    if step.Recheck? {
      forall sub | sub in h'.registered && sub in h'.calls && h'.calls[sub].Ensured?
        ensures h'.slot.Some? && h'.sources[h'.slot.value].Serving()
      {
        assert h.sources[step.src].startGen < h.gen;
      }
    } else if step.Snapshot? {
      assert h.registered == {} || h' == h;
    }
  }

  lemma HarmlessFault(h: Hub, step: Step)
    requires Inv(h) && Served(h) && Enabled(h, step) && !Loses(h, step)
    requires step.SamplerEnd? || step.Panic?
    ensures Served(Apply(h, step))
  {
    assert h.slot == Some(step.src);
    assert Apply(h, step).registered == h.registered && Apply(h, step).calls == h.calls;
  }

  lemma StepServes(h: Hub, step: Step)
    requires Inv(h) && Served(h) && Warned(h) && Enabled(h, step)
    ensures Inv(Apply(h, step)) && Warned(Apply(h, step))
    ensures Served(Apply(h, step)) <==> !Loses(h, step)
  {
    StepKeepsInv(h, step);
    StepKeepsWarned(h, step);
    if Loses(h, step) {
      LosingStep(h, step);
    } else if step.SamplerEnd? || step.Panic? {
      HarmlessFault(h, step);
    } else {
      FaultlessStep(h, step);
    }
  }

  /** Exactly when the service holds, faults included: every subscriber that completed `ensure`
      and is still registered is served in every state if and only if no step loses one. That is
      the `ensure` of a registered subscriber between a source's decision to leave and its
      clearing of the slot, or a fault of the serving source while somebody needs it. */
  lemma {:induction false} ServedExactly(h: Hub, steps: seq<Step>)
    requires Inv(h) && Served(h) && Warned(h) && Valid(h, steps)
    ensures AlwaysServed(h, steps) <==> NothingLost(h, steps)
    decreases |steps|
  {
    if steps != [] {
      StepServes(h, steps[0]);
      if Served(Apply(h, steps[0])) {
        ServedExactly(Apply(h, steps[0]), steps[1..]);
      }
    }
  }

  lemma {:induction false} OnlyLateEnsures(h: Hub, steps: seq<Step>)
    requires Valid(h, steps) && NoFaults(steps)
    ensures NothingLost(h, steps) <==> NoLateEnsure(h, steps)
    decreases |steps|
  {
    if steps != [] {
      assert !steps[0].SamplerEnd? && !steps[0].Panic?;
      assert NoFaults(steps[1..]) by {
        forall i | 0 <= i < |steps| - 1 ensures steps[1..][i] == steps[i + 1] {}
      }
      OnlyLateEnsures(Apply(h, steps[0]), steps[1..]);
    }
  }

  /** From a new hub: the service holds exactly if nothing is lost, and without faults the late
      `ensure` is the only way to lose it. */
  lemma ServedExactlyFromStart(steps: seq<Step>)
    requires Valid(INIT, steps)
    ensures AlwaysServed(INIT, steps) <==> NothingLost(INIT, steps)
    ensures NoFaults(steps) ==> (AlwaysServed(INIT, steps) <==> NoLateEnsure(INIT, steps))
  {
    ServedExactly(INIT, steps);
    if NoFaults(steps) { OnlyLateEnsures(INIT, steps); }
  }

  lemma Prepend(h: Hub, step: Step, h': Hub, rest: seq<Step>)
    requires Enabled(h, step) && Apply(h, step) == h' && Valid(h', rest)
    ensures Valid(h, [step] + rest) && Exec(h, [step] + rest) == Exec(h', rest)
  {
    assert ([step] + rest)[1..] == rest;
  }

  /** A source that has decided to leave while nobody was registered. */
  lemma LonelySource() returns (h: Hub, steps: seq<Step>)
    ensures h == Hub({}, map[0 := Ensured], 1, Some(0), [Source(1, Leaving)])
    ensures Valid(INIT, steps) && NoFaults(steps) && Exec(INIT, steps) == h
  {
    var h1 := Hub({0}, map[0 := Inserted], 0, None, []);
    var h2 := Hub({0}, map[0 := Bumped], 1, None, []);
    var h3 := Hub({0}, map[0 := Ensured], 1, Some(0), [Source(1, InLoop)]);
    var h4 := Hub({}, map[0 := Ensured], 1, Some(0), [Source(1, InLoop)]);
    var h5 := Hub({}, map[0 := Ensured], 1, Some(0), [Source(1, SawNone)]);
    h := Hub({}, map[0 := Ensured], 1, Some(0), [Source(1, Leaving)]);
    Prepend(h5, Recheck(0), h, []);
    Prepend(h4, Snapshot(0), h5, [Recheck(0)]);
    Prepend(h3, Remove({0}), h4, [Snapshot(0)] + [Recheck(0)]);
    var tail := [Remove({0})] + ([Snapshot(0)] + [Recheck(0)]);
    Prepend(h2, Ensure(0), h3, tail);
    Prepend(h1, Bump(0), h2, [Ensure(0)] + tail);
    Prepend(INIT, Insert(0), h1, [Bump(0)] + ([Ensure(0)] + tail));
    steps := [Insert(0)] + ([Bump(0)] + ([Ensure(0)] + tail));
  }

  lemma {:induction false} Append(h: Hub, steps: seq<Step>, more: seq<Step>)
    requires Valid(h, steps) && Valid(Exec(h, steps), more)
    ensures Valid(h, steps + more) && Exec(h, steps + more) == Exec(Exec(h, steps), more)
    decreases |steps|
  {
    if steps == [] {
      assert steps + more == more;
    } else {
      assert (steps + more)[1..] == steps[1..] + more;
      Append(Apply(h, steps[0]), steps[1..], more);
    }
  }

  /** The window is real: the second subscriber of this run completes `ensure`, stays
      registered, and ends with no source at all. */
  lemma UnservedSubscriber() returns (steps: seq<Step>)
    ensures Valid(INIT, steps) && NoFaults(steps)
    ensures var h := Exec(INIT, steps);
            1 in h.registered && 1 in h.calls && h.calls[1].Ensured? && h.slot == None
  {
    var h, before := LonelySource();
    var h1 := Hub({1}, map[0 := Ensured, 1 := Inserted], 1, Some(0), [Source(1, Leaving)]);
    var h2 := Hub({1}, map[0 := Ensured, 1 := Bumped], 2, Some(0), [Source(1, Leaving)]);
    var h3 := Hub({1}, map[0 := Ensured, 1 := Ensured], 2, Some(0), [Source(1, Leaving)]);
    var h4 := Hub({1}, map[0 := Ensured, 1 := Ensured], 2, None, [Source(1, Gone)]);
    Prepend(h3, Take(0), h4, []);
    Prepend(h2, Ensure(1), h3, [Take(0)]);
    Prepend(h1, Bump(1), h2, [Ensure(1)] + [Take(0)]);
    var tail := [Bump(1)] + ([Ensure(1)] + [Take(0)]);
    Prepend(h, Insert(1), h1, tail);
    Append(INIT, before, [Insert(1)] + tail);
    steps := before + ([Insert(1)] + tail);
  }

  /** A subscriber stays registered exactly until an unsubscribe or a cleanup names it. */
  lemma {:induction false} RegisteredExactly(h: Hub, steps: seq<Step>, sub: SubId)
    requires Inv(h) && Valid(h, steps) && sub in h.calls
    ensures sub in Exec(h, steps).registered <==>
              sub in h.registered && forall i :: 0 <= i < |steps| && steps[i].Remove? ==> sub !in steps[i].subs
    decreases |steps|
  {
    if steps != [] {
      var h' := Apply(h, steps[0]);
      StepKeepsInv(h, steps[0]);
      assert sub in h'.registered <==> sub in h.registered && (steps[0].Remove? ==> sub !in steps[0].subs);
      RegisteredExactly(h', steps[1..], sub);
      forall i | 0 <= i < |steps| - 1 ensures steps[1..][i] == steps[i + 1] {}
      if forall i :: 0 <= i < |steps| && steps[i].Remove? ==> sub !in steps[i].subs {
        forall i | 0 <= i < |steps| - 1 && steps[1..][i].Remove? ensures sub !in steps[1..][i].subs {
          assert steps[i + 1].Remove?;
        }
      }
    }
  }

  // ---------------------------------------------------------------- when a source leaves

  /** With nobody registered, a source leaves at its next turn exactly when no subscription has
      bumped the generation since it started. */
  lemma LeavesExactly(h: Hub, src: nat)
    requires src < |h.sources| && h.sources[src].pc.InLoop? && h.registered == {}
    ensures var saw := Apply(h, Snapshot(src));
            Enabled(saw, Recheck(src)) &&
            (Apply(saw, Recheck(src)).sources[src].pc.Leaving? <==> h.gen == h.sources[src].startGen)
  {
  }

  /** The start generation is never refreshed, so a source that has seen one more subscription
      never leaves on its own again, not even when every subscription is gone. */
  lemma {:induction false} NeverLeaves(h: Hub, steps: seq<Step>, src: nat)
    requires Valid(h, steps) && src < |h.sources|
    requires h.sources[src].Serving() && h.sources[src].startGen < h.gen
    requires forall i :: 0 <= i < |steps| ==> steps[i] != SamplerEnd(src) && steps[i] != Panic(src)
    ensures src < |Exec(h, steps).sources| && Exec(h, steps).sources[src].Serving()
    decreases |steps|
  {
    if steps != [] {
      var h', rest := Apply(h, steps[0]), steps[1..];
      forall i | 0 <= i < |rest| ensures rest[i] != SamplerEnd(src) && rest[i] != Panic(src) {
        assert rest[i] == steps[i + 1];
      }
      NeverLeaves(h', rest, src);
    }
  }

  // ---------------------------------------------------------------- the hub's own fields

  /** The hub's fields for one channel; each method is one lock section or atomic operation. */
  class ChannelHub {
    var registered: set<SubId>
    ghost var calls: map<SubId, Phase>
    var gen: nat
    var slot: Option<nat>
    // the spawned source tasks, kept by the runtime
    var sources: seq<Source>

    ghost function View(): Hub
      reads this
    {
      Hub(registered, calls, gen, slot, sources)
    }

    constructor ()
      ensures View() == INIT
    {
      registered, calls, gen, slot, sources := {}, map[], 0, None, [];
    }

    method InsertSubscriber(sub: SubId)
      requires Enabled(View(), Insert(sub))
      modifies this
      ensures View() == Apply(old(View()), Insert(sub))
    {
      registered := registered + {sub};
      calls := calls[sub := Inserted];
    }

    method BumpGeneration(sub: SubId)
      requires Enabled(View(), Bump(sub))
      modifies this
      ensures View() == Apply(old(View()), Bump(sub))
    {
      gen := gen + 1;
      calls := calls[sub := Bumped];
    }

    method EnsureRunning(sub: SubId)
      requires Enabled(View(), Ensure(sub))
      modifies this
      ensures View() == Apply(old(View()), Ensure(sub))
    {
      calls := calls[sub := Ensured];
      if slot.Some? && slot.value < |sources| && !sources[slot.value].Finished() { return; }
      sources := sources + [Source(gen, InLoop)];
      slot := Some(|sources| - 1);
    }

    /** `unsubscribe` removes one id, `drop_conn` those of a connection. */
    method Unregister(subs: set<SubId>)
      modifies this
      ensures View() == Apply(old(View()), Remove(subs))
    {
      registered := registered - subs;
    }

    /** One turn of the source's loop up to the generation check. */
    method TakeSnapshot(src: nat) returns (targets: set<SubId>)
      requires Enabled(View(), Snapshot(src))
      modifies this
      ensures View() == Apply(old(View()), Snapshot(src)) && targets == registered
    {
      targets := registered;
      if targets == {} { sources := sources[src := Source(sources[src].startGen, SawNone)]; }
    }

    method RecheckGeneration(src: nat) returns (leave: bool)
      requires Enabled(View(), Recheck(src))
      modifies this
      ensures View() == Apply(old(View()), Recheck(src))
      ensures leave <==> gen == sources[src].startGen
    {
      leave := gen == sources[src].startGen;
      sources := sources[src := Source(sources[src].startGen, if leave then Leaving else InLoop)];
    }

    method ClearSlot(src: nat)
      requires Enabled(View(), Take(src))
      modifies this
      ensures View() == Apply(old(View()), Take(src))
    {
      slot := None;
      sources := sources[src := Source(sources[src].startGen, Gone)];
    }
  }
}
