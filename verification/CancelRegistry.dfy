/** The registry through which `executor.cancel` reaches streams in flight.

    One step is one lock section, one `oneshot` send or one drop of a receiver; steps of any
    number of streams and cancel calls interleave freely. */
module CancelRegistry {
  import opened Basics

  type Key = string

  /** A stream is named by its place in the order of registration, whatever its id. */
  type Token = nat

  type Caller = nat

  /** A cancel call that holds a sender, or has answered: true exactly for `Some`. */
  datatype Call = Holding(key: Key, t: Token) | Answered(key: Key, reached: Option<Token>)

  datatype State = State(
    entries: map<Key, Token>,
    keys: seq<Key>,
    live: set<Token>,
    dropped: set<Token>,
    calls: map<Caller, Call>,
    taken: map<Token, Caller>,
    signals: multiset<Token>)

  const EMPTY := State(map[], [], {}, {}, map[], map[], multiset{})

  datatype Step =
    | Register(key: Key)
    | Take(c: Caller, key: Key)
    | Send(c: Caller)
    | DropReceiver(t: Token)
    | Deregister(t: Token)

  predicate Enabled(s: State, step: Step) {
    match step
    case Register(_) => true
    case Take(c, _) => c !in s.calls
    case Send(c) => c in s.calls && s.calls[c].Holding?
    case DropReceiver(t) => t < |s.keys|
    case Deregister(t) => t < |s.keys| && t in s.live
  }

  function TakeSender(s: State, c: Caller, key: Key): State {
    if key in s.entries then
      var t := s.entries[key];
      s.(entries := s.entries - {key}, calls := s.calls[c := Holding(key, t)], taken := s.taken[t := c])
    else s.(calls := s.calls[c := Answered(key, None)])
  }

  function SendSignal(s: State, c: Caller): State
    requires c in s.calls && s.calls[c].Holding?
  {
    var Holding(key, t) := s.calls[c];
    if t in s.dropped then s.(calls := s.calls[c := Answered(key, None)])
    else s.(calls := s.calls[c := Answered(key, Some(t))], signals := s.signals + multiset{t})
  }

  function Apply(s: State, step: Step): State
    requires Enabled(s, step)
  {
    match step
    case Register(key) =>
      var t := |s.keys|;
      s.(entries := s.entries[key := t], keys := s.keys + [key], live := s.live + {t})
    case Take(c, key) => TakeSender(s, c, key)
    case Send(c) => SendSignal(s, c)
    case DropReceiver(t) => s.(dropped := s.dropped + {t})
    case Deregister(t) => s.(entries := s.entries - {s.keys[t]}, live := s.live - {t})
  }

  predicate Valid(s: State, run: seq<Step>)
    decreases |run|
  {
    run == [] || (Enabled(s, run[0]) && Valid(Apply(s, run[0]), run[1..]))
  }

  function Exec(s: State, run: seq<Step>): State
    requires Valid(s, run)
    decreases |run|
  {
    if run == [] then s else Exec(Apply(s, run[0]), run[1..])
  }

  // ---------------------------------------------------------------- what every run keeps

  predicate Known(s: State, t: int) { 0 <= t < |s.keys| }

  /** The stream's own id leads to its sender. */
  predicate Listed(s: State, t: int) {
    Known(s, t) && s.keys[t] in s.entries && s.entries[s.keys[t]] == t
  }

  /** The stream is in flight and no cancel call has taken its sender. */
  predicate Cancellable(s: State, t: int) {
    Known(s, t) && t in s.live && t !in s.taken
  }

  /** The call answered true by signalling the stream. */
  predicate Reached(s: State, c: int, t: int) {
    0 <= c && 0 <= t && c in s.calls && s.calls[c].Answered? && s.calls[c].reached == Some(t)
  }

  predicate Holds(s: State, c: int, t: int) {
    0 <= c && c in s.calls && s.calls[c].Holding? && s.calls[c].t == t
  }

  ghost predicate EntriesInv(s: State) {
    forall k :: k in s.entries ==> Known(s, s.entries[k]) && s.keys[s.entries[k]] == k && Cancellable(s, s.entries[k])
  }

  /** Whoever holds or has used a sender took it, under the stream's id. */
  ghost predicate CallsInv(s: State) {
    forall c: int, t: int :: Reached(s, c, t) || Holds(s, c, t) ==>
      Known(s, t) && t in s.taken && s.taken[t] == c && s.keys[t] == s.calls[c].key
  }

  /** A taken sender has signalled its stream exactly if its call answered true. */
  predicate SignalledRight(s: State, t: int) {
    && Known(s, t) && t in s.taken && s.taken[t] in s.calls
    && s.signals[t] == if Reached(s, s.taken[t], t) then 1 else 0
  }

  ghost predicate SignalsInv(s: State) {
    && (forall t: int :: t in s.taken ==> SignalledRight(s, t))
    && (forall t: int :: t in s.signals ==> t in s.taken)
  }

  ghost predicate Inv(s: State) { EntriesInv(s) && CallsInv(s) && SignalsInv(s) }

  lemma StepKeepsEntries(s: State, step: Step)
    requires Inv(s) && Enabled(s, step)
    ensures EntriesInv(Apply(s, step))
  {
    var n := Apply(s, step);
    forall k | k in n.entries
      ensures Known(n, n.entries[k]) && n.keys[n.entries[k]] == k && Cancellable(n, n.entries[k])
    {
      if step.Register? && k == step.key {
        assert |s.keys| !in s.taken;
      } else {
        assert k in s.entries && n.entries[k] == s.entries[k];
      }
    }
  }

  /** A step at whose end a call holds or has used only what it did before keeps the calls in order. */
  lemma SameUses(s: State, n: State)
    requires CallsInv(s) && s.keys <= n.keys
    requires forall c: int, t: int :: Reached(n, c, t) || Holds(n, c, t) ==> Reached(s, c, t) || Holds(s, c, t)
    requires forall c: int :: c in s.calls && c in n.calls ==> n.calls[c].key == s.calls[c].key
    requires forall t: int :: t in s.taken ==> t in n.taken && n.taken[t] == s.taken[t]
    ensures CallsInv(n)
  {
  }

  lemma TakeKeepsCalls(s: State, c: Caller, key: Key)
    requires Inv(s) && Enabled(s, Take(c, key))
    ensures CallsInv(TakeSender(s, c, key))
  {
    var n := TakeSender(s, c, key);
    forall d: int, t: int | Reached(n, d, t) || Holds(n, d, t)
      ensures Known(n, t) && t in n.taken && n.taken[t] == d && n.keys[t] == n.calls[d].key
    {
      if d == c {
        assert key in s.entries && t == s.entries[key];
      } else {
        assert Reached(s, d, t) || Holds(s, d, t);
      }
    }
  }

  lemma SendKeepsCalls(s: State, c: Caller)
    requires CallsInv(s) && Enabled(s, Send(c))
    ensures CallsInv(SendSignal(s, c))
  {
    var n := SendSignal(s, c);
    forall d: int, t: int | Reached(n, d, t) || Holds(n, d, t) ensures Reached(s, d, t) || Holds(s, d, t) {
      if d != c { assert n.calls[d] == s.calls[d]; }
    }
    SameUses(s, n);
  }

  lemma StepKeepsCalls(s: State, step: Step)
    requires Inv(s) && Enabled(s, step)
    ensures CallsInv(Apply(s, step))
  {
    match step
    case Take(c, key) => TakeKeepsCalls(s, c, key);
    case Send(c) => SendKeepsCalls(s, c);
    case _ => SameUses(s, Apply(s, step));
  }

  lemma SendKeepsSignals(s: State, c: Caller)
    requires Inv(s) && Enabled(s, Send(c))
    ensures SignalsInv(SendSignal(s, c))
  {
    var n := SendSignal(s, c);
    var held := s.calls[c].t;
    assert Holds(s, c, held);
    assert s.taken[held] == c && s.signals[held] == 0;
    forall t: int | t in n.taken ensures SignalledRight(n, t) {
      assert t in s.taken && SignalledRight(s, t);
      if s.taken[t] == c {
        assert !Reached(s, c, t);
        assert Reached(n, c, t) <==> t == held && held !in s.dropped;
      } else {
        assert t != held && n.signals[t] == s.signals[t];
      }
    }
  }

  lemma StepKeepsSignals(s: State, step: Step)
    requires Inv(s) && Enabled(s, step)
    ensures SignalsInv(Apply(s, step))
  {
    if step.Send? {
      SendKeepsSignals(s, step.c);
    } else {
      var n := Apply(s, step);
      forall t: int | t in n.taken ensures SignalledRight(n, t) {
        if t in s.taken {
          assert SignalledRight(s, t) && n.taken[t] == s.taken[t];
        }
      }
    }
  }

  lemma StepKeepsInv(s: State, step: Step)
    requires Inv(s) && Enabled(s, step)
    ensures Inv(Apply(s, step))
  {
    StepKeepsEntries(s, step);
    StepKeepsCalls(s, step);
    StepKeepsSignals(s, step);
  }

  lemma {:induction false} RunKeepsInv(s: State, run: seq<Step>)
    requires Inv(s) && Valid(s, run)
    ensures Inv(Exec(s, run))
    decreases |run|
  {
    if run != [] {
      StepKeepsInv(s, run[0]);
      RunKeepsInv(Apply(s, run[0]), run[1..]);
    }
  }

  /** In every run, even one that reuses ids: a stream gets at most one signal, and it gets one
      exactly if some call answers true for it, a single call and with its own id; and once no
      stream is in flight the table is empty. */
  lemma SignalsAreAnswers(run: seq<Step>)
    requires Valid(EMPTY, run)
    ensures var s := Exec(EMPTY, run);
            && (forall t: int :: s.signals[t] <= 1)
            && (forall t: int :: t in s.signals <==> exists c: int :: Reached(s, c, t))
            && (forall c: int, t: int :: Reached(s, c, t) ==> Known(s, t) && s.calls[c].key == s.keys[t])
            && (forall c: int, d: int, t: int :: Reached(s, c, t) && Reached(s, d, t) ==> c == d)
            && (s.live == {} ==> s.entries == map[])
  {
    RunKeepsInv(EMPTY, run);
    var s := Exec(EMPTY, run);
    forall t: int | t in s.signals ensures exists c: int :: Reached(s, c, t) {
      assert Reached(s, s.taken[t], t);
    }
    if s.live == {} {
      assert s.entries.Keys == {};
    }
  }

  // ---------------------------------------------------------------- when the table is complete

  /** The table's entries are exactly the streams that can still be cancelled. */
  ghost predicate Coherent(s: State) {
    forall t: int :: Cancellable(s, t) <==> Listed(s, t)
  }

  /** `register` overwrites an entry, or `deregister` removes the entry of another stream. */
  predicate Clashes(s: State, step: Step)
    requires Enabled(s, step)
  {
    match step
    case Register(key) => key in s.entries
    case Deregister(t) => s.keys[t] in s.entries && s.entries[s.keys[t]] != t
    case _ => false
  }

  lemma StepStaysCoherentExactly(s: State, step: Step)
    requires Inv(s) && Coherent(s) && Enabled(s, step)
    ensures Coherent(Apply(s, step)) <==> !Clashes(s, step)
  {
    if Clashes(s, step) {
      ClashLosesAStream(s, step);
    } else {
      StepKeepsEntries(s, step);
      forall t: int ensures Cancellable(Apply(s, step), t) <==> Listed(Apply(s, step), t) {
        CancellableStaysListed(s, step, t);
      }
    }
  }

  lemma ClashLosesAStream(s: State, step: Step)
    requires Inv(s) && Coherent(s) && Enabled(s, step) && Clashes(s, step)
    ensures !Coherent(Apply(s, step))
  {
    var n := Apply(s, step);
    var lost := s.entries[if step.Register? then step.key else s.keys[step.t]];
    assert Cancellable(s, lost);
    assert Cancellable(n, lost) && !Listed(n, lost);
  }

  lemma CancellableStaysListed(s: State, step: Step, t: int)
    requires EntriesInv(s) && Coherent(s) && Enabled(s, step) && !Clashes(s, step)
    requires EntriesInv(Apply(s, step))
    ensures Cancellable(Apply(s, step), t) <==> Listed(Apply(s, step), t)
  {
    var n := Apply(s, step);
    if Cancellable(n, t) && t < |s.keys| {
      assert Cancellable(s, t) && Listed(s, t);
    }
  }

  ghost predicate CoherentThroughout(s: State, run: seq<Step>)
    requires Valid(s, run)
    decreases |run|
  {
    Coherent(s) && (run == [] || CoherentThroughout(Apply(s, run[0]), run[1..]))
  }

  ghost predicate NoClash(s: State, run: seq<Step>)
    requires Valid(s, run)
    decreases |run|
  {
    run == [] || (!Clashes(s, run[0]) && NoClash(Apply(s, run[0]), run[1..]))
  }

  lemma {:induction false} CoherentExactlyWithoutClash(s: State, run: seq<Step>)
    requires Inv(s) && Coherent(s) && Valid(s, run)
    ensures CoherentThroughout(s, run) <==> NoClash(s, run)
    decreases |run|
  {
    if run != [] {
      var n := Apply(s, run[0]);
      StepKeepsInv(s, run[0]);
      StepStaysCoherentExactly(s, run[0]);
      if Coherent(n) {
        CoherentExactlyWithoutClash(n, run[1..]);
      }
    }
  }

  /** At every registration no stream in flight has the same id. */
  ghost predicate DistinctIds(s: State, run: seq<Step>)
    requires Valid(s, run)
    decreases |run|
  {
    run == [] ||
    ((run[0].Register? ==> Unused(s, run[0].key)) && DistinctIds(Apply(s, run[0]), run[1..]))
  }

  ghost predicate Unused(s: State, key: Key) {
    forall t: int :: Known(s, t) && t in s.live ==> s.keys[t] != key
  }

  ghost predicate LiveIdsDiffer(s: State) {
    forall t: int, u: int ::
      Known(s, t) && Known(s, u) && t in s.live && u in s.live && s.keys[t] == s.keys[u] ==> t == u
  }

  lemma {:induction false} DistinctIdsDoNotClash(s: State, run: seq<Step>)
    requires Inv(s) && LiveIdsDiffer(s) && Valid(s, run) && DistinctIds(s, run)
    ensures NoClash(s, run)
    decreases |run|
  {
    if run != [] {
      var n := Apply(s, run[0]);
      StepKeepsInv(s, run[0]);
      assert LiveIdsDiffer(n) by {
        forall t: int, u: int | Known(n, t) && Known(n, u) && t in n.live && u in n.live && n.keys[t] == n.keys[u]
          ensures t == u
        {
          assert t < |s.keys| ==> Known(s, t);
          assert u < |s.keys| ==> Known(s, u);
        }
      }
      DistinctIdsDoNotClash(n, run[1..]);
    }
  }

  /** With distinct ids the keys are exactly the uncancelled streams in flight, at every moment. */
  lemma TableIsExact(run: seq<Step>)
    requires Valid(EMPTY, run) && DistinctIds(EMPTY, run)
    ensures CoherentThroughout(EMPTY, run)
  {
    DistinctIdsDoNotClash(EMPTY, run);
    CoherentExactlyWithoutClash(EMPTY, run);
  }

  // ---------------------------------------------------------------- what a cancel call does

  lemma {:induction false} HeldUntilSent(s: State, c: Caller, run: seq<Step>)
    requires Valid(s, run) && c in s.calls && s.calls[c].Holding? && Send(c) !in run
    ensures var n := Exec(s, run); c in n.calls && n.calls[c] == s.calls[c]
    decreases |run|
  {
    if run != [] {
      HeldUntilSent(Apply(s, run[0]), c, run[1..]);
    }
  }

  /** A cancel call on a coherent table, its send any number of steps later: it answers true, for
      the stream with that id, exactly if there is one that can be cancelled and its receiver is
      still there at the send. */
  lemma CancelReachesExactly(s: State, c: Caller, key: Key, run: seq<Step>, t: Token)
    requires Inv(s) && Coherent(s) && Enabled(s, Take(c, key))
    requires Known(s, t) && s.keys[t] == key && Cancellable(s, t)
    requires var m := Apply(s, Take(c, key)); Valid(m, run) && Send(c) !in run
    ensures var m := Exec(Apply(s, Take(c, key)), run);
            && Enabled(m, Send(c))
            && Apply(m, Send(c)).calls[c] == Answered(key, if t in m.dropped then None else Some(t))
            && Apply(m, Send(c)).signals == if t in m.dropped then m.signals else m.signals + multiset{t}
  {
    assert Listed(s, t);
    HeldUntilSent(Apply(s, Take(c, key)), c, run);
  }

  lemma {:induction false} StaysAbsent(s: State, key: Key, run: seq<Step>)
    requires Valid(s, run) && key !in s.entries && Register(key) !in run
    ensures key !in Exec(s, run).entries
    decreases |run|
  {
    if run != [] {
      StaysAbsent(Apply(s, run[0]), key, run[1..]);
    }
  }

  /** A second cancel of an id that was not registered again answers false. */
  lemma SecondCancelFindsNothing(s: State, c: Caller, d: Caller, key: Key, run: seq<Step>)
    requires Enabled(s, Take(c, key))
    requires var m := Apply(s, Take(c, key)); Valid(m, run) && Enabled(Exec(m, run), Take(d, key))
    requires Register(key) !in run
    ensures var m := Exec(Apply(s, Take(c, key)), run);
            Apply(m, Take(d, key)).calls[d] == Answered(key, None)
  {
    StaysAbsent(Apply(s, Take(c, key)), key, run);
  }

  /** Ids are not kept apart by connection: when two connections both stream under id 1, the end
      of the first stream makes the second uncancellable. */
  lemma SharedIdIsNotCancelled()
    ensures var run := [Register("1"), Register("1"), Deregister(0)];
            && Valid(EMPTY, run) && Cancellable(Exec(EMPTY, run), 1)
            && Apply(Exec(EMPTY, run), Take(0, "1")).calls[0] == Answered("1", None)
  {
    var one := Apply(EMPTY, Register("1"));
    var two := Apply(one, Register("1"));
    var run := [Register("1"), Register("1"), Deregister(0)];
    assert run[1..] == [Register("1"), Deregister(0)] && run[1..][1..] == [Deregister(0)] && run[1..][1..][1..] == [];
    assert Enabled(two, Deregister(0));
    assert Exec(EMPTY, run) == Apply(two, Deregister(0));
  }

  // ---------------------------------------------------------------- the object

  /** `StreamRegistry` with the `oneshot` channels it hands out, a channel named by its token. */
  class StreamRegistry {
    var entries: map<Key, Token>
    var next: Token
    var dropped: set<Token>
    var signals: multiset<Token>
    ghost var state: State

    ghost predicate Valid() reads this {
      && Inv(state)
      && entries == state.entries && next == |state.keys| && dropped == state.dropped && signals == state.signals
    }

    constructor ()
      ensures Valid() && state == EMPTY
    {
      entries, next, dropped, signals, state := map[], 0, {}, multiset{}, EMPTY;
    }

    method Register(key: Key) returns (rx: Token)
      requires Valid()
      modifies this
      ensures Valid() && state == Apply(old(state), Step.Register(key))
      ensures rx == old(next) && state.keys[rx] == key
    {
      rx := next;
      entries := entries[key := rx];
      next := next + 1;
      StepKeepsInv(state, Step.Register(key));
      state := Apply(state, Step.Register(key));
    }

    /** The lock section of `cancel`. */
    method TakeEntry(ghost c: Caller, key: Key) returns (tx: Option<Token>)
      requires Valid() && c !in state.calls
      modifies this
      ensures Valid() && state == TakeSender(old(state), c, key)
      ensures tx == if key in old(entries) then Some(old(entries)[key]) else None
    {
      tx := if key in entries then Some(entries[key]) else None;
      entries := entries - {key};
      StepKeepsInv(state, Take(c, key));
      state := TakeSender(state, c, key);
    }

    method SendOn(ghost c: Caller, tx: Token) returns (ok: bool)
      requires Valid() && Holds(state, c, tx)
      modifies this
      ensures Valid() && state == SendSignal(old(state), c)
      ensures ok == Reached(state, c, tx)
    {
      ok := tx !in dropped;
      if ok { signals := signals + multiset{tx}; }
      StepKeepsInv(state, Send(c));
      state := SendSignal(state, c);
    }

    method Cancel(ghost c: Caller, key: Key) returns (ok: bool)
      requires Valid() && c !in state.calls
      modifies this
      ensures Valid() && key !in entries
      ensures var m := TakeSender(old(state), c, key);
              state == if key in old(entries) then SendSignal(m, c) else m
      ensures ok == (key in old(entries) && Reached(state, c, old(entries)[key]))
    {
      var tx := TakeEntry(c, key);
      if tx.None? { return false; }
      ok := SendOn(c, tx.value);
    }

    method DropRx(rx: Token)
      requires Valid() && rx < next
      modifies this
      ensures Valid() && state == Apply(old(state), DropReceiver(rx))
    {
      dropped := dropped + {rx};
      StepKeepsInv(state, DropReceiver(rx));
      state := Apply(state, DropReceiver(rx));
    }

    /** Called with the id under which the stream `t` was registered. */
    method Deregister(key: Key, ghost t: Token)
      requires Valid() && Enabled(state, Step.Deregister(t)) && state.keys[t] == key
      modifies this
      ensures Valid() && state == Apply(old(state), Step.Deregister(t))
    {
      entries := entries - {key};
      StepKeepsInv(state, Step.Deregister(t));
      state := Apply(state, Step.Deregister(t));
    }
  }
}
