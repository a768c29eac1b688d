/** The broker's lock-free execution statistics, as one step per atomic operation, and the
    duration histogram read from them. */
module ExecStats {
  import opened Basics
  import Sums

  const TWO_64: nat := 0x1_0000_0000_0000_0000
  const U64_MAX: nat := TWO_64 - 1

  /** The upper bounds, in seconds, of the finite duration buckets. */
  const BUCKETS: seq<real> := [0.005, 0.05, 0.5, 5.0, 30.0]

  datatype Outcome = Blocked | Timeout | Success | Failure

  /** The part of an execution result that is recorded. */
  datatype Exec = Exec(blocked: bool, timedOut: bool, exitCode: int, seconds: real, bytes: nat) {
    function Outcome(): Outcome {
      if blocked then Blocked
      else if timedOut || exitCode == -124 then Timeout
      else if exitCode == 0 then Success
      else Failure
    }

    function Seconds(): real { Max(seconds, 0.0) }

    /** The duration in nanoseconds; the conversion truncates and saturates. */
    function Nanos(): (n: nat)
      ensures n <= U64_MAX
    {
      var n := (Seconds() * 1000000000.0).Floor;
      if n > U64_MAX then U64_MAX else n
    }
  }

  /** The first bucket whose bound is not exceeded. */
  function BucketIndex(seconds: real): (r: Option<nat>)
    ensures r.Some? ==> r.value < |BUCKETS| && seconds <= BUCKETS[r.value] &&
                        forall i :: 0 <= i < r.value ==> BUCKETS[i] < seconds
    ensures r.None? ==> forall i :: 0 <= i < |BUCKETS| ==> BUCKETS[i] < seconds
  {
    if seconds <= 0.005 then Some(0)
    else if seconds <= 0.05 then Some(1)
    else if seconds <= 0.5 then Some(2)
    else if seconds <= 5.0 then Some(3)
    else if seconds <= 30.0 then Some(4)
    else None
  }

  /** Where a call of `record_exec` stands. */
  datatype Pc =
    | AddTotal | AddOutcome | AddNanos | AddBytes | AddBucket
    | MinCheck | MinLoad | MinLoop(cur: nat)
    | MaxLoad | MaxLoop(cur: nat)
    | Finished
  {
    function Rank(): nat {
      match this
      case AddTotal => 0
      case AddOutcome => 1
      case AddNanos => 2
      case AddBytes => 3
      case AddBucket => 4
      case MinCheck => 5
      case MinLoad => 6
      case MinLoop(_) => 7
      case MaxLoad => 8
      case MaxLoop(_) => 9
      case Finished => 10
    }
  }

  /** `nanos` is the local that holds the duration once it is converted. */
  datatype Recorder = Recorder(exec: Exec, nanos: nat, pc: Pc)

  datatype Counter = Total | Of(outcome: Outcome) | Nanos | Bytes | Bucket(i: nat)

  /** The shared atomics. Every counter starts at 0 and wraps at 2^64; a counter that is not
      in the map has not been touched. */
  datatype Stats = Stats(counters: map<Counter, nat>, min: nat, max: nat) {
    function Value(c: Counter): nat { if c in counters then counters[c] else 0 }
  }

  datatype State = State(stats: Stats, recorders: map<nat, Recorder>)

  const INIT := State(Stats(map[], U64_MAX, 0), map[])

  function FetchAdd(stats: Stats, c: Counter, n: nat): Stats
  {
    stats.(counters := stats.counters[c := (stats.Value(c) + n) % TWO_64])
  }

  datatype Step =
    | Begin(id: nat, exec: Exec)
    | Advance(id: nat, spurious: bool)

  predicate Enabled(s: State, step: Step) {
    match step
    case Begin(id, _) => id !in s.recorders
    case Advance(id, _) => id in s.recorders && !s.recorders[id].pc.Finished?
  }

  /** The next atomic operation of a recorder. `spurious` makes a weak compare-exchange fail
      although it would have succeeded. */
  function AdvanceOne(stats: Stats, r: Recorder, spurious: bool): (Stats, Pc)
    requires !r.pc.Finished?
  {
    var nanos := r.nanos;
    match r.pc
    case AddTotal => (FetchAdd(stats, Total, 1), AddOutcome)
    case AddOutcome => (FetchAdd(stats, Of(r.exec.Outcome()), 1), AddNanos)
    case AddNanos => (FetchAdd(stats, Nanos, nanos), AddBytes)
    case AddBytes => (FetchAdd(stats, Bytes, r.exec.bytes), AddBucket)
    case AddBucket =>
      var i := BucketIndex(r.exec.Seconds());
      (if i.Some? then FetchAdd(stats, Bucket(i.value), 1) else stats, MinCheck)
    case MinCheck => (stats, if nanos < stats.min then MinLoad else MaxLoad)
    case MinLoad => (stats, MinLoop(stats.min))
    case MinLoop(cur) =>
      if nanos >= cur then (stats, MaxLoad)
      else if stats.min == cur && !spurious then (stats.(min := nanos), MaxLoad)
      else (stats, MinLoop(stats.min))
    case MaxLoad => (stats, MaxLoop(stats.max))
    case MaxLoop(cur) =>
      if nanos <= cur then (stats, Finished)
      else if stats.max == cur && !spurious then (stats.(max := nanos), Finished)
      else (stats, MaxLoop(stats.max))
  }

  function Apply(s: State, step: Step): State
    requires Enabled(s, step)
  {
    match step
    case Begin(id, exec) => s.(recorders := s.recorders[id := Recorder(exec, exec.Nanos(), AddTotal)])
    case Advance(id, spurious) =>
      var (stats, pc) := AdvanceOne(s.stats, s.recorders[id], spurious);
      State(stats, s.recorders[id := s.recorders[id].(pc := pc)])
  }

  predicate Valid(s: State, steps: seq<Step>)
    decreases |steps|
  {
    steps == [] || (Enabled(s, steps[0]) && Valid(Apply(s, steps[0]), steps[1..]))
  }

  function After(s: State, steps: seq<Step>): State
    requires Valid(s, steps)
    decreases |steps|
  {
    if steps == [] then s else After(Apply(s, steps[0]), steps[1..])
  }

  // ---------------------------------------------------------------- what the counters count

  /** What a recorder has added to a counter so far. */
  function Weight(c: Counter, r: Recorder): nat {
    match c
    case Total => if r.pc.Rank() > 0 then 1 else 0
    case Of(outcome) => if r.pc.Rank() > 1 && r.exec.Outcome() == outcome then 1 else 0
    case Nanos => if r.pc.Rank() > 2 then r.nanos else 0
    case Bytes => if r.pc.Rank() > 3 then r.exec.bytes else 0
    case Bucket(i) => if r.pc.Rank() > 4 && BucketIndex(r.exec.Seconds()) == Some(i) then 1 else 0
  }

  function Weights(c: Counter, rs: map<nat, Recorder>): map<nat, nat> {
    map id | id in rs :: Weight(c, rs[id])
  }

  ghost predicate CountersOk(s: State) {
    forall c: Counter :: s.stats.Value(c) == Sums.Sum(Weights(c, s.recorders)) % TWO_64
  }

  ghost predicate MinOk(s: State) {
    && s.stats.min <= U64_MAX
    && (s.stats.min == U64_MAX || exists id :: id in s.recorders && s.recorders[id].nanos == s.stats.min)
    && (forall id :: id in s.recorders && s.recorders[id].pc.Rank() > 7 ==> s.stats.min <= s.recorders[id].nanos)
    && (forall id :: id in s.recorders && s.recorders[id].pc.MinLoop? ==> s.stats.min <= s.recorders[id].pc.cur)
  }

  ghost predicate MaxOk(s: State) {
    && (s.stats.max == 0 || exists id :: id in s.recorders && s.recorders[id].nanos == s.stats.max)
    && (forall id :: id in s.recorders && s.recorders[id].pc.Finished? ==> s.recorders[id].nanos <= s.stats.max)
    && (forall id :: id in s.recorders && s.recorders[id].pc.MaxLoop? ==> s.recorders[id].pc.cur <= s.stats.max)
  }

  ghost predicate LocalsOk(s: State) {
    forall id :: id in s.recorders ==> s.recorders[id].nanos == s.recorders[id].exec.Nanos()
  }

  ghost predicate Inv(s: State) { CountersOk(s) && MinOk(s) && MaxOk(s) && LocalsOk(s) }

  lemma AddMod(a: nat, n: nat)
    ensures (a % TWO_64 + n) % TWO_64 == (a + n) % TWO_64
  {
    var q := a / TWO_64;
    assert a == q * TWO_64 + a % TWO_64;
    ModShift(a % TWO_64 + n, q);
  }

  lemma {:induction false} ModShift(x: nat, q: nat)
    ensures (x + q * TWO_64) % TWO_64 == x % TWO_64
  {
    if q > 0 {
      ModShift(x, q - 1);
      assert x + q * TWO_64 == (x + (q - 1) * TWO_64) + TWO_64;
    }
  }

  /** One recorder's operation adds to each counter what its weight gains. */
  lemma WeightGain(stats: Stats, r: Recorder, spurious: bool, c: Counter)
    requires !r.pc.Finished?
    ensures var (stats', pc) := AdvanceOne(stats, r, spurious);
            && Weight(c, r) <= Weight(c, r.(pc := pc))
            && ((Weight(c, r.(pc := pc)) == Weight(c, r) && stats'.Value(c) == stats.Value(c)) ||
                stats'.Value(c) == (stats.Value(c) + (Weight(c, r.(pc := pc)) - Weight(c, r))) % TWO_64)
  {
  }

  lemma WeightsUpdate(c: Counter, rs: map<nat, Recorder>, id: nat, r: Recorder)
    ensures Weights(c, rs[id := r]) == Weights(c, rs)[id := Weight(c, r)]
  {
  }

  lemma GainKeepsCount(value: nat, value': nat, before: map<nat, nat>, id: nat, w: nat)
    requires id in before && before[id] <= w && value == Sums.Sum(before) % TWO_64
    requires (w == before[id] && value' == value) || value' == (value + (w - before[id])) % TWO_64
    ensures value' == Sums.Sum(before[id := w]) % TWO_64
  {
    Sums.SumUpdate(before, id, w);
    AddMod(Sums.Sum(before), w - before[id]);
  }

  lemma CounterAfter(s: State, id: nat, r: Recorder, value: nat, c: Counter)
    requires CountersOk(s) && id in s.recorders
    requires var before, after := Weight(c, s.recorders[id]), Weight(c, r);
             && before <= after
             && ((after == before && value == s.stats.Value(c)) ||
                 value == (s.stats.Value(c) + (after - before)) % TWO_64)
    ensures value == Sums.Sum(Weights(c, s.recorders[id := r])) % TWO_64
  {
    WeightsUpdate(c, s.recorders, id, r);
    GainKeepsCount(s.stats.Value(c), value, Weights(c, s.recorders), id, Weight(c, r));
  }

  lemma AdvanceCounts(s: State, id: nat, spurious: bool)
    requires CountersOk(s) && Enabled(s, Advance(id, spurious))
    ensures CountersOk(Apply(s, Advance(id, spurious)))
  {
    var (stats, pc) := AdvanceOne(s.stats, s.recorders[id], spurious);
    var r := s.recorders[id].(pc := pc);
    forall c: Counter ensures stats.Value(c) == Sums.Sum(Weights(c, s.recorders[id := r])) % TWO_64 {
      WeightGain(s.stats, s.recorders[id], spurious, c);
      CounterAfter(s, id, r, stats.Value(c), c);
    }
  }

  /** What one operation of a recorder does to the extremes. */
  lemma ExtremesMove(stats: Stats, r: Recorder, spurious: bool)
    requires !r.pc.Finished?
    ensures var (stats', pc) := AdvanceOne(stats, r, spurious);
            && (stats'.min == stats.min || (stats'.min == r.nanos < stats.min))
            && (stats'.max == stats.max || (stats'.max == r.nanos > stats.max))
            && (pc.Rank() > 7 && r.pc.Rank() <= 7 && (r.pc.MinLoop? ==> stats.min <= r.pc.cur) ==>
                  stats'.min <= r.nanos)
            && (pc.MinLoop? ==> stats'.min <= pc.cur)
            && (pc.Finished? && (r.pc.MaxLoop? ==> r.pc.cur <= stats.max) ==> r.nanos <= stats'.max)
            && (pc.MaxLoop? ==> pc.cur <= stats'.max)
            && (r.pc.Rank() > 7 ==> pc.Rank() > 7)
  {
  }

  lemma AdvanceExtremes(s: State, id: nat, spurious: bool)
    requires MinOk(s) && MaxOk(s) && Enabled(s, Advance(id, spurious))
    ensures MinOk(Apply(s, Advance(id, spurious))) && MaxOk(Apply(s, Advance(id, spurious)))
    ensures Apply(s, Advance(id, spurious)).stats.min <= s.stats.min
    ensures s.stats.max <= Apply(s, Advance(id, spurious)).stats.max
  {
    var r := s.recorders[id];
    ExtremesMove(s.stats, r, spurious);
    var (stats', pc) := AdvanceOne(s.stats, r, spurious);
    ExtremesAfter(s, id, stats', pc);
  }

  lemma ExtremesAfter(s: State, id: nat, stats': Stats, pc: Pc)
    requires MinOk(s) && MaxOk(s) && id in s.recorders
    requires var r := s.recorders[id];
             && (stats'.min == s.stats.min || (stats'.min == r.nanos < s.stats.min))
             && (stats'.max == s.stats.max || (stats'.max == r.nanos > s.stats.max))
             && (pc.Rank() > 7 ==> stats'.min <= r.nanos)
             && (pc.MinLoop? ==> stats'.min <= pc.cur)
             && (pc.Finished? ==> r.nanos <= stats'.max)
             && (pc.MaxLoop? ==> pc.cur <= stats'.max)
    ensures var s' := State(stats', s.recorders[id := s.recorders[id].(pc := pc)]); MinOk(s') && MaxOk(s')
  {
    var s' := State(stats', s.recorders[id := s.recorders[id].(pc := pc)]);
    forall o | o in s.recorders ensures s'.recorders[o].nanos == s.recorders[o].nanos {}
    if s'.stats.min == s.recorders[id].nanos { assert s'.recorders[id].nanos == s'.stats.min; }
    if s'.stats.max == s.recorders[id].nanos { assert s'.recorders[id].nanos == s'.stats.max; }
  }

  lemma BeginCounts(s: State, id: nat, r: Recorder)
    requires CountersOk(s) && id !in s.recorders && r.pc.AddTotal?
    ensures CountersOk(s.(recorders := s.recorders[id := r]))
  {
    forall c: Counter
      ensures Sums.Sum(Weights(c, s.recorders[id := r])) == Sums.Sum(Weights(c, s.recorders))
    {
      assert Weight(c, r) == 0;
      WeightsUpdate(c, s.recorders, id, r);
      Sums.SumUpdate(Weights(c, s.recorders), id, 0);
    }
  }

  lemma BeginExtremes(s: State, id: nat, r: Recorder)
    requires MinOk(s) && MaxOk(s) && id !in s.recorders && r.pc.AddTotal?
    ensures MinOk(s.(recorders := s.recorders[id := r])) && MaxOk(s.(recorders := s.recorders[id := r]))
  {
    var s' := s.(recorders := s.recorders[id := r]);
    assert forall o :: o in s.recorders ==> o in s'.recorders && s'.recorders[o] == s.recorders[o];
  }

  lemma StepKeepsInv(s: State, step: Step)
    requires Inv(s) && Enabled(s, step)
    ensures Inv(Apply(s, step))
    ensures Apply(s, step).stats.min <= s.stats.min && s.stats.max <= Apply(s, step).stats.max
  {
    match step
    case Begin(id, exec) =>
      BeginCounts(s, id, Recorder(exec, exec.Nanos(), AddTotal));
      BeginExtremes(s, id, Recorder(exec, exec.Nanos(), AddTotal));
    case Advance(id, spurious) =>
      AdvanceCounts(s, id, spurious);
      AdvanceExtremes(s, id, spurious);
  }

  /** Under every interleaving and every spurious failure the minimum never increases and the
      maximum never decreases. */
  lemma {:induction false} RunKeepsInv(s: State, steps: seq<Step>)
    requires Inv(s) && Valid(s, steps)
    ensures Inv(After(s, steps))
    ensures After(s, steps).stats.min <= s.stats.min && s.stats.max <= After(s, steps).stats.max
    decreases |steps|
  {
    if steps != [] {
      StepKeepsInv(s, steps[0]);
      RunKeepsInv(Apply(s, steps[0]), steps[1..]);
    }
  }

  lemma InitInv()
    ensures Inv(INIT)
  {
    forall c: Counter ensures Sums.Sum(Weights(c, INIT.recorders)) == 0 {
      assert Weights(c, INIT.recorders) == map[];
    }
  }

  // ---------------------------------------------------------------- quiescence

  predicate Quiescent(s: State) {
    |s.recorders| < TWO_64 && forall id :: id in s.recorders ==> s.recorders[id].pc.Finished?
  }

  function WithOutcome(s: State, outcome: Outcome): set<nat> {
    set id | id in s.recorders && s.recorders[id].exec.Outcome() == outcome
  }

  function InBucket(s: State, bucket: Option<nat>): set<nat> {
    set id | id in s.recorders && BucketIndex(s.recorders[id].exec.Seconds()) == bucket
  }

  /** A counter that each recorder of `chosen` has increased once holds the size of `chosen`. */
  lemma CounterIs(s: State, c: Counter, chosen: set<nat>)
    requires CountersOk(s) && Quiescent(s) && chosen <= s.recorders.Keys
    requires forall id :: id in s.recorders ==> Weight(c, s.recorders[id]) == if id in chosen then 1 else 0
    ensures s.stats.Value(c) == |chosen|
  {
    Sums.SumIndicator(Weights(c, s.recorders), chosen);
    SubsetSize(chosen, s.recorders.Keys);
    assert |s.recorders.Keys| == |s.recorders|;
  }

  lemma OutcomeCounter(s: State, o: Outcome)
    requires Inv(s) && Quiescent(s)
    ensures s.stats.Value(Of(o)) == |WithOutcome(s, o)|
  {
    CounterIs(s, Of(o), WithOutcome(s, o));
  }

  lemma BucketCounter(s: State, i: nat)
    requires Inv(s) && Quiescent(s)
    ensures s.stats.Value(Bucket(i)) == |InBucket(s, Some(i))|
  {
    CounterIs(s, Bucket(i), InBucket(s, Some(i)));
  }

  lemma TotalCounter(s: State)
    requires Inv(s) && Quiescent(s)
    ensures s.stats.Value(Total) == |s.recorders|
  {
    CounterIs(s, Total, s.recorders.Keys);
    assert |s.recorders.Keys| == |s.recorders|;
  }

  lemma OutcomesPartition(s: State)
    ensures |s.recorders| == |WithOutcome(s, Blocked)| + |WithOutcome(s, Timeout)| +
                             |WithOutcome(s, Success)| + |WithOutcome(s, Failure)|
  {
    var b, t := WithOutcome(s, Blocked), WithOutcome(s, Timeout);
    var u, f := WithOutcome(s, Success), WithOutcome(s, Failure);
    forall id | id in s.recorders ensures id in b || id in t || id in u || id in f {
      assert s.recorders[id].exec.Outcome() in {Blocked, Timeout, Success, Failure};
    }
    assert b + t + u + f == s.recorders.Keys;
    assert b !! t && (b + t) !! u && (b + t + u) !! f;
    assert |s.recorders.Keys| == |s.recorders|;
  }

  /** Whenever every recorder has finished, the counters are exact and partition the total. */
  lemma QuiescentCounters(s: State)
    requires Inv(s) && Quiescent(s)
    ensures s.stats.Value(Total) == |s.recorders|
    ensures forall o :: s.stats.Value(Of(o)) == |WithOutcome(s, o)|
    ensures s.stats.Value(Total) == s.stats.Value(Of(Blocked)) + s.stats.Value(Of(Timeout)) +
                                    s.stats.Value(Of(Success)) + s.stats.Value(Of(Failure))
  {
    TotalCounter(s);
    forall o ensures s.stats.Value(Of(o)) == |WithOutcome(s, o)| { OutcomeCounter(s, o); }
    OutcomesPartition(s);
  }

  /** Whenever every recorder has finished, the extremes are those of the durations. */
  lemma QuiescentExtremes(s: State)
    requires Inv(s) && Quiescent(s) && s.recorders != map[]
    ensures forall id :: id in s.recorders ==>
              s.stats.min <= s.recorders[id].exec.Nanos() <= s.stats.max
    ensures exists id :: id in s.recorders && s.recorders[id].exec.Nanos() == s.stats.min
    ensures exists id :: id in s.recorders && s.recorders[id].exec.Nanos() == s.stats.max
  {
    assert s.recorders.Keys != {};
    var one :| one in s.recorders.Keys;
    assert s.stats.min <= s.recorders[one].nanos <= s.stats.max;
    assert s.recorders[one].exec.Nanos() <= U64_MAX;
  }

  // ---------------------------------------------------------------- what is recorded of one execution

  /** The four outcomes, told apart by the result's fields. */
  lemma OutcomeExactly(e: Exec)
    ensures e.Outcome() == Blocked <==> e.blocked
    ensures e.Outcome() == Timeout <==> !e.blocked && (e.timedOut || e.exitCode == -124)
    ensures e.Outcome() == Success <==> !e.blocked && !e.timedOut && e.exitCode == 0
    ensures e.Outcome() == Failure <==> !e.blocked && !e.timedOut && e.exitCode != 0 && e.exitCode != -124
  {
  }

  /** The duration in whole nanoseconds, none for a negative one, and at most the largest counter. */
  lemma NanosExactly(e: Exec)
    ensures e.seconds <= 0.0 ==> e.Nanos() == 0
    ensures e.seconds > 0.0 && e.Nanos() < U64_MAX ==>
              e.Nanos() as real <= e.seconds * 1000000000.0 < e.Nanos() as real + 1.0
    ensures e.seconds > 0.0 && e.Nanos() == U64_MAX ==> U64_MAX as real <= e.seconds * 1000000000.0
  {
  }

  function Durations(s: State): map<nat, nat> { map id | id in s.recorders :: s.recorders[id].exec.Nanos() }

  function Sizes(s: State): map<nat, nat> { map id | id in s.recorders :: s.recorders[id].exec.bytes }

  /** At rest the two sums are those of the durations and of the sizes, modulo 2^64. */
  lemma QuiescentSums(s: State)
    requires Inv(s) && Quiescent(s)
    ensures s.stats.Value(Nanos) == Sums.Sum(Durations(s)) % TWO_64
    ensures s.stats.Value(Bytes) == Sums.Sum(Sizes(s)) % TWO_64
  {
    SumOfDurations(s);
    SumOfSizes(s);
  }

  lemma SumOfDurations(s: State)
    requires CountersOk(s) && LocalsOk(s) && Quiescent(s)
    ensures s.stats.Value(Nanos) == Sums.Sum(Durations(s)) % TWO_64
  {
    forall id | id in s.recorders ensures Weight(Nanos, s.recorders[id]) == s.recorders[id].exec.Nanos() {}
    assert Weights(Nanos, s.recorders) == Durations(s);
  }

  lemma SumOfSizes(s: State)
    requires CountersOk(s) && Quiescent(s)
    ensures s.stats.Value(Bytes) == Sums.Sum(Sizes(s)) % TWO_64
  {
    forall id | id in s.recorders ensures Weight(Bytes, s.recorders[id]) == s.recorders[id].exec.bytes {}
    assert Weights(Bytes, s.recorders) == Sizes(s);
  }

  /** The recordings with each outcome, by the fields of their results. */
  lemma OutcomeSets(s: State)
    ensures WithOutcome(s, Blocked) == set id | id in s.recorders && s.recorders[id].exec.blocked
    ensures WithOutcome(s, Timeout) ==
            set id | id in s.recorders && !s.recorders[id].exec.blocked &&
                     (s.recorders[id].exec.timedOut || s.recorders[id].exec.exitCode == -124)
    ensures WithOutcome(s, Success) ==
            set id | id in s.recorders && !s.recorders[id].exec.blocked && !s.recorders[id].exec.timedOut &&
                     s.recorders[id].exec.exitCode == 0
  {
  }

  /** The statistics of every run, whatever the interleaving and the spurious failures. */
  lemma RunStatistics(steps: seq<Step>)
    requires Valid(INIT, steps) && Quiescent(After(INIT, steps))
    ensures var s := After(INIT, steps);
            && s.stats.Value(Total) == |s.recorders|
            && (forall o :: s.stats.Value(Of(o)) == |WithOutcome(s, o)|)
            && (s.recorders != map[] ==>
                  (forall id :: id in s.recorders ==> s.stats.min <= s.recorders[id].exec.Nanos() <= s.stats.max) &&
                  (exists id :: id in s.recorders && s.recorders[id].exec.Nanos() == s.stats.min) &&
                  (exists id :: id in s.recorders && s.recorders[id].exec.Nanos() == s.stats.max))
  {
    InitInv();
    RunKeepsInv(INIT, steps);
    QuiescentCounters(After(INIT, steps));
    if After(INIT, steps).recorders != map[] { QuiescentExtremes(After(INIT, steps)); }
  }

  /** The recordings of every run that has come to rest, counted by the fields of their results. */
  lemma RunOutcomes(steps: seq<Step>)
    requires Valid(INIT, steps) && Quiescent(After(INIT, steps))
    ensures var s := After(INIT, steps);
            && s.stats.Value(Of(Blocked)) == |set id | id in s.recorders && s.recorders[id].exec.blocked|
            && s.stats.Value(Of(Timeout)) ==
               |set id | id in s.recorders && !s.recorders[id].exec.blocked &&
                         (s.recorders[id].exec.timedOut || s.recorders[id].exec.exitCode == -124)|
            && s.stats.Value(Of(Success)) ==
               |set id | id in s.recorders && !s.recorders[id].exec.blocked && !s.recorders[id].exec.timedOut &&
                         s.recorders[id].exec.exitCode == 0|
            && s.stats.Value(Nanos) == Sums.Sum(Durations(s)) % TWO_64
            && s.stats.Value(Bytes) == Sums.Sum(Sizes(s)) % TWO_64
  {
    InitInv();
    RunKeepsInv(INIT, steps);
    QuiescentSums(After(INIT, steps));
    RunStatistics(steps);
    OutcomeSets(After(INIT, steps));
  }
}
