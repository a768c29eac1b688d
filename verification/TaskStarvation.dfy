/** Whether a due row can starve, and whether a worker can die, decided by the retry policy: in
    both cases exactly, with a run from an empty table for every policy that fails. */
module TaskStarvation {
  import opened Basics
  import opened TaskService
  import opened TaskSafety
  import opened TaskRuns

  // ---------------------------------------------------------------- powers and limits

  lemma {:induction false} PowerNonNegative(base: real, exponent: nat)
    requires base >= 0.0
    ensures Power(base, exponent) >= 0.0
  {
    if exponent > 0 { PowerNonNegative(base, exponent - 1); }
  }

  lemma {:induction false} AbsPower(base: real, exponent: nat)
    ensures Abs(Power(base, exponent)) == Power(Abs(base), exponent)
    decreases exponent
  {
    if exponent > 0 {
      AbsPower(base, exponent - 1);
      PowerNonNegative(Abs(base), exponent - 1);
    }
  }

  lemma {:induction false} PowerStays(base: real, exponent: nat)
    requires 0.0 <= base <= 1.0
    ensures 0.0 <= Power(base, exponent) <= 1.0
    decreases exponent
  {
    if exponent > 0 {
      PowerStays(base, exponent - 1);
      ProductAtMost(base, Power(base, exponent - 1));
    }
  }

  lemma ProductAtMost(a: real, b: real)
    requires 0.0 <= a <= 1.0 && 0.0 <= b <= 1.0
    ensures 0.0 <= a * b <= 1.0
  {
    ProductNonNegative(a, b);
    ProductNonNegative(1.0 - a, b);
    assert (1.0 - a) * b == b - a * b;
  }

  lemma ProductNonNegative(a: real, b: real)
    requires a >= 0.0 && b >= 0.0
    ensures a * b >= 0.0
  {
  }

  lemma {:induction false} PowerGrows(base: real, m: nat, n: nat)
    requires base >= 1.0 && m <= n
    ensures 0.0 <= Power(base, m) <= Power(base, n)
    decreases n
  {
    PowerNonNegative(base, m);
    if m < n {
      PowerGrows(base, m, n - 1);
      assert base * Power(base, n - 1) >= 1.0 * Power(base, n - 1);
    }
  }

  lemma FloatLimitIsLarge()
    ensures FLOAT_LIMIT > 1.0
  {
    AboveOne(TWO_97, TWO_97);
    AboveOne(TWO_97 * TWO_97, TWO_97);
    AboveOne(TWO_97 * TWO_97 * TWO_97, TWO_97);
    AboveOne(TWO_97 * TWO_97 * TWO_97 * TWO_97, TWO_97);
    AboveOne(TWO_485, TWO_485);
    AboveOne(TWO_485 * TWO_485, 18014398509481983.0);
  }

  lemma AboveOne(a: real, b: real)
    requires a > 1.0 && b > 1.0
    ensures a * b > 1.0
  {
    assert a * b > 1.0 * b;
  }

  /** Once a delay overflows, every later one does. */
  lemma OverflowsGrow(p: RetryPolicy, j: int, k: int)
    requires p.Overflows(j) && j <= k
    ensures p.Overflows(k)
  {
    AbsPower(p.multiplier, j - 1);
    AbsPower(p.multiplier, k - 1);
    FloatLimitIsLarge();
    if Abs(p.multiplier) <= 1.0 {
      PowerStays(Abs(p.multiplier), j - 1);
    }
    PowerGrows(Abs(p.multiplier), j - 1, k - 1);
  }

  // ---------------------------------------------------------------- which policies are tame

  /** No negative delay can ever be drawn: there are no retries, or neither cap nor initial delay
      is negative and the multiplier, if a second retry can use it, is not either. */
  predicate Tame(p: RetryPolicy) {
    p.maxRetries < 1 ||
    (p.cap >= 0.0 && p.initial >= 0.0 &&
     (p.initial == 0.0 || p.multiplier >= 0.0 || p.maxRetries < 2 || p.Overflows(2)))
  }

  lemma TameDelay(p: RetryPolicy, k: int)
    requires Tame(p) && 1 <= k <= p.maxRetries && !p.Overflows(k)
    ensures p.Backoff(k) >= 0.0
  {
    if p.multiplier >= 0.0 {
      PowerNonNegative(p.multiplier, k - 1);
    } else if k >= 2 && p.Overflows(2) {
      OverflowsGrow(p, 2, k);
    }
    if p.initial > 0.0 && Power(p.multiplier, k - 1) >= 0.0 {
      assert p.initial * Power(p.multiplier, k - 1) >= 0.0;
    }
  }

  /** A policy that is not tame draws a negative delay at its first or second retry. */
  lemma WildDelay(p: RetryPolicy) returns (k: nat)
    requires !Tame(p)
    ensures 1 <= k <= p.maxRetries && !p.Overflows(k) && p.Backoff(k) < 0.0
  {
    FloatLimitIsLarge();
    assert Power(p.multiplier, 0) == 1.0 && Power(p.multiplier, 1) == p.multiplier;
    if p.cap < 0.0 || p.initial < 0.0 {
      k := 1;
      assert p.Backoff(1) == Min(p.initial * 1.0, p.cap);
    } else {
      k := 2;
      assert p.initial * p.multiplier < 0.0;
      assert p.Backoff(2) == Min(p.initial * p.multiplier, p.cap);
    }
  }

  /** All delays that a policy can draw are non-negative if and only if it is tame. */
  lemma TameExactly(p: RetryPolicy)
    ensures Tame(p) <==> forall k: int :: 1 <= k <= p.maxRetries && !p.Overflows(k) ==> p.Backoff(k) >= 0.0
  {
    if Tame(p) {
      forall k: int | 1 <= k <= p.maxRetries && !p.Overflows(k) ensures p.Backoff(k) >= 0.0 { TameDelay(p, k); }
    } else {
      var k := WildDelay(p);
    }
  }

  // ---------------------------------------------------------------- no starvation

  predicate AllTame(s: State) { forall id :: id in s.table ==> Tame(s.table[id].policy) }

  predicate TameSubmissions(steps: seq<Step>) {
    forall i :: 0 <= i < |steps| && (steps[i].SubmitShellStep? || steps[i].SubmitAsyncStep?) ==>
      Tame(steps[i].policy)
  }

  /** The clock strictly advances from the end of one step to the next. */
  ghost predicate StrictlyClocked(clock: real, steps: seq<Step>)
    decreases |steps|
  {
    steps == [] || (clock < steps[0].now <= steps[0].End() && StrictlyClocked(steps[0].End(), steps[1..]))
  }

  /** The queued rows stamped at or before `t`. */
  function Ahead(s: State, t: real): set<TaskId> {
    set id | id in s.table && s.table[id].state.Queued? && s.table[id].nextRetryAt <= t
  }

  /** The number of times a worker asks for work. */
  function ClaimTurns(steps: seq<Step>): nat
    decreases |steps|
  {
    if steps == [] then 0 else (if steps[0].ClaimStep? then 1 else 0) + ClaimTurns(steps[1..])
  }

  ghost predicate StaysQueued(s: State, steps: seq<Step>, q: TaskId)
    requires Valid(s, steps)
    decreases |steps|
  {
    && q in s.table && s.table[q].state.Queued?
    && (steps != [] ==> !Claims(steps[0], q) && StaysQueued(Apply(s, steps[0]), steps[1..], q))
  }

  /** One step while `q` waits: the queue ahead of it never grows, and a worker that asks for
      work gets a row ahead of `q` and removes it. */
  lemma StepShrinksAhead(s: State, step: Step, q: TaskId, clock: real)
    requires Inv(s) && Enabled(s, step) && AllTame(s)
    requires step.SubmitShellStep? || step.SubmitAsyncStep? ==> Tame(step.policy)
    requires clock < step.now <= step.End()
    requires q in s.table && s.table[q].state.Queued? && s.table[q].nextRetryAt <= clock
    requires !Claims(step, q)
    ensures AllTame(Apply(s, step))
    ensures Ahead(Apply(s, step), s.table[q].nextRetryAt) <= Ahead(s, s.table[q].nextRetryAt)
    ensures step.ClaimStep? ==>
              step.pick.Some? && step.pick.value in Ahead(s, s.table[q].nextRetryAt) &&
              step.pick.value !in Ahead(Apply(s, step), s.table[q].nextRetryAt)
  {
    StepOnRows(s, step);
    StillTame(s.table, Apply(s, step).table, step);
    forall id | id in Ahead(Apply(s, step), s.table[q].nextRetryAt)
      ensures id in Ahead(s, s.table[q].nextRetryAt) && !Claims(step, id)
    {
      NobodyComesAhead(s.table, Apply(s, step).table, step, clock, s.table[q].nextRetryAt, id);
    }
    if step.ClaimStep? {
      assert Due(s.table[q], step.now);
    }
  }

  lemma StillTame(t: Table, t': Table, step: Step)
    requires RowsEvolve(t, t', step)
    requires forall id :: id in t ==> Tame(t[id].policy)
    requires step.SubmitShellStep? || step.SubmitAsyncStep? ==> Tame(step.policy)
    ensures forall id :: id in t' ==> Tame(t'[id].policy)
  {
    forall id | id in t' ensures Tame(t'[id].policy) {
      if id in t { assert RowEvolves(t[id], t'[id], step, id); } else { assert RowAppears(t'[id], step); }
    }
  }

  /** A row that is queued and stamped by `limit` after a step was so before it. */
  lemma NobodyComesAhead(t: Table, t': Table, step: Step, clock: real, limit: real, id: TaskId)
    requires RowsEvolve(t, t', step) && limit <= clock < step.now <= step.End()
    requires forall o :: o in t ==> Tame(t[o].policy)
    requires id in t' && t'[id].state.Queued? && t'[id].nextRetryAt <= limit
    ensures id in t && t[id].state.Queued? && t[id].nextRetryAt <= limit && !Claims(step, id)
  {
    if id in t {
      assert RowEvolves(t[id], t'[id], step, id);
      var k := t'[id].attempts;
      if 1 <= k <= t[id].policy.maxRetries && !t[id].policy.Overflows(k) {
        TameDelay(t[id].policy, k);
      }
    }
  }

  /** No starvation: while a due row `q` waits, the workers that ask for work are served from
      the rows stamped at or before `q`, each at most once; they are fewer than those rows. */
  lemma {:induction false} NoStarvation(s: State, steps: seq<Step>, clock: real, q: TaskId)
    requires Inv(s) && Valid(s, steps) && AllTame(s) && TameSubmissions(steps)
    requires StrictlyClocked(clock, steps)
    requires StaysQueued(s, steps, q) && s.table[q].nextRetryAt <= clock
    ensures ClaimTurns(steps) + |Ahead(Exec(s, steps), s.table[q].nextRetryAt)| <= |Ahead(s, s.table[q].nextRetryAt)|
    ensures q in Ahead(Exec(s, steps), s.table[q].nextRetryAt)
    ensures ClaimTurns(steps) < |Ahead(s, s.table[q].nextRetryAt)|
    decreases |steps|
  {
    var t := s.table[q].nextRetryAt;
    if steps != [] {
      var s' := Apply(s, steps[0]);
      StepOnRows(s, steps[0]);
      StepKeepsInv(s, steps[0]);
      StepShrinksAhead(s, steps[0], q, clock);
      assert RowEvolves(s.table[q], s'.table[q], steps[0], q);
      assert TameSubmissions(steps[1..]) by {
        forall i | 0 <= i < |steps[1..]| ensures steps[1..][i] == steps[i + 1] {}
      }
      NoStarvation(s', steps[1..], steps[0].End(), q);
      Shrinks(Ahead(s', t), Ahead(s, t), if steps[0].ClaimStep? then steps[0].pick else None);
    }
    assert q in Ahead(Exec(s, steps), t);
    assert Ahead(Exec(s, steps), t) != {};
  }

  lemma Shrinks(a: set<TaskId>, b: set<TaskId>, gone: Option<TaskId>)
    requires a <= b && (gone.Some? ==> gone.value in b && gone.value !in a)
    ensures |a| + (if gone.Some? then 1 else 0) <= |b|
  {
    SubsetSize(if gone.Some? then a + {gone.value} else a, b);
  }

  // ---------------------------------------------------------------- runs that use one policy

  /** Everything submitted in these steps has the policy `p`. */
  predicate Uses(steps: seq<Step>, p: RetryPolicy) {
    forall i :: 0 <= i < |steps| && (steps[i].SubmitShellStep? || steps[i].SubmitAsyncStep?) ==> steps[i].policy == p
  }

  function ClockAfter(clock: real, steps: seq<Step>): real
    decreases |steps|
  {
    if steps == [] then clock else ClockAfter(steps[0].End(), steps[1..])
  }

  /** A run from an empty table, with an advancing clock and everything under the policy `p`. */
  ghost predicate Plays(p: RetryPolicy, start: real, steps: seq<Step>, clock: real, s: State) {
    && Valid(FRESH, steps) && Exec(FRESH, steps) == s
    && Uses(steps, p) && StrictlyClocked(start, steps) && ClockAfter(start, steps) == clock
  }

  lemma {:induction false} RowsUse(s: State, steps: seq<Step>, p: RetryPolicy)
    requires Inv(s) && Valid(s, steps) && Uses(steps, p)
    requires forall id :: id in s.table ==> s.table[id].policy == p
    ensures Inv(Exec(s, steps)) && forall id :: id in Exec(s, steps).table ==> Exec(s, steps).table[id].policy == p
    decreases |steps|
  {
    if steps != [] {
      StepOnRows(s, steps[0]);
      StepKeepsInv(s, steps[0]);
      OnePolicy(s.table, Apply(s, steps[0]).table, steps[0], p);
      assert Uses(steps[1..], p) by {
        forall i | 0 <= i < |steps[1..]| ensures steps[1..][i] == steps[i + 1] {}
      }
      RowsUse(Apply(s, steps[0]), steps[1..], p);
    }
  }

  lemma OnePolicy(t: Table, t': Table, step: Step, p: RetryPolicy)
    requires RowsEvolve(t, t', step) && forall id :: id in t ==> t[id].policy == p
    requires step.SubmitShellStep? || step.SubmitAsyncStep? ==> step.policy == p
    ensures forall id :: id in t' ==> t'[id].policy == p
  {
    forall id | id in t' ensures t'[id].policy == p {
      if id in t { assert RowEvolves(t[id], t'[id], step, id); } else { assert RowAppears(t'[id], step); }
    }
  }

  lemma {:induction false} Snoc(s: State, steps: seq<Step>, step: Step, clock: real)
    requires Valid(s, steps) && Enabled(Exec(s, steps), step)
    requires StrictlyClocked(clock, steps) && ClockAfter(clock, steps) < step.now <= step.End()
    ensures Valid(s, steps + [step]) && Exec(s, steps + [step]) == Apply(Exec(s, steps), step)
    ensures StrictlyClocked(clock, steps + [step]) && ClockAfter(clock, steps + [step]) == step.End()
    decreases |steps|
  {
    if steps == [] {
      assert steps + [step] == [step] && [step][1..] == [];
    } else {
      assert (steps + [step])[1..] == steps[1..] + [step];
      Snoc(Apply(s, steps[0]), steps[1..], step, steps[0].End());
    }
  }

  lemma PlayOn(p: RetryPolicy, start: real, steps: seq<Step>, clock: real, s: State, step: Step)
    requires Plays(p, start, steps, clock, s) && Enabled(s, step) && clock < step.now <= step.End()
    requires step.SubmitShellStep? || step.SubmitAsyncStep? ==> step.policy == p
    ensures Plays(p, start, steps + [step], step.End(), Apply(s, step))
  {
    Snoc(FRESH, steps, step, start);
  }

  // ---------------------------------------------------------------- a row that is tried again and again

  const NO_POLL := PollAnswer(OutputRaised(""), None)

  /** The only row, of policy `p`, is queued after `j` attempts, and the only worker is idle. */
  predicate Alone(s: State, p: RetryPolicy, j: nat) {
    && s.table.Keys == {0} && s.table[0].kind.Shell? && s.table[0].policy == p
    && s.table[0].state.Queued? && s.table[0].attempts == j
    && s.frames == [Idle] && !s.stopped && s.orphans == {}
  }

  /** The worker claims row 0 at `now`, and the shell cannot be started. */
  function Try(now: real): Step { ClaimStep(0, Some(0), now, now, now, LaunchRaised(""), NO_POLL) }

  /** What a failed try leaves of a row that is first in the queue. */
  lemma TryFails(s: State, now: real)
    requires s.frames == [Idle] && !s.stopped && EarliestDue(s.table, 0, now) && s.table[0].kind.Shell?
    ensures Enabled(s, Try(now))
    ensures Apply(s, Try(now)) ==
            FailAttempt(s.(table := s.table[0 := Claimed(s.table[0], now)]), 0, 0, InternalError(""), now)
  {
  }

  lemma TryOnce(s: State, p: RetryPolicy, j: nat, now: real)
    requires Alone(s, p, j) && j + 1 <= p.maxRetries && !p.Overflows(j + 1) && s.table[0].nextRetryAt <= now
    ensures Enabled(s, Try(now)) && Alone(Apply(s, Try(now)), p, j + 1)
  {
    TryFails(s, now);
    assert Apply(s, Try(now)).frames == [Idle];
  }

  lemma First(p: RetryPolicy) returns (steps: seq<Step>, s: State)
    ensures Plays(p, 0.0, steps, 2.0, s) && Alone(s, p, 0)
  {
    var submit := SubmitShellStep(0, "x", 1.0, p, 1.0);
    assert !Blank("x") by { assert "x"[0] == 'x'; }
    assert Plays(p, 0.0, [], 0.0, FRESH);
    PlayOn(p, 0.0, [], 0.0, FRESH, submit);
    var s1 := Apply(FRESH, submit);
    var start := StartStep(1, 2.0);
    PlayOn(p, 0.0, [] + [submit], 1.0, s1, start);
    steps, s := [] + [submit] + [start], Apply(s1, start);
    assert s.frames == [Idle];
  }

  /** A run in which one row fails `j` times and is back in the queue. */
  lemma {:induction false} TryOften(p: RetryPolicy, j: nat) returns (steps: seq<Step>, clock: real, s: State)
    requires j <= p.maxRetries || j == 0
    requires !p.Overflows(j)
    ensures Plays(p, 0.0, steps, clock, s) && Alone(s, p, j)
    decreases j
  {
    if j == 0 {
      steps, s := First(p);
      return steps, 2.0, s;
    }
    if p.Overflows(j - 1) { OverflowsGrow(p, j - 1, j); }
    steps, clock, s := TryOften(p, j - 1);
    var now := Max(clock, s.table[0].nextRetryAt) + 1.0;
    TryOnce(s, p, j - 1, now);
    PlayOn(p, 0.0, steps, clock, s, Try(now));
    steps, clock, s := steps + [Try(now)], now, Apply(s, Try(now));
  }

  // ---------------------------------------------------------------- overtaking, exactly

  /** A run under `p` in which a due row is overtaken at least as often as rows were ahead of it. */
  ghost predicate Overtakes(p: RetryPolicy, start: real, before: seq<Step>, after: seq<Step>, q: TaskId) {
    && Valid(FRESH, before) && Valid(Exec(FRESH, before), after) && Uses(before, p) && Uses(after, p)
    && StrictlyClocked(start, before) && StrictlyClocked(ClockAfter(start, before), after)
    && var s := Exec(FRESH, before);
       && StaysQueued(s, after, q) && s.table[q].nextRetryAt <= ClockAfter(start, before)
       && ClaimTurns(after) >= |Ahead(s, s.table[q].nextRetryAt)|
  }

  lemma TameNeverOvertakes(p: RetryPolicy, start: real, before: seq<Step>, after: seq<Step>, q: TaskId)
    requires Tame(p)
    ensures !Overtakes(p, start, before, after, q)
  {
    if Overtakes(p, start, before, after, q) {
      FreshInv();
      RowsUse(FRESH, before, p);
      NoStarvation(Exec(FRESH, before), after, ClockAfter(start, before), q);
    }
  }

  /** The waiting row and the one that pushes ahead of it. */
  predicate Contested(s: State, p: RetryPolicy, j: nat, t: real) {
    && s.table.Keys == {0, 1} && s.frames == [Idle] && !s.stopped
    && s.table[0].kind.Shell? && s.table[0].policy == p && s.table[0].attempts == j
    && s.table[0].state.Queued? && s.table[0].nextRetryAt <= t
    && s.table[1].state.Queued? && s.table[1].nextRetryAt == t
  }

  lemma PushAhead(s: State, p: RetryPolicy, k: nat, t: real, now: real)
    requires k >= 1 && Contested(s, p, k - 1, t) && t < now && now + p.Backoff(k) <= t
    requires k <= p.maxRetries && !p.Overflows(k)
    ensures Enabled(s, Try(now)) && Contested(Apply(s, Try(now)), p, k, t)
  {
    TryFails(s, now);
    assert Apply(s, Try(now)).frames == [Idle];
  }

  lemma PushAgain(s: State, p: RetryPolicy, k: nat, t: real, now: real)
    requires Contested(s, p, k, t) && t < now
    ensures Enabled(s, Try(now))
    ensures var s' := Apply(s, Try(now)); 1 in s'.table && s'.table[1] == s.table[1]
  {
    TryFails(s, now);
  }

  lemma PushTwice(s: State, p: RetryPolicy, k: nat, t: real) returns (after: seq<Step>)
    requires 1 <= k <= p.maxRetries && Contested(s, p, k - 1, t) && !p.Overflows(k) && p.Backoff(k) < 0.0
    ensures Valid(s, after) && Uses(after, p) && StrictlyClocked(t, after)
    ensures StaysQueued(s, after, 1) && ClaimTurns(after) == 2
  {
    var one := t - p.Backoff(k);
    var two := one + 1.0;
    PushAhead(s, p, k, t, one);
    var s1 := Apply(s, Try(one));
    PushAgain(s1, p, k, t, two);
    after := [Try(one), Try(two)];
    assert after[1..] == [Try(two)] && after[1..][1..] == [];
    var s2 := Apply(s1, Try(two));
    assert StaysQueued(s2, [], 1);
    assert StaysQueued(s1, [Try(two)], 1);
    assert ClaimTurns([Try(two)]) == 1;
    assert StrictlyClocked(one, [Try(two)]);
  }

  /** Every policy that is not tame has a run from an empty table that breaks the bound. */
  lemma WildOvertakes(p: RetryPolicy) returns (before: seq<Step>, after: seq<Step>)
    requires !Tame(p)
    ensures Overtakes(p, 0.0, before, after, 1)
  {
    var k := WildDelay(p);
    if p.Overflows(k - 1) { OverflowsGrow(p, k - 1, k); }
    var steps, clock, s := TryOften(p, k - 1);
    var t := Max(clock, s.table[0].nextRetryAt) + 1.0;
    var submit := SubmitShellStep(1, "x", 1.0, p, t);
    assert !Blank("x") by { assert "x"[0] == 'x'; }
    PlayOn(p, 0.0, steps, clock, s, submit);
    before := steps + [submit];
    var s' := Apply(s, submit);
    after := PushTwice(s', p, k, t);
    assert Ahead(s', t) == {0, 1};
  }

  /** The bound on overtaking holds in every run of a policy if and only if the policy is tame. */
  lemma OvertakingExactly(p: RetryPolicy)
    ensures (exists start, before, after, q :: Overtakes(p, start, before, after, q)) <==> !Tame(p)
  {
    if Tame(p) {
      forall start, before, after, q ensures !Overtakes(p, start, before, after, q) {
        TameNeverOvertakes(p, start, before, after, q);
      }
    } else {
      var before, after := WildOvertakes(p);
    }
  }

  // ---------------------------------------------------------------- dying workers, exactly

  lemma {:induction false} FirstOverflow(p: RetryPolicy, n: nat) returns (k: nat)
    requires p.Overflows(n)
    ensures 1 <= k <= n && p.Overflows(k) && !p.Overflows(k - 1)
    decreases n
  {
    if p.Overflows(n - 1) { k := FirstOverflow(p, n - 1); } else { k := n; }
  }

  /** For every policy whose last delay overflows, a run in which a worker dies. */
  lemma OverflowStrands(p: RetryPolicy) returns (steps: seq<Step>)
    requires p.maxRetries >= 1 && p.Overflows(p.maxRetries)
    ensures Valid(FRESH, steps) && Uses(steps, p) && StrandedIn(FRESH, steps, 0)
  {
    var k := FirstOverflow(p, p.maxRetries);
    var before, clock, s := TryOften(p, k - 1);
    var now := Max(clock, s.table[0].nextRetryAt) + 1.0;
    TryFails(s, now);
    PlayOn(p, 0.0, before, clock, s, Try(now));
    steps := before + [Try(now)];
    assert Exec(FRESH, steps) == Apply(s, Try(now)) && 0 in Apply(s, Try(now)).orphans;
    RunOrphans(FRESH, steps, 0);
  }

  /** A run under `p` in which a failure of row `id` could not be recorded. */
  ghost predicate LosesWorker(p: RetryPolicy, steps: seq<Step>, id: TaskId) {
    Valid(FRESH, steps) && Uses(steps, p) && StrandedIn(FRESH, steps, id)
  }

  /** Some run of a policy loses a worker and its row if and only if the policy has a retry and
      the delay of its last one overflows. */
  lemma StrandingExactly(p: RetryPolicy)
    ensures (exists steps, id :: LosesWorker(p, steps, id)) <==> p.maxRetries >= 1 && p.Overflows(p.maxRetries)
  {
    if p.maxRetries >= 1 && p.Overflows(p.maxRetries) {
      var steps := OverflowStrands(p);
      assert LosesWorker(p, steps, 0);
    } else {
      forall steps, id ensures !LosesWorker(p, steps, id) {
        if LosesWorker(p, steps, id) { RecordableNeverStrands(p, steps, id); }
      }
    }
  }

  lemma RecordableNeverStrands(p: RetryPolicy, steps: seq<Step>, id: TaskId)
    requires Valid(FRESH, steps) && Uses(steps, p) && !(p.maxRetries >= 1 && p.Overflows(p.maxRetries))
    ensures !StrandedIn(FRESH, steps, id)
  {
    FreshInv();
    RowsUse(FRESH, steps, p);
    RunOrphans(FRESH, steps, id);
    var s := Exec(FRESH, steps);
    if id in s.orphans {
      assert Unrecordable(s.table[id]) && s.table[id].policy == p;
      OverflowsGrow(p, s.table[id].attempts, p.maxRetries);
    }
  }
}
