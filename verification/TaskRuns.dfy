/** Theorems about whole runs of the batch-task service: terminal rows are frozen, claims are
    conserved and bounded, and retries keep their distance. */
module TaskRuns {
  import opened Basics
  import opened TaskService
  import opened TaskSafety
  import Sums

  predicate Claims(step: Step, id: TaskId) {
    step.ClaimStep? && step.pick == Some(id)
  }

  // ---------------------------------------------------------------- one row, one step

  /** How a step may change a row that exists before it. */
  ghost predicate RowEvolves(row: Row, row': Row, step: Step, id: TaskId) {
    && row'.kind == row.kind && row'.policy == row.policy
    && row'.attempts == row.attempts + (if Claims(step, id) then 1 else 0)
    && (Claims(step, id) ==> row.state.Queued? && row.nextRetryAt <= step.now)
    && (row.state.Terminal() ==> row' == row)
    && (row.state.Queued? && !Claims(step, id) ==> row' == row || row'.state.Cancelled?)
    && (row'.state.Queued? && (row.state.Running? || Claims(step, id)) ==>
          && row'.attempts <= row.policy.maxRetries && !row.policy.Overflows(row'.attempts)
          && row'.nextRetryAt == step.End() + row.policy.Backoff(row'.attempts))
  }

  /** A row that appears is queued, unclaimed and stamped with the clock. */
  ghost predicate RowAppears(row': Row, step: Step) {
    && (step.SubmitShellStep? || step.SubmitAsyncStep?)
    && row'.state.Queued? && row'.attempts == 0 && row'.nextRetryAt == step.now && row'.policy == step.policy
  }

  ghost predicate RowsEvolve(t: Table, t': Table, step: Step) {
    && t.Keys <= t'.Keys
    && (forall id :: id in t ==> RowEvolves(t[id], t'[id], step, id))
    && (forall id :: id in t' && id !in t ==> RowAppears(t'[id], step))
  }

  /** Settling a row in hand is one of the ways a row may change. */
  lemma SettledRow(s: State, s': State, w: nat, id: TaskId, step: Step)
    requires InHand(s, w, id) && Settles(s, s', w, id, step.End()) && !step.ClaimStep?
    ensures RowsEvolve(s.table, s'.table, step)
  {
  }

  lemma ClaimedRow(s: State, mid: State, s': State, step: Step)
    requires Enabled(s, step) && step.ClaimStep? && step.pick.Some?
    requires mid.table == s.table[step.pick.value := Claimed(s.table[step.pick.value], step.now)]
    requires InHand(mid, step.w, step.pick.value) && Settles(mid, s', step.w, step.pick.value, step.end)
    ensures RowsEvolve(s.table, s'.table, step)
  {
    var id := step.pick.value;
    assert RowEvolves(s.table[id], s'.table[id], step, id);
  }

  lemma ClaimOnRows(s: State, step: Step)
    requires Inv(s) && Enabled(s, step) && step.ClaimStep? && step.pick.Some?
    ensures RowsEvolve(s.table, Apply(s, step).table, step)
  {
    var id := step.pick.value;
    var mid := s.(table := s.table[id := Claimed(s.table[id], step.now)]);
    ClaimPutsInHand(s, step.w, id, step.now);
    LaunchSettles(mid, step.w, id, step.start, step.poll, step.begun, step.end);
    ClaimedRow(s, mid, Launch(mid, step.w, id, step.start, step.poll, step.begun, step.end), step);
  }

  lemma PollOnRows(s: State, step: Step)
    requires Inv(s) && Enabled(s, step) && step.PollStep?
    ensures RowsEvolve(s.table, Apply(s, step).table, step)
  {
    var id, deadline := s.frames[step.w].id, s.frames[step.w].deadline;
    assert Owns(s, step.w, id);
    OwnerHasInHand(s, step.w, id);
    PollTurnSettles(s, step.w, id, deadline, step.poll, step.now);
    SettledRow(s, PollTurn(s, step.w, id, deadline, step.poll, step.now), step.w, id, step);
  }

  lemma ResumeOnRows(s: State, step: Step)
    requires Inv(s) && Enabled(s, step) && step.ResumeStep?
    ensures RowsEvolve(s.table, Apply(s, step).table, step)
  {
    var id := s.frames[step.w].id;
    assert Owns(s, step.w, id);
    OwnerHasInHand(s, step.w, id);
    ResumedSettles(s, step.w, id, step.outcome, step.now);
    SettledRow(s, Resumed(s, step.w, id, step.outcome, step.now), step.w, id, step);
  }

  lemma ProgressOnRows(s: State, step: Step)
    requires Inv(s) && Enabled(s, step) && step.ProgressStep?
    ensures RowsEvolve(s.table, Apply(s, step).table, step)
  {
    assert Owns(s, step.w, s.frames[step.w].id);
  }

  lemma SameRows(t: Table, step: Step)
    requires !step.ClaimStep? || step.pick.None?
    ensures RowsEvolve(t, t, step)
  {
  }

  lemma NewRowOnRows(t: Table, id: TaskId, row: Row, step: Step)
    requires id !in t && RowAppears(row, step)
    ensures RowsEvolve(t, t[id := row], step)
  {
  }

  lemma SubmitOnRows(s: State, step: Step)
    requires Enabled(s, step) && (step.SubmitShellStep? || step.SubmitAsyncStep?)
    ensures RowsEvolve(s.table, Apply(s, step).table, step)
  {
    if step.SubmitAsyncStep? {
      NewRowOnRows(s.table, step.id, NewRow(Async, "", 0.0, step.policy, step.now), step);
    } else {
      NewRowOnRows(s.table, step.id, NewRow(Shell, step.command, step.timeout, step.policy, step.now), step);
      SameRows(s.table, step);
    }
  }

  lemma CancelOnRows(s: State, step: Step)
    requires Enabled(s, step) && step.CancelStep?
    ensures RowsEvolve(s.table, Apply(s, step).table, step)
  {
    SameRows(s.table, step);
  }

  lemma StepOnRows(s: State, step: Step)
    requires Inv(s) && Enabled(s, step)
    ensures RowsEvolve(s.table, Apply(s, step).table, step)
  {
    match step
    case ClaimStep(_, pick, _, _, _, _, _) =>
      if pick.Some? { ClaimOnRows(s, step); } else { SameRows(s.table, step); }
    case PollStep(_, _, _) => PollOnRows(s, step);
    case ResumeStep(_, _, _) => ResumeOnRows(s, step);
    case ProgressStep(_, _, _) => ProgressOnRows(s, step);
    case SubmitShellStep(_, _, _, _, _) => SubmitOnRows(s, step);
    case SubmitAsyncStep(_, _, _) => SubmitOnRows(s, step);
    case CancelStep(_, _) => CancelOnRows(s, step);
    case _ => SameRows(s.table, step);
  }

  // ---------------------------------------------------------------- failures that cannot be recorded

  /** A turn of the polling loop that ends the attempt without success or cancellation. */
  predicate PollFails(s: State, id: TaskId, deadline: real, answer: PollAnswer, now: real) {
    PollEnding(id in s.cancelFlags, id, deadline, answer, now).Fails?
  }

  /** The step ends an attempt of the row with a failure. */
  predicate AttemptFails(s: State, step: Step, id: TaskId)
    requires Enabled(s, step)
  {
    match step
    case ClaimStep(_, pick, _, begun, end, start, poll) =>
      pick == Some(id) && id in s.table && LaunchEnding(s, id, start, poll, begun, end).Fails?
    case PollStep(w, poll, now) =>
      s.frames[w].id == id && PollFails(s, id, s.frames[w].deadline, poll, now)
    case ResumeStep(w, outcome, _) => s.frames[w].id == id && outcome.Raised?
    case _ => false
  }

  /** The step fails an attempt that would be retried after a delay that overflows. */
  predicate Strands(s: State, step: Step, id: TaskId)
    requires Enabled(s, step)
  {
    AttemptFails(s, step, id) && id in s.table &&
    var row := s.table[id];
    Unrecordable(row.(attempts := row.attempts + if step.ClaimStep? then 1 else 0))
  }

  lemma SettleStrands(s: State, w: nat, id: TaskId, e: Ending, now: real)
    requires id in s.table && w < |s.frames|
    ensures Settle(s, w, id, e, now).orphans ==
            if e.Fails? && Unrecordable(s.table[id]) then s.orphans + {id} else s.orphans
  {
  }

  lemma PollStrands(s: State, w: nat, id: TaskId, deadline: real, answer: PollAnswer, now: real)
    requires id in s.table && w < |s.frames|
    ensures PollTurn(s, w, id, deadline, answer, now).orphans ==
            if PollFails(s, id, deadline, answer, now) && Unrecordable(s.table[id]) then s.orphans + {id} else s.orphans
  {
    SettleStrands(Seen(s, id, answer), w, id, PollEnding(id in s.cancelFlags, id, deadline, answer, now), now);
  }

  lemma LaunchStrands(s: State, w: nat, id: TaskId, start: StartAnswer, poll: PollAnswer, begun: real, now: real)
    requires id in s.table && w < |s.frames|
    ensures Launch(s, w, id, start, poll, begun, now).orphans ==
            if LaunchEnding(s, id, start, poll, begun, now).Fails? && Unrecordable(s.table[id])
            then s.orphans + {id} else s.orphans
  {
    SettleStrands(Launched(s, id, start, poll), w, id, LaunchEnding(s, id, start, poll, begun, now), now);
  }

  lemma ClaimStrands(s: State, step: Step)
    requires Enabled(s, step) && step.ClaimStep? && step.pick.Some?
    ensures var id := step.pick.value;
            Apply(s, step).orphans == if Strands(s, step, id) then s.orphans + {id} else s.orphans
  {
    var id := step.pick.value;
    var mid := s.(table := s.table[id := Claimed(s.table[id], step.now)]);
    LaunchStrands(mid, step.w, id, step.start, step.poll, step.begun, step.end);
  }

  /** A step orphans exactly the rows that it strands. */
  lemma StepOrphans(s: State, step: Step, id: TaskId)
    requires Enabled(s, step)
    ensures id in Apply(s, step).orphans <==> id in s.orphans || Strands(s, step, id)
  {
    match step
    case ClaimStep(_, pick, _, _, _, _, _) => if pick.Some? { ClaimStrands(s, step); }
    case PollStep(w, poll, now) => PollStrands(s, w, s.frames[w].id, s.frames[w].deadline, poll, now);
    case _ =>
  }

  ghost predicate StrandedIn(s: State, steps: seq<Step>, id: TaskId)
    requires Valid(s, steps)
    decreases |steps|
  {
    steps != [] && (Strands(s, steps[0], id) || StrandedIn(Apply(s, steps[0]), steps[1..], id))
  }

  lemma {:induction false} RunOrphans(s: State, steps: seq<Step>, id: TaskId)
    requires Valid(s, steps)
    ensures id in Exec(s, steps).orphans <==> id in s.orphans || StrandedIn(s, steps, id)
    decreases |steps|
  {
    if steps != [] {
      StepOrphans(s, steps[0], id);
      RunOrphans(Apply(s, steps[0]), steps[1..], id);
    }
  }

  // ---------------------------------------------------------------- safety of every run

  lemma FreshInv()
    ensures Inv(FRESH)
  {
    assert forall w, id :: !Owns(FRESH, w, id);
  }

  /** In every run from an empty table: a row is RUNNING exactly if a worker owns it or a failure
      of it could not be recorded, never both; at most one worker owns it; a factory is stored
      exactly for the live async rows; only RUNNING shell rows are flagged for cancellation; and
      no row is claimed beyond its budget. */
  lemma RunSafety(steps: seq<Step>, id: TaskId)
    requires Valid(FRESH, steps)
    ensures var s := Exec(FRESH, steps);
            && (id in s.table && s.table[id].state.Running? <==> Owned(s, id) || StrandedIn(FRESH, steps, id))
            && !(Owned(s, id) && StrandedIn(FRESH, steps, id))
            && (forall v, w :: Owns(s, v, id) && Owns(s, w, id) ==> v == w)
            && (id in s.factories <==> id in s.table && s.table[id].kind.Async? && !s.table[id].state.Terminal())
            && (id in s.cancelFlags ==> id in s.table && s.table[id].state.Running? && s.table[id].kind.Shell?)
            && (id in s.table ==> s.table[id].attempts <= MaxInt(0, s.table[id].policy.maxRetries) + 1)
  {
    FreshInv();
    RunKeepsInv(FRESH, steps);
    RunOrphans(FRESH, steps, id);
    var s := Exec(FRESH, steps);
    assert OwnersOk(s) && RunningOwned(s) && FactoriesOk(s) && FlagsOk(s) && RowsOk(s);
    if id in s.table { assert AttemptsOk(s.table[id]); }
  }

  /** A row whose failure could not be recorded stays RUNNING, without an owner, for good. */
  lemma OrphansStay(before: seq<Step>, after: seq<Step>, id: TaskId)
    requires Valid(FRESH, before) && StrandedIn(FRESH, before, id) && Valid(Exec(FRESH, before), after)
    ensures var s := Exec(Exec(FRESH, before), after);
            id in s.table && s.table[id].state.Running? && !Owned(s, id)
  {
    FreshInv();
    RunKeepsInv(FRESH, before);
    RunKeepsInv(Exec(FRESH, before), after);
    RunOrphans(FRESH, before, id);
    RunOrphans(Exec(FRESH, before), after, id);
    assert OwnersOk(Exec(Exec(FRESH, before), after));
  }

  /** Once DONE, FAILED or CANCELLED, a row never changes again, in any column. */
  lemma {:induction false} TerminalRowsAreFrozen(s: State, steps: seq<Step>, id: TaskId)
    requires Inv(s) && Valid(s, steps)
    requires id in s.table && s.table[id].state.Terminal()
    ensures id in Exec(s, steps).table && Exec(s, steps).table[id] == s.table[id]
    decreases |steps|
  {
    if steps != [] {
      StepOnRows(s, steps[0]);
      StepKeepsInv(s, steps[0]);
      TerminalRowsAreFrozen(Apply(s, steps[0]), steps[1..], id);
    }
  }

  // ---------------------------------------------------------------- claims are conserved

  function ClaimCount(steps: seq<Step>): nat
    decreases |steps|
  {
    if steps == [] then 0
    else (if steps[0].ClaimStep? && steps[0].pick.Some? then 1 else 0) + ClaimCount(steps[1..])
  }

  function Attempts(t: Table): map<nat, nat> { map id | id in t :: t[id].attempts }

  function Budgets(t: Table): map<nat, nat> { map id | id in t :: t[id].policy.Budget() }

  ghost function TotalAttempts(s: State): nat { Sums.Sum(Attempts(s.table)) }

  ghost function TotalBudget(s: State): nat { Sums.Sum(Budgets(s.table)) }

  /** The claims that the rows of the table still allow. */
  ghost function Remaining(s: State): int { TotalBudget(s) - TotalAttempts(s) }

  /** The claims that a submission adds. */
  function Granted(s: State, step: Step): nat {
    match step
    case SubmitShellStep(_, command, timeout, policy, _) =>
      if Blank(command) || timeout <= 0.0 then 0 else policy.Budget()
    case SubmitAsyncStep(_, policy, _) => policy.Budget()
    case _ => 0
  }

  function GrantedBy(s: State, steps: seq<Step>): nat
    requires Valid(s, steps)
    decreases |steps|
  {
    if steps == [] then 0 else Granted(s, steps[0]) + GrantedBy(Apply(s, steps[0]), steps[1..])
  }

  lemma ClaimConserves(s: State, step: Step)
    requires Inv(s) && Enabled(s, step) && step.ClaimStep? && step.pick.Some?
    ensures TotalAttempts(Apply(s, step)) == TotalAttempts(s) + 1
    ensures TotalBudget(Apply(s, step)) == TotalBudget(s)
  {
    ClaimOnRows(s, step);
    OneClaimConserves(s.table, Apply(s, step).table, step, step.pick.value);
  }

  lemma OneClaimConserves(t: Table, t': Table, step: Step, id: TaskId)
    requires RowsEvolve(t, t', step) && id in t && step.ClaimStep? && step.pick == Some(id)
    ensures Sums.Sum(Attempts(t')) == Sums.Sum(Attempts(t)) + 1
    ensures Sums.Sum(Budgets(t')) == Sums.Sum(Budgets(t))
  {
    assert t'.Keys == t.Keys by {
      forall o | o in t' ensures o in t {}
    }
    ClaimedAttempts(t, t', step, id);
    Sums.SumUpdate(Attempts(t), id, t[id].attempts + 1);
  }

  lemma ClaimedAttempts(t: Table, t': Table, step: Step, id: TaskId)
    requires RowsEvolve(t, t', step) && id in t && step.ClaimStep? && step.pick == Some(id) && t'.Keys == t.Keys
    ensures Attempts(t') == Attempts(t)[id := t[id].attempts + 1] && Budgets(t') == Budgets(t)
  {
    forall o | o in t
      ensures t'[o].attempts == t[o].attempts + (if o == id then 1 else 0) && t'[o].policy == t[o].policy
    {
      assert RowEvolves(t[o], t'[o], step, o);
    }
  }

  lemma NewRowConserves(t: Table, id: TaskId, row: Row)
    requires id !in t && row.attempts == 0
    ensures Sums.Sum(Attempts(t[id := row])) == Sums.Sum(Attempts(t))
    ensures Sums.Sum(Budgets(t[id := row])) == Sums.Sum(Budgets(t)) + row.policy.Budget()
  {
    Sums.SumUpdate(Attempts(t), id, 0);
    assert Attempts(t[id := row]) == Attempts(t)[id := 0];
    Sums.SumUpdate(Budgets(t), id, row.policy.Budget());
    assert Budgets(t[id := row]) == Budgets(t)[id := row.policy.Budget()];
  }

  lemma QuietConserves(t: Table, t': Table, step: Step)
    requires t'.Keys == t.Keys && RowsEvolve(t, t', step)
    requires forall id :: id in t ==> !Claims(step, id)
    ensures Sums.Sum(Attempts(t')) == Sums.Sum(Attempts(t))
    ensures Sums.Sum(Budgets(t')) == Sums.Sum(Budgets(t))
  {
    forall id | id in t ensures t'[id].attempts == t[id].attempts && t'[id].policy == t[id].policy {
      assert RowEvolves(t[id], t'[id], step, id);
    }
    assert Attempts(t') == Attempts(t);
    assert Budgets(t') == Budgets(t);
  }

  lemma SubmitConserves(s: State, step: Step)
    requires Enabled(s, step) && (step.SubmitShellStep? || step.SubmitAsyncStep?)
    ensures TotalAttempts(Apply(s, step)) == TotalAttempts(s)
    ensures TotalBudget(Apply(s, step)) == TotalBudget(s) + Granted(s, step)
  {
    if step.SubmitAsyncStep? {
      NewRowConserves(s.table, step.id, NewRow(Async, "", 0.0, step.policy, step.now));
    } else {
      NewRowConserves(s.table, step.id, NewRow(Shell, step.command, step.timeout, step.policy, step.now));
    }
  }

  lemma StepConservesClaims(s: State, step: Step)
    requires Inv(s) && Enabled(s, step)
    ensures TotalAttempts(Apply(s, step)) == TotalAttempts(s) + (if step.ClaimStep? && step.pick.Some? then 1 else 0)
    ensures TotalBudget(Apply(s, step)) == TotalBudget(s) + Granted(s, step)
  {
    if step.ClaimStep? && step.pick.Some? {
      ClaimConserves(s, step);
    } else if step.SubmitShellStep? || step.SubmitAsyncStep? {
      SubmitConserves(s, step);
    } else {
      StepOnRows(s, step);
      QuietConserves(s.table, Apply(s, step).table, step);
    }
  }

  lemma {:induction false} RunConservesClaims(s: State, steps: seq<Step>)
    requires Inv(s) && Valid(s, steps)
    ensures TotalAttempts(Exec(s, steps)) == TotalAttempts(s) + ClaimCount(steps)
    ensures TotalBudget(Exec(s, steps)) == TotalBudget(s) + GrantedBy(s, steps)
    decreases |steps|
  {
    if steps != [] {
      StepConservesClaims(s, steps[0]);
      StepKeepsInv(s, steps[0]);
      RunConservesClaims(Apply(s, steps[0]), steps[1..]);
    }
  }

  /** `Remaining` is a measure: each claim takes one from it, each submission adds its policy's
      budget, nothing else changes it, and it is never negative. So a run claims at most what
      it started with plus what its submissions granted, whatever the tasks do. */
  lemma ClaimsAreBounded(s: State, steps: seq<Step>)
    requires Inv(s) && Valid(s, steps)
    ensures Remaining(Exec(s, steps)) == Remaining(s) - ClaimCount(steps) + GrantedBy(s, steps)
    ensures Remaining(Exec(s, steps)) >= 0
    ensures ClaimCount(steps) <= Remaining(s) + GrantedBy(s, steps)
  {
    RunConservesClaims(s, steps);
    RunKeepsInv(s, steps);
    var t := Exec(s, steps).table;
    assert forall id :: id in t ==> AttemptsOk(t[id]);
    Sums.SumBound(Attempts(t), Budgets(t));
  }

  // ---------------------------------------------------------------- retries keep their distance

  /** The clock never runs backwards, within a step or from step to step. */
  ghost predicate Clocked(clock: real, steps: seq<Step>)
    decreases |steps|
  {
    steps == [] || (clock <= steps[0].now <= steps[0].End() && Clocked(steps[0].End(), steps[1..]))
  }

  /** After its claim number `k` at time `t`, a row that is back in the queue is stamped no
      earlier than the backoff allows. */
  ghost predicate Spaced(row: Row, k: nat, t: real) {
    row.attempts == k && (row.state.Queued? ==> row.nextRetryAt >= t + row.policy.Backoff(k))
  }

  /** None of the first `j` steps claims the row. */
  predicate Unclaimed(steps: seq<Step>, j: nat, id: TaskId)
    requires j <= |steps|
  {
    forall i :: 0 <= i < j ==> !Claims(steps[i], id)
  }

  lemma UnclaimedTail(steps: seq<Step>, j: nat, id: TaskId)
    requires 0 < j <= |steps| && forall i :: 0 < i < j ==> !Claims(steps[i], id)
    ensures Unclaimed(steps[1..], j - 1, id)
  {
    forall i | 0 <= i < j - 1 ensures !Claims(steps[1..][i], id) { assert steps[1..][i] == steps[i + 1]; }
  }

  lemma {:induction false} NextClaimIsLate(s: State, steps: seq<Step>, clock: real, id: TaskId, k: nat, t: real, j: nat)
    requires Inv(s) && Valid(s, steps) && Clocked(clock, steps) && t <= clock
    requires id in s.table && Spaced(s.table[id], k, t)
    requires j < |steps| && Claims(steps[j], id)
    requires Unclaimed(steps, j, id)
    ensures steps[j].now >= t + s.table[id].policy.Backoff(k)
    decreases |steps|
  {
    StepOnRows(s, steps[0]);
    if j > 0 {
      StepKeepsInv(s, steps[0]);
      var s' := Apply(s, steps[0]);
      assert RowEvolves(s.table[id], s'.table[id], steps[0], id);
      assert !Claims(steps[0], id);
      UnclaimedTail(steps, j, id);
      NextClaimIsLate(s', steps[1..], steps[0].End(), id, k, t, j - 1);
    }
  }

  lemma ClaimSpaces(s: State, step: Step, id: TaskId)
    requires Inv(s) && Enabled(s, step) && Claims(step, id) && step.now <= step.End()
    ensures var s' := Apply(s, step);
            Inv(s') && id in s'.table && s'.table[id].policy == s.table[id].policy &&
            Spaced(s'.table[id], s.table[id].attempts + 1, step.now)
  {
    StepKeepsInv(s, step);
    ClaimOnRows(s, step);
    assert RowEvolves(s.table[id], Apply(s, step).table[id], step, id);
  }

  /** Two consecutive claims of a row, the first being its attempt number `k`, are at least
      `min(initial * multiplier^(k-1), cap)` apart. */
  lemma ClaimsAreSpaced(s: State, steps: seq<Step>, clock: real, id: TaskId, j: nat)
    requires Inv(s) && Valid(s, steps) && Clocked(clock, steps)
    requires 0 < j < |steps| && Claims(steps[0], id) && Claims(steps[j], id)
    requires forall i :: 0 < i < j ==> !Claims(steps[i], id)
    ensures var k := s.table[id].attempts + 1;
            steps[j].now - steps[0].now >= s.table[id].policy.Backoff(k)
  {
    UnclaimedTail(steps, j, id);
    assert steps[1..][j - 1] == steps[j];
    SpacedAfter(s, steps[0], steps[1..], id, j - 1);
  }

  lemma SpacedAfter(s: State, step: Step, rest: seq<Step>, id: TaskId, j: nat)
    requires Inv(s) && Enabled(s, step) && Claims(step, id)
    requires Valid(Apply(s, step), rest) && step.now <= step.End() && Clocked(step.End(), rest)
    requires j < |rest| && Claims(rest[j], id) && Unclaimed(rest, j, id)
    ensures rest[j].now - step.now >= s.table[id].policy.Backoff(s.table[id].attempts + 1)
  {
    ClaimSpaces(s, step, id);
    NextClaimIsLate(Apply(s, step), rest, step.End(), id, s.table[id].attempts + 1, step.now, j);
  }
}
