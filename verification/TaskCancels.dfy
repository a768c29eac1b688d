/** What a turn of a shell task's worker decides, and what becomes of a cancellation. */
module TaskCancels {
  import opened Basics
  import opened TaskService
  import opened TaskSafety
  import opened TaskRuns

  /** A failed attempt is retried exactly while attempts remain and the delay can be computed. */
  lemma FailedAttempt(s: State, w: nat, id: TaskId, reason: string, now: real)
    requires id in s.table && s.table[id].state.Running? && w < |s.frames|
    ensures var row, s' := s.table[id], FailAttempt(s, w, id, reason, now);
            && id in s'.table && Retried(row, s'.table[id])
            && (Unrecordable(row) <==> s'.frames[w].Exited?)
  {
  }

  predicate Retried(row: Row, row': Row) {
    && (row'.state.Queued? <==> row.attempts <= row.policy.maxRetries && !row.policy.Overflows(row.attempts))
    && (row'.state.Failed? <==> row.attempts > row.policy.maxRetries)
    && (row'.state.Running? <==> Unrecordable(row))
    && !row'.state.Done? && !row'.state.Cancelled?
  }

  lemma Settled(s: State, w: nat, id: TaskId, e: Ending, now: real)
    requires id in s.table && s.table[id].state.Running? && w < |s.frames|
    ensures var row' := Settle(s, w, id, e, now).table[id];
            match e
            case Ends(state, _, _) => row'.state == state
            case Waits(_) => row' == s.table[id]
            case Fails(_) => Retried(s.table[id], row')
  {
    if e.Fails? { FailedAttempt(s, w, id, e.reason, now); }
  }

  /** What one turn makes of a row, by the answers its worker gets. */
  predicate Decides(row: Row, row': Row, flagged: bool, deadline: real, poll: PollAnswer, now: real) {
    var read := poll.output.Output?;
    var cancelled := flagged && poll.killRaises.None?;
    var succeeded := !flagged && read && !poll.output.alive && poll.output.exitCode == Some(0);
    var waits := !flagged && read && poll.output.alive && now <= deadline;
    && (row'.state.Cancelled? <==> cancelled)
    && (row'.state.Done? <==> succeeded)
    && (row'.state.Running? <==> waits || (!cancelled && !succeeded && Unrecordable(row)))
    && (!cancelled && !succeeded && !waits ==> Retried(row, row'))
  }

  /** A flag comes before everything else, an exit before the deadline, and a row is retried exactly
      while attempts remain and the delay can be computed. */
  lemma PollDecides(s: State, w: nat, id: TaskId, deadline: real, poll: PollAnswer, now: real)
    requires id in s.table && s.table[id].state.Running? && w < |s.frames|
    ensures var s' := PollTurn(s, w, id, deadline, poll, now);
            id in s'.table && Decides(s.table[id], s'.table[id], id in s.cancelFlags, deadline, poll, now)
  {
    Settled(Seen(s, id, poll), w, id, PollEnding(id in s.cancelFlags, id, deadline, poll, now), now);
  }

  // ---------------------------------------------------------------- a flag holds until it is seen

  /** Worker `w` polls shell row `id`, which is flagged for cancellation. */
  ghost predicate Flagged(s: State, w: nat, id: TaskId, deadline: real) {
    Inv(s) && w < |s.frames| && s.frames[w] == Polling(id, deadline) && id in s.cancelFlags
  }

  /** A stretch of another worker, on another row, leaves frame and flag alone. */
  lemma OthersSettle(s: State, s': State, w: nat, id: TaskId, other: nat, row: TaskId, now: real)
    requires InHand(s, other, row) && Settles(s, s', other, row, now)
    requires w < |s.frames| && w != other && id != row && id in s.cancelFlags
    ensures w < |s'.frames| && s'.frames[w] == s.frames[w] && id in s'.cancelFlags
  {
  }

  lemma PollOfOther(s: State, w: nat, id: TaskId, deadline: real, other: nat, poll: PollAnswer, now: real)
    requires Flagged(s, w, id, deadline) && other != w && Enabled(s, PollStep(other, poll, now))
    ensures var s' := Apply(s, PollStep(other, poll, now));
            w < |s'.frames| && s'.frames[w] == s.frames[w] && id in s'.cancelFlags
  {
    var row, limit := s.frames[other].id, s.frames[other].deadline;
    assert Owns(s, w, id) && Owns(s, other, row);
    OwnerHasInHand(s, other, row);
    PollTurnSettles(s, other, row, limit, poll, now);
    OthersSettle(s, PollTurn(s, other, row, limit, poll, now), w, id, other, row, now);
  }

  lemma ClaimOfOther(s: State, w: nat, id: TaskId, deadline: real, step: Step)
    requires Flagged(s, w, id, deadline) && Enabled(s, step) && step.ClaimStep?
    ensures var s' := Apply(s, step);
            w < |s'.frames| && s'.frames[w] == s.frames[w] && id in s'.cancelFlags
  {
    if step.pick.Some? {
      var row := step.pick.value;
      var mid := s.(table := s.table[row := Claimed(s.table[row], step.now)]);
      assert Owns(s, w, id);
      ClaimPutsInHand(s, step.w, row, step.now);
      LaunchSettles(mid, step.w, row, step.start, step.poll, step.begun, step.end);
      var s' := Launch(mid, step.w, row, step.start, step.poll, step.begun, step.end);
      OthersSettle(mid, s', w, id, step.w, row, step.end);
    }
  }

  lemma StepKeepsFlag(s: State, w: nat, id: TaskId, deadline: real, step: Step)
    requires Flagged(s, w, id, deadline) && Enabled(s, step) && !(step.PollStep? && step.w == w)
    ensures Flagged(Apply(s, step), w, id, deadline)
  {
    StepKeepsInv(s, step);
    match step
    case PollStep(other, poll, now) => PollOfOther(s, w, id, deadline, other, poll, now);
    case ClaimStep(_, _, _, _, _, _, _) => ClaimOfOther(s, w, id, deadline, step);
    case ResumeStep(_, _, _) => ResumeKeepsFlag(s, w, id, deadline, step);
    case _ => QuietStepsKeepFlag(s, w, id, deadline, step);
  }

  lemma ResumeKeepsFlag(s: State, w: nat, id: TaskId, deadline: real, step: Step)
    requires Flagged(s, w, id, deadline) && Enabled(s, step) && step.ResumeStep?
    ensures var s' := Apply(s, step);
            w < |s'.frames| && s'.frames[w] == s.frames[w] && id in s'.cancelFlags
  {
    var row := s.frames[step.w].id;
    assert Owns(s, w, id) && Owns(s, step.w, row);
    OwnerHasInHand(s, step.w, row);
    ResumedSettles(s, step.w, row, step.outcome, step.now);
    OthersSettle(s, Resumed(s, step.w, row, step.outcome, step.now), w, id, step.w, row, step.now);
  }

  lemma QuietStepsKeepFlag(s: State, w: nat, id: TaskId, deadline: real, step: Step)
    requires Flagged(s, w, id, deadline) && Enabled(s, step)
    requires !step.PollStep? && !step.ClaimStep? && !step.ResumeStep?
    ensures var s' := Apply(s, step);
            w < |s'.frames| && s'.frames[w] == s.frames[w] && id in s'.cancelFlags
  {
  }

  /** Worker `w` takes no polling turn in these steps. */
  predicate NoTurnOf(steps: seq<Step>, w: nat) {
    forall i :: 0 <= i < |steps| ==> !(steps[i].PollStep? && steps[i].w == w)
  }

  lemma {:induction false} FlagHolds(s: State, steps: seq<Step>, w: nat, id: TaskId, deadline: real)
    requires Flagged(s, w, id, deadline) && Valid(s, steps) && NoTurnOf(steps, w)
    ensures Flagged(Exec(s, steps), w, id, deadline)
    decreases |steps|
  {
    if steps != [] {
      StepKeepsFlag(s, w, id, deadline, steps[0]);
      assert NoTurnOf(steps[1..], w) by {
        forall i | 0 <= i < |steps| - 1 ensures steps[1..][i] == steps[i + 1] {}
      }
      FlagHolds(Apply(s, steps[0]), steps[1..], w, id, deadline);
    }
  }

  lemma CancelFlags(s: State, w: nat, now: real)
    requires Inv(s) && w < |s.frames| && s.frames[w].Polling?
    ensures Flagged(CancelTask(s, s.frames[w].id, now), w, s.frames[w].id, s.frames[w].deadline)
  {
    assert Owns(s, w, s.frames[w].id);
    StepKeepsInv(s, CancelStep(s.frames[w].id, now));
  }

  /** Cancelling a RUNNING shell row: whatever the other workers, submissions, cancels and stops
      do before its worker's next turn, the row is then still RUNNING and flagged, and that turn
      ends it CANCELLED exactly if killing the shell does not raise. If it raises, the flag is
      used up and the row fails like any other attempt. */
  lemma CancelTakesEffect(s: State, w: nat, now: real, steps: seq<Step>, poll: PollAnswer, later: real)
    requires Inv(s) && w < |s.frames| && s.frames[w].Polling?
    requires Valid(CancelTask(s, s.frames[w].id, now), steps) && NoTurnOf(steps, w)
    ensures var id, m := s.frames[w].id, Exec(CancelTask(s, s.frames[w].id, now), steps);
            && id in m.table && m.table[id].state.Running? && id in m.cancelFlags
            && Enabled(m, PollStep(w, poll, later)) && m.frames[w] == s.frames[w]
            && var row, s' := m.table[id], Apply(m, PollStep(w, poll, later));
               && id in s'.table && id !in s'.cancelFlags
               && (s'.table[id].state.Cancelled? <==> poll.killRaises.None?)
               && (poll.killRaises.Some? ==> Retried(row, s'.table[id]))
  {
    var id, deadline := s.frames[w].id, s.frames[w].deadline;
    CancelFlags(s, w, now);
    FlagHolds(CancelTask(s, id, now), steps, w, id, deadline);
    FlaggedTurn(Exec(CancelTask(s, id, now), steps), w, id, deadline, poll, later);
  }

  lemma FlaggedTurn(s: State, w: nat, id: TaskId, deadline: real, poll: PollAnswer, now: real)
    requires Flagged(s, w, id, deadline)
    ensures id in s.table && s.table[id].state.Running? && Enabled(s, PollStep(w, poll, now))
    ensures var row, s' := s.table[id], Apply(s, PollStep(w, poll, now));
            && id in s'.table && id !in s'.cancelFlags
            && (s'.table[id].state.Cancelled? <==> poll.killRaises.None?)
            && (poll.killRaises.Some? ==> Retried(row, s'.table[id]))
  {
    assert Owns(s, w, id);
    PollDecides(s, w, id, deadline, poll, now);
  }
}
