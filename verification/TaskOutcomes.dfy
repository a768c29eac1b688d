/** What becomes of a task, column by column: what a submission stores, what each way to end a turn
    records, what a cancellation brings about, and which rows no run can ever produce. */
module TaskOutcomes {
  import opened Basics
  import opened TaskService
  import opened TaskSafety
  import opened TaskRuns
  import opened TaskCancels

  // ---------------------------------------------------------------- submissions

  /** A row nobody has touched yet. */
  predicate Untouched(row: Row, now: real) {
    && row.state.Queued? && row.attempts == 0 && row.progress == 0.0
    && row.createdAt == now && row.nextRetryAt == now
    && row.startedAt == None && row.finishedAt == None && row.failureReason == None && row.result == None
  }

  /** A submission adds one untouched row with what was asked for, and changes nothing else; a shell
      task is refused exactly for a blank command or a timeout that is not positive. */
  lemma SubmitAddsARow(s: State, step: Step)
    requires Enabled(s, step) && (step.SubmitShellStep? || step.SubmitAsyncStep?)
    ensures var s' := Apply(s, step);
            if step.SubmitShellStep? && (step.timeout <= 0.0 || Blank(step.command)) then s' == s
            else
              && s'.table.Keys == s.table.Keys + {step.id}
              && (forall o :: o in s.table ==> s'.table[o] == s.table[o])
              && var row := s'.table[step.id];
                 && Untouched(row, step.now) && row.policy == step.policy
                 && row.kind == (if step.SubmitShellStep? then Shell else Async)
                 && (step.SubmitShellStep? ==> row.command == step.command && row.timeout == step.timeout)
                 && s'.factories == (if step.SubmitAsyncStep? then s.factories + {step.id} else s.factories)
                 && s' == s.(table := s'.table, factories := s'.factories)
  {
  }

  /** A command is refused as blank exactly if it has no character other than these: tab to carriage
      return, the information separators, the space and the other spaces of Unicode. */
  lemma BlankExactly(command: string)
    ensures Blank(command) <==>
              forall i :: 0 <= i < |command| ==>
                var c := command[i] as int;
                || c in {9, 10, 11, 12, 13, 28, 29, 30, 31, 32}
                || c in {0x85, 0xA0, 0x1680, 0x2028, 0x2029, 0x202F, 0x205F, 0x3000}
                || c in {0x2000, 0x2001, 0x2002, 0x2003, 0x2004, 0x2005, 0x2006, 0x2007, 0x2008, 0x2009, 0x200A}
  {
  }

  // ---------------------------------------------------------------- how an attempt ends

  /** The row after an attempt that failed for `reason`: tried again, failed for good, or, if that cannot
      be recorded, as it was. The reason is stored up to 2000 characters. */
  predicate Failure(row: Row, row': Row, reason: string, now: real) {
    && Retried(row, row')
    && row'.progress == row.progress && row'.attempts == row.attempts
    && (row'.state.Running? ==> row' == row)
    && (!row'.state.Running? ==>
          row'.failureReason == Some(if |reason| > 2000 then reason[..2000] else reason))
    && (row'.state.Queued? ==> row'.finishedAt == row.finishedAt && row'.result == row.result)
    && (row'.state.Failed? ==> row'.finishedAt == Some(now) && row'.result == None)
  }

  /** The row after an attempt that succeeded. */
  predicate Success(row': Row, result: TaskResult, now: real) {
    && row'.state.Done? && row'.result == Some(result) && row'.failureReason == None
    && row'.progress == 1.0 && row'.finishedAt == Some(now)
  }

  predicate CancelledRunning(row: Row, row': Row, now: real) {
    && row'.state.Cancelled? && row'.failureReason == Some("cancelled while running")
    && row'.result == None && row'.finishedAt == Some(now) && row'.progress == row.progress
  }

  lemma FailureRecorded(s: State, w: nat, id: TaskId, reason: string, now: real)
    requires id in s.table && s.table[id].state.Running? && w < |s.frames|
    ensures var s' := FailAttempt(s, w, id, reason, now);
            && id in s'.table && Failure(s.table[id], s'.table[id], reason, now)
            && s'.frames[w] == if Unrecordable(s.table[id]) then Exited else Idle
  {
    FailedAttempt(s, w, id, reason, now);
  }

  /** The end of a coroutine: its value is the result; a cancellation ends the row; an exception is a
      failed attempt. It is no longer among the running coroutines. */
  lemma ResumeDecides(s: State, w: nat, id: TaskId, outcome: Outcome, now: real)
    requires id in s.table && s.table[id].state.Running? && w < |s.frames|
    ensures var s' := Resumed(s, w, id, outcome, now);
            && id in s'.table && id !in s'.running
            && s'.frames[w] == (if s'.table[id].state.Running? then Exited else Idle)
            && (match outcome
                case Returned(text) => Success(s'.table[id], Value(text), now)
                case WasCancelled => CancelledRunning(s.table[id], s'.table[id], now)
                case Raised(message) => Failure(s.table[id], s'.table[id], message, now))
  {
    if outcome.Raised? { FailureRecorded(s.(running := s.running - {id}), w, id, outcome.message, now); }
  }

  /** The progress that a turn stores before it decides: what the output reports, kept within 0 and 1. */
  predicate Reports(row: Row, seen: Row, flagged: bool, poll: PollAnswer) {
    && seen == row.(progress := seen.progress)
    && (flagged || poll.output.OutputRaised? || poll.output.progress.None? ==> seen == row)
    && (!flagged && poll.output.Output? && poll.output.progress.Some? ==>
          var p := poll.output.progress.value;
          seen.progress == if p < 0.0 then 0.0 else if p > 1.0 then 1.0 else p)
  }

  /** What a turn of the polling loop records, by the answers it gets, with the reason or the result. */
  predicate TurnRecords(seen: Row, row': Row, flagged: bool, poll: PollAnswer, deadline: real, now: real) {
    if flagged then
      match poll.killRaises
      case Some(m) => Failure(seen, row', "worker internal error: " + m, now)
      case None => CancelledRunning(seen, row', now)
    else
      match poll.output
      case OutputRaised(m) => Failure(seen, row', "worker internal error: " + m, now)
      case Output(alive, exitCode, text, _, detail) =>
        if !alive && exitCode == Some(0) then Success(row', ShellResult(0, text), now)
        else if !alive then Failure(seen, row', detail, now)
        else if now <= deadline then row' == seen
        else match poll.killRaises
             case Some(m) => Failure(seen, row', "worker internal error: " + m, now)
             case None => Failure(seen, row', "timeout", now)
  }

  ghost predicate TurnDecides(row: Row, row': Row, flagged: bool, poll: PollAnswer, deadline: real, now: real) {
    exists seen :: Reports(row, seen, flagged, poll) && TurnRecords(seen, row', flagged, poll, deadline, now)
  }

  /** The turn ends in another wait: no flag, a running command, and time left. */
  predicate StillWaits(flagged: bool, poll: PollAnswer, deadline: real, now: real) {
    !flagged && poll.output.Output? && poll.output.alive && now <= deadline
  }

  lemma PollRecords(s: State, w: nat, id: TaskId, deadline: real, poll: PollAnswer, now: real)
    requires id in s.table && s.table[id].state.Running? && w < |s.frames|
    ensures var s' := PollTurn(s, w, id, deadline, poll, now);
            && id in s'.table && TurnDecides(s.table[id], s'.table[id], id in s.cancelFlags, poll, deadline, now)
            && s'.cancelFlags == s.cancelFlags - {id}
            && s'.frames[w] == (if !s'.table[id].state.Running? then Idle
                                else if StillWaits(id in s.cancelFlags, poll, deadline, now) then Polling(id, deadline)
                                else Exited)
  {
    var seen := Seen(s, id, poll);
    assert Reports(s.table[id], seen.table[id], id in s.cancelFlags, poll);
    var e := PollEnding(id in s.cancelFlags, id, deadline, poll, now);
    if e.Fails? { FailureRecorded(seen, w, id, e.reason, now); }
    assert TurnRecords(seen.table[id], PollTurn(s, w, id, deadline, poll, now).table[id],
                       id in s.cancelFlags, poll, deadline, now);
  }

  /** A coroutine that reports progress changes that column of its row, within 0 and 1, and nothing else. */
  lemma ProgressReported(s: State, w: nat, p: real, now: real)
    requires Inv(s) && Enabled(s, ProgressStep(w, p, now))
    ensures var id, s' := s.frames[w].id, Apply(s, ProgressStep(w, p, now));
            && id in s.table
            && s' == s.(table := s.table[id := s.table[id].(
                          progress := if p < 0.0 then 0.0 else if p > 1.0 then 1.0 else p)])
  {
    assert Owns(s, w, s.frames[w].id);
  }

  /** The first stretch of a claimed task. A shell task that starts has its first polling turn at once,
      with a deadline that runs from before it: 600 seconds if the row has none of its own. */
  lemma LaunchDecides(s: State, w: nat, id: TaskId, start: StartAnswer, poll: PollAnswer, begun: real, now: real)
    requires id in s.table && s.table[id].state.Running? && w < |s.frames|
    ensures var row, s' := s.table[id], Launch(s, w, id, start, poll, begun, now);
            && id in s'.table
            && (if row.kind.Async? && id !in s.factories then
                  Failure(row, s'.table[id], "async factory lost (process restart)", now)
                else if start.LaunchRaised? then
                  Failure(row, s'.table[id], "worker internal error: " + start.message, now)
                else if row.kind.Shell? && start.Refused? then
                  Failure(row, s'.table[id], "blocked: " + start.reason, now)
                else if row.kind.Shell? then
                  s' == PollTurn(s, w, id, begun + (if row.timeout == 0.0 then 600.0 else row.timeout), poll, now)
                else
                  s' == s.(running := s.running[id := false], frames := s.frames[w := Awaiting(id)]))
  {
    var e := LaunchEnding(s, id, start, poll, begun, now);
    if StartFailure(s.table[id].kind, id in s.factories, start).Some? {
      FailureRecorded(s, w, id, e.reason, now);
    }
  }

  // ---------------------------------------------------------------- cancelling before the start

  lemma {:induction false} NeverClaimed(s: State, steps: seq<Step>, id: TaskId)
    requires Inv(s) && Valid(s, steps) && id in s.table && s.table[id].state.Terminal()
    ensures forall i :: 0 <= i < |steps| ==> !Claims(steps[i], id)
    decreases |steps|
  {
    if steps != [] {
      StepOnRows(s, steps[0]);
      StepKeepsInv(s, steps[0]);
      assert RowEvolves(s.table[id], Apply(s, steps[0]).table[id], steps[0], id);
      NeverClaimed(Apply(s, steps[0]), steps[1..], id);
      forall i | 0 <= i < |steps| ensures !Claims(steps[i], id) {
        if i > 0 { assert steps[i] == steps[1..][i - 1]; }
      }
    }
  }

  /** Cancelling a QUEUED row ends it: in every continuation it is CANCELLED as of then, its factory is
      gone, and no worker ever claims it. No other row is touched. */
  lemma CancelBeforeStart(s: State, id: TaskId, now: real, steps: seq<Step>)
    requires Inv(s) && id in s.table && s.table[id].state.Queued?
    requires Valid(Apply(s, CancelStep(id, now)), steps)
    ensures var c := Apply(s, CancelStep(id, now));
            && c.table.Keys == s.table.Keys && (forall o :: o in s.table && o != id ==> c.table[o] == s.table[o])
            && c.factories == s.factories - {id}
    ensures var m := Exec(Apply(s, CancelStep(id, now)), steps);
            && id in m.table && id !in m.factories
            && m.table[id] == s.table[id].(state := Cancelled, finishedAt := Some(now),
                                           failureReason := Some("cancelled before start"))
    ensures forall i :: 0 <= i < |steps| ==> !Claims(steps[i], id)
  {
    var c := Apply(s, CancelStep(id, now));
    StepKeepsInv(s, CancelStep(id, now));
    TerminalRowsAreFrozen(c, steps, id);
    NeverClaimed(c, steps, id);
    RunKeepsInv(c, steps);
    assert FactoriesOk(Exec(c, steps));
  }

  // ---------------------------------------------------------------- cancelling a coroutine

  /** Worker `w` awaits the coroutine of row `id`, whose cancellation was requested. */
  ghost predicate AskedToStop(s: State, w: nat, id: TaskId) {
    Inv(s) && w < |s.frames| && s.frames[w] == Awaiting(id) && id in s.running && s.running[id]
  }

  lemma SettleKeepsRunning(s: State, w: nat, id: TaskId, e: Ending, now: real)
    requires id in s.table && w < |s.frames|
    ensures Settle(s, w, id, e, now).running == s.running
  {
  }

  lemma PollKeepsRunning(s: State, w: nat, id: TaskId, deadline: real, poll: PollAnswer, now: real)
    requires id in s.table && w < |s.frames|
    ensures PollTurn(s, w, id, deadline, poll, now).running == s.running
  {
    var e := PollEnding(id in s.cancelFlags, id, deadline, poll, now);
    SettleKeepsRunning(Seen(s, id, poll), w, id, e, now);
  }

  lemma LaunchRunning(s: State, w: nat, id: TaskId, start: StartAnswer, poll: PollAnswer, begun: real, now: real)
    requires id in s.table && w < |s.frames|
    ensures var running := Launch(s, w, id, start, poll, begun, now).running;
            running == s.running || running == s.running[id := false]
  {
    SettleKeepsRunning(Launched(s, id, start, poll), w, id, LaunchEnding(s, id, start, poll, begun, now), now);
  }

  lemma ResumeRunning(s: State, w: nat, id: TaskId, outcome: Outcome, now: real)
    requires id in s.table && w < |s.frames|
    ensures Resumed(s, w, id, outcome, now).running == s.running - {id}
  {
  }

  /** Another worker's stretch leaves frame and request alone. */
  lemma WorkersKeepRequest(s: State, w: nat, id: TaskId, step: Step)
    requires AskedToStop(s, w, id) && Enabled(s, step) && (step.PollStep? || step.ResumeStep?) && step.w != w
    ensures var s' := Apply(s, step);
            w < |s'.frames| && s'.frames[w] == s.frames[w] && id in s'.running && s'.running[id]
  {
    var other := s.frames[step.w].id;
    assert Owns(s, w, id) && Owns(s, step.w, other);
    OwnerHasInHand(s, step.w, other);
    if step.PollStep? {
      PollTurnSettles(s, step.w, other, s.frames[step.w].deadline, step.poll, step.now);
      PollKeepsRunning(s, step.w, other, s.frames[step.w].deadline, step.poll, step.now);
    } else {
      ResumedSettles(s, step.w, other, step.outcome, step.now);
      ResumeRunning(s, step.w, other, step.outcome, step.now);
    }
  }

  lemma ClaimKeepsRequest(s: State, w: nat, id: TaskId, step: Step)
    requires AskedToStop(s, w, id) && Enabled(s, step) && step.ClaimStep? && step.pick.Some?
    ensures var s' := Apply(s, step);
            w < |s'.frames| && s'.frames[w] == s.frames[w] && id in s'.running && s'.running[id]
  {
    var other := step.pick.value;
    assert Owns(s, w, id);
    var mid := s.(table := s.table[other := Claimed(s.table[other], step.now)]);
    ClaimPutsInHand(s, step.w, other, step.now);
    LaunchSettles(mid, step.w, other, step.start, step.poll, step.begun, step.end);
    LaunchRunning(mid, step.w, other, step.start, step.poll, step.begun, step.end);
  }

  lemma QuietStepsKeepRequest(s: State, w: nat, id: TaskId, step: Step)
    requires AskedToStop(s, w, id) && Enabled(s, step) && !step.PollStep? && !step.ResumeStep?
    requires !step.ClaimStep? || step.pick.None?
    ensures var s' := Apply(s, step);
            w < |s'.frames| && s'.frames[w] == s.frames[w] && id in s'.running && s'.running[id]
  {
  }

  /** Worker `w` is not resumed in these steps. */
  predicate NoResumeOf(steps: seq<Step>, w: nat) {
    forall i :: 0 <= i < |steps| ==> !(steps[i].ResumeStep? && steps[i].w == w)
  }

  lemma {:induction false} RequestHolds(s: State, steps: seq<Step>, w: nat, id: TaskId)
    requires AskedToStop(s, w, id) && Valid(s, steps) && NoResumeOf(steps, w)
    ensures AskedToStop(Exec(s, steps), w, id)
    decreases |steps|
  {
    if steps != [] {
      var step := steps[0];
      StepKeepsInv(s, step);
      if step.PollStep? || step.ResumeStep? {
        WorkersKeepRequest(s, w, id, step);
      } else if step.ClaimStep? && step.pick.Some? {
        ClaimKeepsRequest(s, w, id, step);
      } else {
        QuietStepsKeepRequest(s, w, id, step);
      }
      assert NoResumeOf(steps[1..], w) by {
        forall i | 0 <= i < |steps| - 1 ensures steps[1..][i] == steps[i + 1] {}
      }
      RequestHolds(Apply(s, step), steps[1..], w, id);
    }
  }

  /** Cancelling the row of an awaited coroutine: the request stands until the coroutine ends, whatever
      happens meanwhile, and the row stays RUNNING; the coroutine decides how the row then ends. */
  lemma CancelOfCoroutineHolds(s: State, w: nat, now: real, steps: seq<Step>, outcome: Outcome, later: real)
    requires Inv(s) && w < |s.frames| && s.frames[w].Awaiting?
    requires Valid(Apply(s, CancelStep(s.frames[w].id, now)), steps) && NoResumeOf(steps, w)
    ensures var id, m := s.frames[w].id, Exec(Apply(s, CancelStep(s.frames[w].id, now)), steps);
            && id in m.running && m.running[id] && w < |m.frames| && m.frames[w] == s.frames[w]
            && id in m.table && m.table[id].state.Running? && Enabled(m, ResumeStep(w, outcome, later))
            && var row' := Apply(m, ResumeStep(w, outcome, later)).table[id];
               && (row'.state.Cancelled? <==> outcome.WasCancelled?)
               && (row'.state.Done? <==> outcome.Returned?)
  {
    var id := s.frames[w].id;
    assert Owns(s, w, id);
    StepKeepsInv(s, CancelStep(id, now));
    RequestHolds(Apply(s, CancelStep(id, now)), steps, w, id);
    var m := Exec(Apply(s, CancelStep(id, now)), steps);
    assert Owns(m, w, id);
    ResumeDecides(m, w, id, outcome, later);
  }
}
