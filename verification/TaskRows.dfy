/** Which rows a run can produce, what of a row never changes, and what stopping and starting the
    pool does. */
module TaskRows {
  import opened Basics
  import opened TaskService
  import opened TaskSafety
  import opened TaskRuns
  import opened TaskOutcomes

  // ---------------------------------------------------------------- the columns fit together

  /** A row that makes sense to whoever reads its status. */
  predicate Sound(row: Row) {
    && 0.0 <= row.progress <= 1.0
    && (row.startedAt.Some? <==> row.attempts > 0)
    && (row.finishedAt.Some? <==> row.state.Terminal())
    && (row.result.Some? <==> row.state.Done?)
    && (row.failureReason.Some? ==> |row.failureReason.value| <= 2000)
    && (row.state.Queued? && row.attempts == 0 ==> Untouched(row, row.createdAt))
    && (row.state.Done? ==> row.progress == 1.0 && row.failureReason == None && row.attempts > 0)
    && (row.result.Some? ==>
          if row.kind.Shell? then row.result.value.ShellResult? && row.result.value.exitCode == 0
          else row.result.value.Value?)
    && (row.state.Failed? ==> row.failureReason.Some? && row.attempts == MaxInt(0, row.policy.maxRetries) + 1)
    && (row.state.Cancelled? ==>
          row.failureReason in {Some("cancelled before start"), Some("cancelled while running")})
    && (row.state.Cancelled? && row.attempts == 0 ==> row.failureReason == Some("cancelled before start"))
  }

  ghost predicate AllSound(s: State) { forall id :: id in s.table ==> Sound(s.table[id]) }

  /** Kind, command, timeout, policy, attempts and the times of creation and start are the same. */
  predicate SameTask(row: Row, row': Row) {
    row' == row.(state := row'.state, failureReason := row'.failureReason, finishedAt := row'.finishedAt,
                 nextRetryAt := row'.nextRetryAt, result := row'.result, progress := row'.progress)
  }

  /** What the worker has in hand is sound and was claimed within its budget. */
  predicate InWork(row: Row) { Sound(row) && row.state.Running? && row.attempts >= 1 && AttemptsOk(row) }

  /** An ending with the result or the reason that the program gives. */
  predicate SoundEnding(e: Ending, kind: Kind) {
    match e
    case Ends(Done, why, result) =>
      why == None && result.Some? &&
      (if kind.Shell? then result.value.ShellResult? && result.value.exitCode == 0 else result.value.Value?)
    case Ends(Cancelled, why, result) => why == Some("cancelled while running") && result == None
    case Ends(_, _, _) => false
    case _ => true
  }

  /** Only row `id` changes, to a sound one of the same task. */
  ghost predicate OneRow(s: State, s': State, id: TaskId) {
    && id in s.table && s'.table.Keys == s.table.Keys
    && (forall o :: o in s.table && o != id ==> s'.table[o] == s.table[o])
    && Sound(s'.table[id]) && SameTask(s.table[id], s'.table[id])
  }

  lemma SettledIsSound(s: State, w: nat, id: TaskId, e: Ending, now: real)
    requires id in s.table && w < |s.frames| && InWork(s.table[id]) && SoundEnding(e, s.table[id].kind)
    ensures OneRow(s, Settle(s, w, id, e, now), id)
  {
    if e.Fails? {
      FailureRecorded(s, w, id, e.reason, now);
    }
  }

  lemma SeenIsSound(s: State, id: TaskId, poll: PollAnswer)
    requires id in s.table && InWork(s.table[id])
    ensures OneRow(s, Seen(s, id, poll), id) && InWork(Seen(s, id, poll).table[id])
  {
  }

  lemma PollIsSound(s: State, w: nat, id: TaskId, deadline: real, poll: PollAnswer, now: real)
    requires id in s.table && w < |s.frames| && InWork(s.table[id]) && s.table[id].kind.Shell?
    ensures OneRow(s, PollTurn(s, w, id, deadline, poll, now), id)
  {
    SeenIsSound(s, id, poll);
    SettledIsSound(Seen(s, id, poll), w, id, PollEnding(id in s.cancelFlags, id, deadline, poll, now), now);
  }

  lemma LaunchIsSound(s: State, w: nat, id: TaskId, start: StartAnswer, poll: PollAnswer, begun: real, now: real)
    requires id in s.table && w < |s.frames| && InWork(s.table[id])
    ensures OneRow(s, Launch(s, w, id, start, poll, begun, now), id)
  {
    SeenIsSound(s, id, poll);
    SettledIsSound(Launched(s, id, start, poll), w, id, LaunchEnding(s, id, start, poll, begun, now), now);
  }

  lemma ClaimIsSound(s: State, step: Step)
    requires Inv(s) && AllSound(s) && Enabled(s, step) && step.ClaimStep? && step.pick.Some?
    ensures var id, s' := step.pick.value, Apply(s, step);
            var mid := s.(table := s.table[id := Claimed(s.table[id], step.now)]);
            OneRow(mid, s', id)
  {
    var id := step.pick.value;
    var mid := s.(table := s.table[id := Claimed(s.table[id], step.now)]);
    assert InWork(mid.table[id]);
    LaunchIsSound(mid, step.w, id, step.start, step.poll, step.begun, step.end);
  }

  lemma OwnerInWork(s: State, w: nat, id: TaskId)
    requires Inv(s) && AllSound(s) && Owns(s, w, id)
    ensures InWork(s.table[id]) && (s.table[id].kind.Shell? <==> s.frames[w].Polling?)
  {
  }

  lemma WorkIsSound(s: State, step: Step)
    requires Inv(s) && AllSound(s) && Enabled(s, step) && (step.PollStep? || step.ResumeStep? || step.ProgressStep?)
    ensures OneRow(s, Apply(s, step), s.frames[step.w].id)
  {
    var id := s.frames[step.w].id;
    assert Owns(s, step.w, id);
    OwnerInWork(s, step.w, id);
    if step.PollStep? {
      PollIsSound(s, step.w, id, s.frames[step.w].deadline, step.poll, step.now);
    } else if step.ResumeStep? {
      SettledIsSound(s.(running := s.running - {id}), step.w, id, ResumeEnding(step.outcome), step.now);
    }
  }

  /** How one step may change the columns of a row, besides its state. */
  ghost predicate ColumnsKept(s: State, s': State, step: Step) {
    forall id :: id in s.table ==>
      id in s'.table &&
      SameTask(if Claims(step, id) then Claimed(s.table[id], step.now) else s.table[id], s'.table[id])
  }

  /** A step that leaves one row sound and the same task, after a claim of it, and the others alone. */
  lemma OneRowKeeps(s: State, mid: State, s': State, step: Step, id: TaskId)
    requires AllSound(s) && id in s.table && OneRow(mid, s', id)
    requires mid.table == s.table[id := if Claims(step, id) then Claimed(s.table[id], step.now) else s.table[id]]
    requires forall o :: o != id ==> !Claims(step, o)
    ensures AllSound(s') && ColumnsKept(s, s', step)
  {
  }

  lemma SameTableKeeps(s: State, s': State, step: Step)
    requires AllSound(s) && s'.table == s.table && (step.ClaimStep? ==> step.pick.None?)
    ensures AllSound(s') && ColumnsKept(s, s', step)
  {
  }

  lemma WorkKeeps(s: State, step: Step)
    requires Inv(s) && AllSound(s) && Enabled(s, step) && (step.PollStep? || step.ResumeStep? || step.ProgressStep?)
    ensures AllSound(Apply(s, step)) && ColumnsKept(s, Apply(s, step), step)
  {
    WorkIsSound(s, step);
    OneRowKeeps(s, s, Apply(s, step), step, s.frames[step.w].id);
  }

  lemma ClaimKeeps(s: State, step: Step)
    requires Inv(s) && AllSound(s) && Enabled(s, step) && step.ClaimStep? && step.pick.Some?
    ensures AllSound(Apply(s, step)) && ColumnsKept(s, Apply(s, step), step)
  {
    ClaimIsSound(s, step);
    var id := step.pick.value;
    var mid := s.(table := s.table[id := Claimed(s.table[id], step.now)]);
    OneRowKeeps(s, mid, Apply(s, step), step, id);
  }

  lemma NewRowKeeps(s: State, step: Step)
    requires AllSound(s) && Enabled(s, step) && (step.SubmitShellStep? || step.SubmitAsyncStep?)
    ensures AllSound(Apply(s, step)) && ColumnsKept(s, Apply(s, step), step)
  {
    SubmitAddsARow(s, step);
  }

  lemma CancelKeeps(s: State, id: TaskId, now: real)
    requires AllSound(s)
    ensures AllSound(CancelTask(s, id, now)) && ColumnsKept(s, CancelTask(s, id, now), CancelStep(id, now))
  {
    if id in s.table && s.table[id].state.Queued? {
      CancelledIsSound(s, id, now);
      OneRowKeeps(s, s, CancelTask(s, id, now), CancelStep(id, now), id);
    } else {
      SameTableKeeps(s, CancelTask(s, id, now), CancelStep(id, now));
    }
  }

  lemma CancelledIsSound(s: State, id: TaskId, now: real)
    requires id in s.table && s.table[id].state.Queued? && Sound(s.table[id])
    ensures OneRow(s, CancelTask(s, id, now), id)
  {
  }

  /** Every step keeps all rows sound, and of a row that exists it only ever changes what describes its
      attempts: a claim counts one and stamps the first start. */
  lemma StepKeepsSound(s: State, step: Step)
    requires Inv(s) && AllSound(s) && Enabled(s, step)
    ensures AllSound(Apply(s, step)) && ColumnsKept(s, Apply(s, step), step)
  {
    if step.PollStep? || step.ResumeStep? || step.ProgressStep? {
      WorkKeeps(s, step);
    } else if step.ClaimStep? && step.pick.Some? {
      ClaimKeeps(s, step);
    } else if step.SubmitShellStep? || step.SubmitAsyncStep? {
      NewRowKeeps(s, step);
    } else if step.CancelStep? {
      CancelKeeps(s, step.id, step.now);
    } else {
      SameTableKeeps(s, Apply(s, step), step);
    }
  }

  lemma {:induction false} RunKeepsSound(s: State, steps: seq<Step>)
    requires Inv(s) && AllSound(s) && Valid(s, steps)
    ensures AllSound(Exec(s, steps))
    decreases |steps|
  {
    if steps != [] {
      StepKeepsInv(s, steps[0]);
      StepKeepsSound(s, steps[0]);
      RunKeepsSound(Apply(s, steps[0]), steps[1..]);
    }
  }

  /** In every run every row makes sense: progress lies within 0 and 1; a start time is there exactly if
      the row was claimed, an end time exactly if it is terminal, a result exactly if it is DONE; a FAILED
      row has used all its attempts; stored reasons have at most 2000 characters. */
  lemma RowsMakeSense(steps: seq<Step>, id: TaskId)
    requires Valid(FRESH, steps) && id in Exec(FRESH, steps).table
    ensures Sound(Exec(FRESH, steps).table[id])
  {
    FreshInv();
    RunKeepsSound(FRESH, steps);
  }

  /** A row is the same task from its submission on: kind, command, timeout, policy and creation time
      never change, and its start time is that of its first claim. */
  lemma {:induction false} TasksKeepTheirColumns(s: State, steps: seq<Step>, id: TaskId)
    requires Inv(s) && AllSound(s) && Valid(s, steps) && id in s.table
    ensures var row, s' := s.table[id], Exec(s, steps);
            && id in s'.table
            && var row' := s'.table[id];
               && row'.kind == row.kind && row'.command == row.command && row'.timeout == row.timeout
               && row'.policy == row.policy && row'.createdAt == row.createdAt
               && (row.startedAt.Some? ==> row'.startedAt == row.startedAt)
    decreases |steps|
  {
    if steps != [] {
      StepKeepsInv(s, steps[0]);
      StepKeepsSound(s, steps[0]);
      TasksKeepTheirColumns(Apply(s, steps[0]), steps[1..], id);
    }
  }

  /** A claim makes the row RUNNING with no progress and counts the attempt; the start time is stamped if
      there is none. The rest of the step is the launch. */
  lemma ClaimDecides(s: State, step: Step, id: TaskId)
    requires Enabled(s, step) && Claims(step, id)
    ensures var row := s.table[id];
            var claimed := Row(row.kind, row.command, row.timeout, row.policy, Running, 0.0, row.attempts + 1,
                               row.nextRetryAt, row.failureReason, row.result, row.createdAt,
                               Some(if row.startedAt.Some? then row.startedAt.value else step.now), row.finishedAt);
            Apply(s, step) ==
            Launch(s.(table := s.table[id := claimed]), step.w, id, step.start, step.poll, step.begun, step.end)
  {
  }

  /** The start time is stamped by the first claim. */
  lemma FirstClaimStampsStart(s: State, step: Step, id: TaskId)
    requires Inv(s) && AllSound(s) && Enabled(s, step) && Claims(step, id)
    ensures id in Apply(s, step).table
    ensures var row, row' := s.table[id], Apply(s, step).table[id];
            && row'.attempts == row.attempts + 1
            && row'.startedAt == if row.attempts == 0 then Some(step.now) else row.startedAt
  {
    StepKeepsSound(s, step);
  }

  // ---------------------------------------------------------------- the pool

  predicate NoStart(steps: seq<Step>) { forall i :: 0 <= i < |steps| ==> !steps[i].StartStep? }

  /** After a stop no worker claims anything, and every coroutine in flight has been asked to stop. */
  lemma {:induction false} StoppedStays(s: State, steps: seq<Step>)
    requires s.stopped && Valid(s, steps) && NoStart(steps)
    ensures Exec(s, steps).stopped
    ensures forall i :: 0 <= i < |steps| ==> !steps[i].ClaimStep?
    decreases |steps|
  {
    if steps != [] {
      assert !steps[0].StartStep?;
      StoppedStep(s, steps[0]);
      assert NoStart(steps[1..]) by {
        forall i | 0 <= i < |steps| - 1 ensures steps[1..][i] == steps[i + 1] {}
      }
      StoppedStays(Apply(s, steps[0]), steps[1..]);
      forall i | 0 <= i < |steps| ensures !steps[i].ClaimStep? {
        if i > 0 { assert steps[i] == steps[1..][i - 1]; }
      }
    }
  }

  /** The pool: whether it is stopped, its list of handles, and how many workers there ever were. */
  predicate SamePool(s: State, s': State) {
    s'.stopped == s.stopped && s'.started == s.started && |s'.frames| == |s.frames|
  }

  lemma SettleKeepsPool(s: State, w: nat, id: TaskId, e: Ending, now: real)
    requires id in s.table && w < |s.frames|
    ensures SamePool(s, Settle(s, w, id, e, now))
  {
  }

  lemma LaunchKeepsPool(s: State, w: nat, id: TaskId, start: StartAnswer, poll: PollAnswer, begun: real, now: real)
    requires id in s.table && w < |s.frames|
    ensures SamePool(s, Launch(s, w, id, start, poll, begun, now))
  {
    SettleKeepsPool(Launched(s, id, start, poll), w, id, LaunchEnding(s, id, start, poll, begun, now), now);
  }

  lemma StepKeepsPool(s: State, step: Step)
    requires Enabled(s, step) && !step.StartStep? && !step.StopStep?
    ensures SamePool(s, Apply(s, step))
  {
    match step
    case PollStep(w, poll, now) =>
      var id := s.frames[w].id;
      var e := PollEnding(id in s.cancelFlags, id, s.frames[w].deadline, poll, now);
      SettleKeepsPool(Seen(s, id, poll), w, id, e, now);
    case ResumeStep(w, outcome, now) =>
      var id := s.frames[w].id;
      SettleKeepsPool(s.(running := s.running - {id}), w, id, ResumeEnding(outcome), now);
    case ClaimStep(w, pick, now, begun, end, start, poll) =>
      if pick.Some? {
        var mid := s.(table := s.table[pick.value := Claimed(s.table[pick.value], now)]);
        LaunchKeepsPool(mid, w, pick.value, start, poll, begun, end);
      }
    case _ =>
  }

  lemma StoppedStep(s: State, step: Step)
    requires s.stopped && Enabled(s, step) && !step.StartStep?
    ensures Apply(s, step).stopped && !step.ClaimStep?
  {
    if !step.StopStep? { StepKeepsPool(s, step); }
  }

  lemma StopStopsClaims(s: State, now: real, steps: seq<Step>)
    requires Valid(Apply(s, StopStep(now)), steps) && NoStart(steps)
    ensures forall i :: 0 <= i < |steps| ==> !steps[i].ClaimStep?
    ensures var s' := Apply(s, StopStep(now));
            && s'.running.Keys == s.running.Keys && (forall id :: id in s.running ==> s'.running[id])
            && s'.table == s.table && s'.frames == s.frames && s'.factories == s.factories
            && s'.cancelFlags == s.cancelFlags
  {
    StoppedStays(Apply(s, StopStep(now)), steps);
  }

  /** Starting again after a stop adds a whole new pool, and claims are possible again. */
  lemma RestartAddsWorkers(s: State, now: real, workers: nat, later: real)
    requires workers >= 1
    ensures var s' := Apply(Apply(s, StopStep(now)), StartStep(workers, later));
            && !s'.stopped && |s'.frames| == |s.frames| + workers && s.frames <= s'.frames
            && forall w :: |s.frames| <= w < |s'.frames| ==> s'.frames[w] == Idle
  {
  }

  /** A worker that has left its loop never comes back. */
  lemma {:induction false} GoneWorkersStayGone(s: State, steps: seq<Step>, w: nat)
    requires Valid(s, steps) && w < |s.frames| && s.frames[w].Exited?
    ensures w < |Exec(s, steps).frames| && Exec(s, steps).frames[w].Exited?
    decreases |steps|
  {
    if steps != [] {
      GoneWorkerStep(s, steps[0], w);
      GoneWorkersStayGone(Apply(s, steps[0]), steps[1..], w);
    }
  }

  lemma SettleMovesOne(s: State, w: nat, id: TaskId, e: Ending, now: real, v: nat)
    requires id in s.table && w < |s.frames| && v < |s.frames| && v != w
    ensures |Settle(s, w, id, e, now).frames| == |s.frames| && Settle(s, w, id, e, now).frames[v] == s.frames[v]
  {
  }

  lemma GoneWorkerStep(s: State, step: Step, v: nat)
    requires Enabled(s, step) && v < |s.frames| && s.frames[v].Exited?
    ensures v < |Apply(s, step).frames| && Apply(s, step).frames[v].Exited?
  {
    match step
    case PollStep(w, poll, now) =>
      var id := s.frames[w].id;
      var e := PollEnding(id in s.cancelFlags, id, s.frames[w].deadline, poll, now);
      SettleMovesOne(Seen(s, id, poll), w, id, e, now, v);
    case ResumeStep(w, outcome, now) =>
      var id := s.frames[w].id;
      SettleMovesOne(s.(running := s.running - {id}), w, id, ResumeEnding(outcome), now, v);
    case ClaimStep(w, pick, now, begun, end, start, poll) =>
      if pick.Some? {
        var id := pick.value;
        var mid := s.(table := s.table[id := Claimed(s.table[id], now)]);
        SettleMovesOne(Launched(mid, id, start, poll), w, id, LaunchEnding(mid, id, start, poll, begun, end), end, v);
      }
    case _ =>
  }

  /** Leaving the loop is for good, and only after a stop. */
  lemma LeavingIsForGood(s: State, w: nat, now: real, steps: seq<Step>)
    requires Enabled(s, ExitStep(w, now)) && Valid(Apply(s, ExitStep(w, now)), steps)
    ensures s.stopped && w < |Exec(Apply(s, ExitStep(w, now)), steps).frames|
    ensures Exec(Apply(s, ExitStep(w, now)), steps).frames[w].Exited?
  {
    GoneWorkersStayGone(Apply(s, ExitStep(w, now)), steps, w);
  }

  /** Until the pool is stopped it has exactly the workers of its first start, however often it is
      started. */
  lemma {:induction false} OnePool(s: State, steps: seq<Step>, workers: nat)
    requires Valid(s, steps) && (s.started == 0 ==> s.frames == []) && (s.started > 0 ==> |s.frames| == workers)
    requires forall i :: 0 <= i < |steps| ==> !steps[i].StopStep?
    requires forall i :: 0 <= i < |steps| && steps[i].StartStep? ==> steps[i].workers == workers
    ensures var s' := Exec(s, steps);
            |s'.frames| == if s.started > 0 || (exists i :: 0 <= i < |steps| && steps[i].StartStep?) then workers else 0
    decreases |steps|
  {
    if steps != [] {
      var s' := Apply(s, steps[0]);
      assert !steps[0].StopStep?;
      PoolStep(s, steps[0]);
      forall i | 0 <= i < |steps| - 1 ensures steps[1..][i] == steps[i + 1] {}
      OnePool(s', steps[1..], workers);
      if i :| 0 <= i < |steps| && steps[i].StartStep? {
        assert i > 0 ==> steps[1..][i - 1].StartStep?;
      }
    }
  }

  lemma PoolStep(s: State, step: Step)
    requires Enabled(s, step) && !step.StopStep?
    ensures var s' := Apply(s, step);
            if step.StartStep? && s.started == 0 then
              s' == s.(stopped := false, started := step.workers, frames := s'.frames) &&
              |s'.frames| == |s.frames| + step.workers && s.frames <= s'.frames &&
              forall w :: |s.frames| <= w < |s'.frames| ==> s'.frames[w] == Idle
            else s'.started == s.started && |s'.frames| == |s.frames|
  {
    if !step.StartStep? { StepKeepsPool(s, step); }
  }
}
