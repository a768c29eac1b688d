/** What every run of the batch-task service keeps: ownership, frozen terminal rows,
    factories, cancel flags and the bound on attempts. */
module TaskSafety {
  import opened Basics
  import opened TaskService

  predicate Owns(s: State, w: int, id: TaskId) {
    0 <= w < |s.frames| && s.frames[w].Owns(id)
  }

  /** Workers own different rows, each RUNNING and of the kind its frame waits for. */
  ghost predicate OwnersOk(s: State) {
    && (forall w, id :: Owns(s, w, id) ==>
          id in s.table && s.table[id].state.Running? && id !in s.orphans &&
          (s.table[id].kind.Shell? <==> s.frames[w].Polling?))
    && (forall v, w, id :: Owns(s, v, id) && Owns(s, w, id) ==> v == w)
  }

  ghost predicate Owned(s: State, id: TaskId) { exists w :: Owns(s, w, id) }

  ghost predicate RunningOwned(s: State) {
    && (forall id :: id in s.table && s.table[id].state.Running? && id !in s.orphans ==> Owned(s, id))
    && (forall id :: id in s.orphans ==> id in s.table && s.table[id].state.Running? && Unrecordable(s.table[id]))
  }

  ghost predicate FlagsOk(s: State) {
    forall id :: id in s.cancelFlags ==> id in s.table && s.table[id].state.Running? && s.table[id].kind.Shell?
  }

  ghost predicate RunningMapOk(s: State) {
    forall id :: id in s.running <==>
      id in s.table && s.table[id].state.Running? && s.table[id].kind.Async? && id !in s.orphans
  }

  ghost predicate FactoriesOk(s: State) {
    forall id :: id in s.factories <==> id in s.table && s.table[id].kind.Async? && !s.table[id].state.Terminal()
  }

  predicate AttemptsOk(row: Row) {
    && row.attempts <= row.policy.Budget()
    && (row.state.Queued? ==> row.attempts < row.policy.Budget())
    && (row.state.Running? ==> row.attempts >= 1)
  }

  ghost predicate RowsOk(s: State) {
    forall id :: id in s.table ==> AttemptsOk(s.table[id])
  }

  ghost predicate Inv(s: State) {
    OwnersOk(s) && RunningOwned(s) && FlagsOk(s) && RunningMapOk(s) && FactoriesOk(s) && RowsOk(s)
  }

  /** The state while worker `w` is awake with row `id` in its hands: its own frame is stale,
      and it is the only worker that may touch the row. */
  ghost predicate InHand(s: State, w: nat, id: TaskId) {
    && w < |s.frames| && id in s.table && s.table[id].state.Running? && id !in s.orphans
    && (forall v, o :: Owns(s, v, o) && v != w ==>
          o in s.table && o != id && s.table[o].state.Running? && o !in s.orphans &&
          (s.table[o].kind.Shell? <==> s.frames[v].Polling?))
    && (forall u, v, o :: u != w && v != w && Owns(s, u, o) && Owns(s, v, o) ==> u == v)
    && (forall o :: o in s.table && s.table[o].state.Running? && o != id && o !in s.orphans ==>
          OwnedByOther(s, w, o))
    && (forall o :: o in s.orphans ==> o in s.table && s.table[o].state.Running? && Unrecordable(s.table[o]))
    && FlagsOk(s)
    && (forall o :: o != id ==>
          (o in s.running <==>
             o in s.table && s.table[o].state.Running? && s.table[o].kind.Async? && o !in s.orphans))
    && FactoriesOk(s) && RowsOk(s)
  }

  ghost predicate OwnedByOther(s: State, w: nat, id: TaskId) { exists v :: v != w && Owns(s, v, id) }

  /** How worker `w` may leave the row it has in hand: RUNNING and owned by it, handed back to
      the queue or to a terminal state with the worker idle, or orphaned with the worker gone. */
  ghost predicate Settles(s: State, s': State, w: nat, id: TaskId, now: real)
    requires InHand(s, w, id)
  {
    && s'.table.Keys == s.table.Keys
    && (forall o :: o in s.table && o != id ==> s'.table[o] == s.table[o])
    && var row, row' := s.table[id], s'.table[id];
    && row'.kind == row.kind && row'.policy == row.policy && row'.attempts == row.attempts
    && (row'.state.Queued? ==> row.attempts <= row.policy.maxRetries && !row.policy.Overflows(row.attempts) &&
                               row'.nextRetryAt == now + row.policy.Backoff(row.attempts))
    && |s'.frames| == |s.frames|
    && (forall v :: 0 <= v < |s.frames| && v != w ==> s'.frames[v] == s.frames[v])
    && s'.orphans == (if id in s'.orphans then s.orphans + {id} else s.orphans)
    && (id in s'.orphans ==> row'.state.Running? && Unrecordable(row))
    && (if id in s'.orphans then s'.frames[w].Exited?
        else if row'.state.Running? then
          s'.frames[w].Owns(id) && (row.kind.Shell? <==> s'.frames[w].Polling?)
        else s'.frames[w].Idle?)
    && s'.cancelFlags <= s.cancelFlags && s.cancelFlags <= s'.cancelFlags + {id}
    && (row'.state.Running? || id !in s'.cancelFlags)
    && (forall o :: o != id ==> (o in s'.running <==> o in s.running))
    && (id in s'.running <==> row'.state.Running? && row'.kind.Async? && id !in s'.orphans)
    && s'.factories == (if row'.state.Terminal() then s.factories - {id} else s.factories)
  }

  lemma SettlesKeepsOwners(s: State, s': State, w: nat, id: TaskId, now: real)
    requires InHand(s, w, id) && Settles(s, s', w, id, now)
    ensures OwnersOk(s')
  {
    forall v, o | Owns(s', v, o) && v != w ensures Owns(s, v, o) {}
  }

  lemma SettlesKeepsOwned(s: State, s': State, w: nat, id: TaskId, now: real)
    requires InHand(s, w, id) && Settles(s, s', w, id, now)
    ensures RunningOwned(s')
  {
    forall o | o in s'.table && s'.table[o].state.Running? && o !in s'.orphans ensures Owned(s', o) {
      if o == id {
        assert Owns(s', w, id);
      } else {
        assert OwnedByOther(s, w, o);
        var v :| v != w && Owns(s, v, o);
        assert Owns(s', v, o);
      }
    }
  }

  lemma SettlesKeepsCancels(s: State, s': State, w: nat, id: TaskId, now: real)
    requires InHand(s, w, id) && Settles(s, s', w, id, now)
    ensures FlagsOk(s') && RunningMapOk(s')
  {
  }

  lemma SettlesKeepsRows(s: State, s': State, w: nat, id: TaskId, now: real)
    requires InHand(s, w, id) && Settles(s, s', w, id, now)
    ensures FactoriesOk(s') && RowsOk(s')
  {
  }

  lemma SettlesKeepsInv(s: State, s': State, w: nat, id: TaskId, now: real)
    requires InHand(s, w, id) && Settles(s, s', w, id, now)
    ensures Inv(s')
  {
    SettlesKeepsOwners(s, s', w, id, now);
    SettlesKeepsOwned(s, s', w, id, now);
    SettlesKeepsCancels(s, s', w, id, now);
    SettlesKeepsRows(s, s', w, id, now);
  }

  /** `s0` differs from `s` only in what a worker changes before it settles row `id`. */
  ghost predicate Near(s: State, s0: State, id: TaskId, awaited: bool) {
    && id in s.table && s0.table.Keys == s.table.Keys
    && (forall o :: o in s.table && o != id ==> s0.table[o] == s.table[o])
    && s0.table[id] == s.table[id].(progress := s0.table[id].progress)
    && s0.cancelFlags <= s.cancelFlags && s.cancelFlags <= s0.cancelFlags + {id}
    && (forall o :: o != id ==> (o in s0.running <==> o in s.running)) && (id in s0.running <==> awaited)
    && s0.factories == s.factories && s0.frames == s.frames && s0.orphans == s.orphans
  }

  /** An ending that a row of this kind can have. */
  predicate Proper(e: Ending, id: TaskId, kind: Kind) {
    match e
    case Ends(state, _, _) => state.Terminal()
    case Fails(_) => true
    case Waits(frame) => frame.Owns(id) && (kind.Shell? <==> frame.Polling?)
  }

  lemma FinishSettles(s: State, s0: State, w: nat, id: TaskId, e: Ending, now: real)
    requires InHand(s, w, id) && Near(s, s0, id, false) && e.Ends? && e.state.Terminal() && id !in s0.cancelFlags
    ensures Settles(s, Settle(s0, w, id, e, now), w, id, now)
  {
  }

  lemma StrandSettles(s: State, s0: State, w: nat, id: TaskId, reason: string, now: real)
    requires InHand(s, w, id) && Near(s, s0, id, false) && id !in s0.cancelFlags && Unrecordable(s0.table[id])
    ensures Settles(s, FailAttempt(s0, w, id, reason, now), w, id, now)
  {
  }

  lemma RequeueSettles(s: State, s0: State, w: nat, id: TaskId, reason: string, now: real)
    requires InHand(s, w, id) && Near(s, s0, id, false) && id !in s0.cancelFlags
    requires s0.table[id].attempts <= s0.table[id].policy.maxRetries && !Unrecordable(s0.table[id])
    ensures Settles(s, FailAttempt(s0, w, id, reason, now), w, id, now)
  {
  }

  lemma FailureSettles(s: State, s0: State, w: nat, id: TaskId, reason: string, now: real)
    requires InHand(s, w, id) && Near(s, s0, id, false) && id !in s0.cancelFlags
    ensures Settles(s, FailAttempt(s0, w, id, reason, now), w, id, now)
  {
    if Unrecordable(s0.table[id]) {
      StrandSettles(s, s0, w, id, reason, now);
    } else if s0.table[id].attempts <= s0.table[id].policy.maxRetries {
      RequeueSettles(s, s0, w, id, reason, now);
    } else {
      FinishSettles(s, s0, w, id, Ends(Failed, Some(Truncated(reason)), None), now);
    }
  }

  /** However a stretch ends, the row is left in one of the permitted ways. */
  lemma SettleSettles(s: State, s0: State, w: nat, id: TaskId, e: Ending, now: real)
    requires InHand(s, w, id) && Near(s, s0, id, e.Waits? && s.table[id].kind.Async?)
    requires Proper(e, id, s.table[id].kind) && id !in s0.cancelFlags
    ensures Settles(s, Settle(s0, w, id, e, now), w, id, now)
  {
    match e
    case Ends(_, _, _) => FinishSettles(s, s0, w, id, e, now);
    case Fails(reason) => FailureSettles(s, s0, w, id, reason, now);
    case Waits(_) =>
  }

  lemma PollTurnSettles(s: State, w: nat, id: TaskId, deadline: real, answer: PollAnswer, now: real)
    requires InHand(s, w, id) && s.table[id].kind.Shell? && id !in s.running
    ensures Settles(s, PollTurn(s, w, id, deadline, answer, now), w, id, now)
  {
    SeenNear(s, id, answer);
    SettleSettles(s, Seen(s, id, answer), w, id, PollEnding(id in s.cancelFlags, id, deadline, answer, now), now);
  }

  lemma SeenNear(s: State, id: TaskId, answer: PollAnswer)
    requires id in s.table && id !in s.running
    ensures Near(s, Seen(s, id, answer), id, false) && id !in Seen(s, id, answer).cancelFlags
  {
  }

  lemma LaunchedNear(s: State, id: TaskId, start: StartAnswer, poll: PollAnswer, begun: real, now: real)
    requires id in s.table && id !in s.running && id !in s.cancelFlags
    ensures var s0, e := Launched(s, id, start, poll), LaunchEnding(s, id, start, poll, begun, now);
            && Near(s, s0, id, e.Waits? && s.table[id].kind.Async?) && id !in s0.cancelFlags
            && Proper(e, id, s.table[id].kind)
  {
    SeenNear(s, id, poll);
  }

  lemma LaunchSettles(s: State, w: nat, id: TaskId, start: StartAnswer, poll: PollAnswer, begun: real, now: real)
    requires InHand(s, w, id) && id !in s.running && id !in s.cancelFlags
    ensures Settles(s, Launch(s, w, id, start, poll, begun, now), w, id, now)
  {
    LaunchedNear(s, id, start, poll, begun, now);
    SettleSettles(s, Launched(s, id, start, poll), w, id, LaunchEnding(s, id, start, poll, begun, now), now);
  }

  lemma ResumedSettles(s: State, w: nat, id: TaskId, outcome: Outcome, now: real)
    requires InHand(s, w, id) && s.table[id].kind.Async?
    ensures Settles(s, Resumed(s, w, id, outcome, now), w, id, now)
  {
    assert id !in s.cancelFlags;
    SettleSettles(s, s.(running := s.running - {id}), w, id, ResumeEnding(outcome), now);
  }

  lemma OwnerHasInHand(s: State, w: nat, id: TaskId)
    requires Inv(s) && Owns(s, w, id)
    ensures InHand(s, w, id)
  {
    forall v, o | Owns(s, v, o) && v != w ensures o != id { assert Owns(s, v, o) && Owns(s, w, id); }
    forall o | o in s.table && s.table[o].state.Running? && o != id && o !in s.orphans
      ensures OwnedByOther(s, w, o)
    {
      assert Owned(s, o);
      var v :| Owns(s, v, o);
      assert v != w;
    }
  }

  lemma ClaimPutsInHand(s: State, w: nat, id: TaskId, now: real)
    requires Inv(s) && w < |s.frames| && s.frames[w].Idle? && EarliestDue(s.table, id, now)
    ensures var s' := s.(table := s.table[id := Claimed(s.table[id], now)]);
            InHand(s', w, id) && id !in s'.running && id !in s'.cancelFlags
  {
    var s' := s.(table := s.table[id := Claimed(s.table[id], now)]);
    forall v, o | Owns(s', v, o) ensures Owns(s, v, o) {}
    forall o | o in s'.table && s'.table[o].state.Running? && o != id && o !in s'.orphans
      ensures OwnedByOther(s', w, o)
    {
      OwnersStay(s, s', w, o);
    }
  }

  lemma OwnersStay(s: State, s': State, w: nat, id: TaskId)
    requires RunningOwned(s) && id in s.table && s.table[id].state.Running? && id !in s.orphans
    requires s'.frames == s.frames && w < |s.frames| && s.frames[w].Idle?
    ensures OwnedByOther(s', w, id)
  {
    assert Owned(s, id);
    var v :| Owns(s, v, id);
    assert Owns(s', v, id);
  }

  lemma SameFramesInv(s: State, s': State)
    requires Inv(s) && s'.frames == s.frames && s'.orphans == s.orphans
    requires s.table.Keys <= s'.table.Keys
    requires forall id :: id in s'.table && s'.table[id].state.Running? <==> id in s.table && s.table[id].state.Running?
    requires forall id :: id in s.table ==> s'.table[id].kind == s.table[id].kind
    requires forall id :: id in s.orphans ==> Unrecordable(s'.table[id])
    requires FlagsOk(s') && RunningMapOk(s') && FactoriesOk(s') && RowsOk(s')
    ensures Inv(s')
  {
    forall w, id | Owns(s', w, id) ensures Owns(s, w, id) {}
    forall id | id in s'.table && s'.table[id].state.Running? && id !in s'.orphans ensures Owned(s', id) {
      assert Owned(s, id);
      var w :| Owns(s, w, id);
      assert Owns(s', w, id);
    }
  }

  lemma FramesOnlyInv(s: State, s': State)
    requires Inv(s) && s'.table == s.table && s'.cancelFlags == s.cancelFlags
    requires s'.running.Keys == s.running.Keys && s'.factories == s.factories && s'.orphans == s.orphans
    requires forall w: nat :: w < |s.frames| && !s.frames[w].Idle? ==> w < |s'.frames| && s'.frames[w] == s.frames[w]
    requires forall w: nat :: w < |s'.frames| && (w >= |s.frames| || s.frames[w].Idle?) ==>
               s'.frames[w].Idle? || s'.frames[w].Exited?
    ensures Inv(s')
  {
    forall w, id | Owns(s', w, id) ensures Owns(s, w, id) && s'.frames[w] == s.frames[w] {}
    assert OwnersOk(s');
    forall id | id in s'.table && s'.table[id].state.Running? && id !in s'.orphans ensures Owned(s', id) {
      assert Owned(s, id);
      var w :| Owns(s, w, id);
      assert Owns(s', w, id);
    }
    forall id ensures id in s'.running <==> id in s.running {}
  }

  lemma ClaimKeepsInv(s: State, w: nat, id: TaskId, now: real, begun: real, end: real,
                      start: StartAnswer, poll: PollAnswer)
    requires Inv(s) && w < |s.frames| && s.frames[w].Idle? && EarliestDue(s.table, id, now)
    ensures Inv(Launch(s.(table := s.table[id := Claimed(s.table[id], now)]), w, id, start, poll, begun, end))
  {
    var mid := s.(table := s.table[id := Claimed(s.table[id], now)]);
    ClaimPutsInHand(s, w, id, now);
    LaunchSettles(mid, w, id, start, poll, begun, end);
    SettlesKeepsInv(mid, Launch(mid, w, id, start, poll, begun, end), w, id, end);
  }

  lemma PollKeepsInv(s: State, w: nat, poll: PollAnswer, now: real)
    requires Inv(s) && Enabled(s, PollStep(w, poll, now))
    ensures Inv(PollTurn(s, w, s.frames[w].id, s.frames[w].deadline, poll, now))
  {
    var id := s.frames[w].id;
    assert Owns(s, w, id);
    OwnerHasInHand(s, w, id);
    PollTurnSettles(s, w, id, s.frames[w].deadline, poll, now);
    SettlesKeepsInv(s, PollTurn(s, w, id, s.frames[w].deadline, poll, now), w, id, now);
  }

  lemma ResumeKeepsInv(s: State, w: nat, outcome: Outcome, now: real)
    requires Inv(s) && Enabled(s, ResumeStep(w, outcome, now))
    ensures Inv(Resumed(s, w, s.frames[w].id, outcome, now))
  {
    var id := s.frames[w].id;
    assert Owns(s, w, id);
    OwnerHasInHand(s, w, id);
    ResumedSettles(s, w, id, outcome, now);
    SettlesKeepsInv(s, Resumed(s, w, id, outcome, now), w, id, now);
  }

  lemma NewRowKeepsInv(s: State, id: TaskId, row: Row, factories: set<TaskId>)
    requires Inv(s) && id !in s.table
    requires row.state.Queued? && row.attempts == 0
    requires factories == if row.kind.Async? then s.factories + {id} else s.factories
    ensures Inv(s.(table := s.table[id := row], factories := factories))
  {
    var s' := s.(table := s.table[id := row], factories := factories);
    assert RowsOk(s');
    assert FactoriesOk(s');
    SameFramesInv(s, s');
  }

  lemma CancelQueuedKeepsInv(s: State, id: TaskId, now: real)
    requires Inv(s) && id in s.table && s.table[id].state.Queued?
    ensures Inv(CancelTask(s, id, now))
  {
    var s' := CancelTask(s, id, now);
    assert RowsOk(s');
    assert FactoriesOk(s');
    SameFramesInv(s, s');
  }

  lemma CancelRunningKeepsInv(s: State, id: TaskId, now: real)
    requires Inv(s) && id in s.table && s.table[id].state.Running?
    ensures Inv(CancelTask(s, id, now))
  {
    SameFramesInv(s, CancelTask(s, id, now));
  }

  lemma CancelKeepsInv(s: State, id: TaskId, now: real)
    requires Inv(s)
    ensures Inv(CancelTask(s, id, now))
  {
    if id in s.table && s.table[id].state.Queued? {
      CancelQueuedKeepsInv(s, id, now);
    } else if id in s.table && s.table[id].state.Running? {
      CancelRunningKeepsInv(s, id, now);
    }
  }

  lemma SubmitKeepsInv(s: State, step: Step)
    requires Inv(s) && Enabled(s, step) && (step.SubmitShellStep? || step.SubmitAsyncStep?)
    ensures Inv(Apply(s, step))
  {
    if step.SubmitAsyncStep? {
      NewRowKeepsInv(s, step.id, NewRow(Async, "", 0.0, step.policy, step.now), s.factories + {step.id});
    } else if !Blank(step.command) && step.timeout > 0.0 {
      NewRowKeepsInv(s, step.id, NewRow(Shell, step.command, step.timeout, step.policy, step.now), s.factories);
    }
  }

  lemma ProgressKeepsInv(s: State, step: Step)
    requires Inv(s) && Enabled(s, step) && step.ProgressStep?
    ensures Inv(Apply(s, step))
  {
    assert Owns(s, step.w, s.frames[step.w].id);
    SameFramesInv(s, Apply(s, step));
  }

  lemma PoolKeepsInv(s: State, step: Step)
    requires Inv(s) && Enabled(s, step) && (step.StartStep? || step.StopStep? || step.ExitStep?)
    ensures Inv(Apply(s, step))
  {
    FramesOnlyInv(s, Apply(s, step));
  }

  /** One step of the system keeps the invariant. */
  lemma StepKeepsInv(s: State, step: Step)
    requires Inv(s) && Enabled(s, step)
    ensures Inv(Apply(s, step))
  {
    match step
    case CancelStep(id, now) => CancelKeepsInv(s, id, now);
    case ClaimStep(w, pick, now, begun, end, start, poll) =>
      if pick.Some? { ClaimKeepsInv(s, w, pick.value, now, begun, end, start, poll); }
    case PollStep(w, poll, now) => PollKeepsInv(s, w, poll, now);
    case ResumeStep(w, outcome, now) => ResumeKeepsInv(s, w, outcome, now);
    case ProgressStep(_, _, _) => ProgressKeepsInv(s, step);
    case SubmitShellStep(_, _, _, _, _) => SubmitKeepsInv(s, step);
    case SubmitAsyncStep(_, _, _) => SubmitKeepsInv(s, step);
    case _ => PoolKeepsInv(s, step);
  }

  /** Every state of every run from an empty table satisfies the invariant. */
  lemma {:induction false} RunKeepsInv(s: State, steps: seq<Step>)
    requires Inv(s) && Valid(s, steps)
    ensures Inv(Exec(s, steps))
    decreases |steps|
  {
    if steps != [] {
      StepKeepsInv(s, steps[0]);
      RunKeepsInv(Apply(s, steps[0]), steps[1..]);
    }
  }
}
