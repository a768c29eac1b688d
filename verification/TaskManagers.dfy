/** The `TaskManager` object: the methods of the service over its mutable fields, each tied to
    the value-level operation that the theorems about runs are stated for. */
module TaskManagers {
  import opened Basics
  import opened TaskService

  class TaskManager {
    var table: Table
    var cancelFlags: set<TaskId>
    var running: map<TaskId, bool>
    var factories: set<TaskId>
    var stopped: bool
    var started: nat
    // the suspended worker coroutines, kept by the event loop
    var frames: seq<Frame>
    ghost var orphans: set<TaskId>

    const maxWorkers: nat

    ghost function View(): State
      reads this
    {
      State(table, cancelFlags, running, factories, stopped, started, frames, orphans)
    }

    constructor (maxWorkers: nat)
      requires maxWorkers >= 1
      ensures View() == FRESH && this.maxWorkers == maxWorkers
    {
      this.maxWorkers := maxWorkers;
      table, cancelFlags, running, factories := map[], {}, map[], {};
      stopped, started, frames, orphans := false, 0, [], {};
    }

    method Start()
      modifies this
      ensures View() == StartWorkers(old(View()), maxWorkers)
    {
      if started > 0 { return; }
      stopped := false;
      var i := 0;
      var before := frames;
      while i < maxWorkers
        invariant i <= maxWorkers
        invariant frames == before + seq(i, _ => Idle)
        invariant !stopped && started == i
        invariant table == old(table) && cancelFlags == old(cancelFlags) && running == old(running)
        invariant factories == old(factories) && orphans == old(orphans)
      {
        frames := frames + [Idle];
        started := started + 1;
        i := i + 1;
      }
    }

    method Stop()
      modifies this
      ensures View() == StopWorkers(old(View()))
    {
      stopped := true;
      started := 0;
      var pending := running.Keys;
      while pending != {}
        invariant pending <= old(running).Keys && running.Keys == old(running).Keys
        invariant forall id :: id in running && id !in pending ==> running[id]
        invariant stopped && started == 0 && table == old(table) && cancelFlags == old(cancelFlags)
        invariant factories == old(factories) && frames == old(frames) && orphans == old(orphans)
        decreases pending
      {
        var id :| id in pending;
        running := running[id := true];
        pending := pending - {id};
      }
    }

    /** A blank command or a non-positive timeout is refused and changes nothing. */
    method Submit(id: TaskId, command: string, timeout: real, policy: RetryPolicy, now: real) returns (ok: bool)
      requires id !in table
      modifies this
      ensures ok <==> !Blank(command) && timeout > 0.0
      ensures View() == SubmitShell(old(View()), id, command, timeout, policy, now)
      ensures !ok ==> View() == old(View())
    {
      if Blank(command) || timeout <= 0.0 { return false; }
      table := table[id := Row(Shell, command, timeout, policy, Queued, 0.0, 0, now, None, None, now, None, None)];
      return true;
    }

    method SubmitFactory(id: TaskId, policy: RetryPolicy, now: real)
      requires id !in table
      modifies this
      ensures View() == SubmitAsync(old(View()), id, policy, now)
    {
      table := table[id := Row(Async, "", 0.0, policy, Queued, 0.0, 0, now, None, None, now, None, None)];
      factories := factories + {id};
    }

    /** `None` stands for the `KeyError` on an unknown id. */
    method Cancel(id: TaskId, now: real) returns (answer: Option<bool>)
      modifies this
      ensures View() == CancelTask(old(View()), id, now)
      ensures answer == if id !in old(table) then None else Some(!old(table)[id].state.Terminal())
    {
      if id !in table { return None; }
      var row := table[id];
      if row.state == Queued {
        factories := factories - {id};
        table := table[id := row.(state := Cancelled, finishedAt := Some(now),
                                  failureReason := Some("cancelled before start"))];
        return Some(true);
      }
      if row.state == Running {
        if row.kind == Async {
          if id in running { running := running[id := true]; }
        } else {
          cancelFlags := cancelFlags + {id};
        }
        return Some(true);
      }
      return Some(false);
    }

    /** The claim query: some earliest due row, or none when nothing is due. */
    method ClaimNext(now: real) returns (pick: Option<TaskId>)
      modifies this
      ensures pick.Some? ==> EarliestDue(old(table), pick.value, now)
      ensures pick.Some? ==> table == old(table)[pick.value := Claimed(old(table)[pick.value], now)]
      ensures pick.None? ==> table == old(table) && forall id :: id in table ==> !Due(table[id], now)
      ensures View() == old(View()).(table := table)
    {
      var due := set id | id in table && Due(table[id], now);
      if due == {} {
        assert forall id :: id in table && Due(table[id], now) ==> id in due;
        return None;
      }
      EarliestExists(table, due, now);
      var id :| id in due && EarliestDue(table, id, now);
      var row := table[id];
      table := table[id := row.(state := Running, attempts := row.attempts + 1, progress := 0.0,
                                startedAt := if row.startedAt.None? then Some(now) else row.startedAt)];
      return Some(id);
    }

    method FinishRow(id: TaskId, state: TaskState, reason: Option<string>, result: Option<TaskResult>, now: real)
      requires id in table
      modifies this
      ensures View() == Finish(old(View()), id, state, reason, result, now)
    {
      var progress := if state == Done then Some(1.0) else None;
      var row := table[id];
      table := table[id := row.(state := state, failureReason := reason, result := result, finishedAt := Some(now),
                                progress := if progress.Some? then progress.value else row.progress)];
      factories := factories - {id};
    }

    /** `raised` is the error of a delay that overflows; the row is then untouched. */
    method FailRow(id: TaskId, reason: string, now: real) returns (raised: bool)
      requires id in table
      modifies this
      ensures raised <==> Unrecordable(old(table)[id])
      ensures raised ==> View() == old(View())
      ensures !raised ==> View() == HandleFailure(old(View()), id, reason, now)
    {
      var row := table[id];
      var short := if |reason| > FAILURE_REASON_MAX then reason[..FAILURE_REASON_MAX] else reason;
      if row.attempts <= row.policy.maxRetries {
        if row.policy.Overflows(row.attempts) { return true; }
        var delay := row.policy.Backoff(row.attempts);
        table := table[id := row.(state := Queued, failureReason := Some(short), nextRetryAt := now + delay)];
      } else {
        FinishRow(id, Failed, Some(short), None, now);
      }
      return false;
    }

    /** A failure inside worker `w`, whose handler records a second time what could not be
        recorded; when that raises too, the worker is gone. */
    method FailInWorker(w: nat, id: TaskId, reason: string, now: real)
      requires id in table && w < |frames|
      modifies this
      ensures View() == FailAttempt(old(View()), w, id, reason, now)
    {
      frames := frames[w := Idle];
      var raised := FailRow(id, reason, now);
      if raised {
        raised := FailRow(id, InternalError("OverflowError"), now);
        if raised {
          frames := frames[w := Exited];
          orphans := orphans + {id};
        }
      }
    }

    /** One turn of the loop of a shell task in worker `w`, up to its sleep or its return. */
    method PollShell(w: nat, id: TaskId, deadline: real, answer: PollAnswer, now: real)
      requires id in table && w < |frames|
      modifies this
      ensures View() == PollTurn(old(View()), w, id, deadline, answer, now)
    {
      if id in cancelFlags {
        cancelFlags := cancelFlags - {id};
        if answer.killRaises.Some? {
          FailInWorker(w, id, InternalError(answer.killRaises.value), now);
          return;
        }
        FinishRow(id, Cancelled, Some("cancelled while running"), None, now);
        frames := frames[w := Idle];
        return;
      }
      if answer.output.OutputRaised? {
        FailInWorker(w, id, InternalError(answer.output.message), now);
        return;
      }
      var so := answer.output;
      if so.progress.Some? {
        table := table[id := table[id].(progress := Min(Max(so.progress.value, 0.0), 1.0))];
      }
      if !so.alive {
        if so.exitCode == Some(0) {
          FinishRow(id, Done, None, Some(ShellResult(0, so.text)), now);
          frames := frames[w := Idle];
        } else {
          FailInWorker(w, id, so.detail, now);
        }
        return;
      }
      if now > deadline {
        if answer.killRaises.Some? {
          FailInWorker(w, id, InternalError(answer.killRaises.value), now);
        } else {
          FailInWorker(w, id, "timeout", now);
        }
        return;
      }
      frames := frames[w := Polling(id, deadline)];
    }

    /** Worker `w` at the top of its loop: claim, launch, and run up to the first await.
        The row taken is the only thing the program leaves open. */
    method WorkerTurn(w: nat, now: real, begun: real, end: real, start: StartAnswer, poll: PollAnswer)
      returns (ghost pick: Option<TaskId>)
      requires w < |frames| && frames[w] == Idle && !stopped
      modifies this
      ensures Enabled(old(View()), ClaimStep(w, pick, now, begun, end, start, poll))
      ensures View() == Apply(old(View()), ClaimStep(w, pick, now, begun, end, start, poll))
    {
      var claimed := ClaimNext(now);
      pick := claimed;
      if claimed.None? { return; }
      var id := claimed.value;
      if table[id].kind == Shell {
        match start
        case LaunchRaised(message) => FailInWorker(w, id, InternalError(message), end);
        case Refused(reason) => FailInWorker(w, id, "blocked: " + reason, end);
        case Started =>
          var timeout := if table[id].timeout == 0.0 then DEFAULT_TIMEOUT else table[id].timeout;
          PollShell(w, id, begun + timeout, poll, end);
      } else if id !in factories {
        FailInWorker(w, id, "async factory lost (process restart)", end);
      } else if start.LaunchRaised? {
        FailInWorker(w, id, InternalError(start.message), end);
      } else {
        running := running[id := false];
        frames := frames[w := Awaiting(id)];
      }
    }

    /** Worker `w` after the coroutine it awaits has ended. */
    method ResumeAsync(w: nat, outcome: Outcome, now: real)
      requires w < |frames| && frames[w].Awaiting? && frames[w].id in table
      modifies this
      ensures View() == Resumed(old(View()), w, old(frames)[w].id, outcome, now)
    {
      var id := frames[w].id;
      match outcome
      case Returned(text) =>
        running := running - {id};
        FinishRow(id, Done, None, Some(Value(text)), now);
        frames := frames[w := Idle];
      case WasCancelled =>
        FinishRow(id, Cancelled, Some("cancelled while running"), None, now);
        running := running - {id};
        frames := frames[w := Idle];
      case Raised(message) =>
        running := running - {id};
        FailInWorker(w, id, message, now);
    }
  }

  lemma {:induction false} EarliestExists(table: Table, due: set<TaskId>, now: real)
    requires due == set id | id in table && Due(table[id], now)
    requires due != {}
    ensures exists id :: id in due && EarliestDue(table, id, now)
  {
    var id := Earliest(table, due);
    assert EarliestDue(table, id, now);
  }

  lemma {:induction false} Earliest(table: Table, ids: set<TaskId>) returns (first: TaskId)
    requires ids != {} && ids <= table.Keys
    ensures first in ids
    ensures forall id :: id in ids ==> table[first].nextRetryAt <= table[id].nextRetryAt
    decreases |ids|
  {
    var one :| one in ids;
    if ids == {one} {
      return one;
    }
    assert ids - {one} != {};
    var rest := Earliest(table, ids - {one});
    first := if table[one].nextRetryAt <= table[rest].nextRetryAt then one else rest;
  }
}
