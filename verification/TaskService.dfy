/** The batch-task service: the task table, the worker coroutines cut at their awaits, and
    what one uninterrupted stretch of a worker does to the table.

    Everything between two awaits is atomic in the program, so a run is a sequence of `Step`s.
    What the executor, the shell and the submitted coroutines answer is a parameter. */
module TaskService {
  import opened Basics

  type TaskId = nat

  datatype Kind = Shell | Async

  datatype TaskState = Queued | Running | Done | Failed | Cancelled {
    predicate Terminal() { Done? || Failed? || Cancelled? }
  }

  datatype RetryPolicy = RetryPolicy(maxRetries: int, initial: real, cap: real, multiplier: real) {
    /** The delay before the attempt that follows attempt number `attemptsDone`. */
    function Backoff(attemptsDone: int): real {
      if attemptsDone < 1 then 0.0
      else Min(initial * Power(multiplier, attemptsDone - 1), cap)
    }

    /** The power in the delay leaves the range of the program's floats, which raises. */
    predicate Overflows(attemptsDone: int) {
      attemptsDone >= 1 && Abs(Power(multiplier, attemptsDone - 1)) >= FLOAT_LIMIT
    }

    /** The number of times a task with this policy may be claimed. */
    function Budget(): nat { MaxInt(0, maxRetries) + 1 }
  }

  function Power(base: real, exponent: nat): real {
    if exponent == 0 then 1.0 else base * Power(base, exponent - 1)
  }

  const TWO_97: real := 158456325028528675187087900672.0

  const TWO_485: real := TWO_97 * TWO_97 * TWO_97 * TWO_97 * TWO_97

  /** 2^1024 - 2^970: from here on a result no longer rounds to a double-precision number. */
  const FLOAT_LIMIT: real := TWO_485 * TWO_485 * 18014398509481983.0

  datatype TaskResult = ShellResult(exitCode: int, output: string) | Value(text: string)

  datatype Row = Row(
    kind: Kind,
    command: string,
    timeout: real,
    policy: RetryPolicy,
    state: TaskState,
    progress: real,
    attempts: nat,
    nextRetryAt: real,
    failureReason: Option<string>,
    result: Option<TaskResult>,
    createdAt: real,
    startedAt: Option<real>,
    finishedAt: Option<real>)

  /** Where a worker coroutine is suspended. */
  datatype Frame =
    | Idle
    | Polling(id: TaskId, deadline: real)
    | Awaiting(id: TaskId)
    | Exited
  {
    predicate Owns(task: TaskId) {
      (Polling? && id == task) || (Awaiting? && id == task)
    }
  }

  type Table = map<TaskId, Row>

  /** `factories` holds the ids with a stored factory; `running` maps the id of each coroutine
      in flight to whether its cancellation was requested; `started` is the length of the
      program's list of worker handles. `orphans` is history, which the program does not keep:
      the rows whose worker died when recording a failed attempt raised. */
  datatype State = State(
    table: Table,
    cancelFlags: set<TaskId>,
    running: map<TaskId, bool>,
    factories: set<TaskId>,
    stopped: bool,
    started: nat,
    frames: seq<Frame>,
    orphans: set<TaskId>)

  const FRESH := State(map[], {}, map[], {}, false, 0, [], {})

  const DEFAULT_TIMEOUT: real := 600.0
  const FAILURE_REASON_MAX := 2000

  // ---------------------------------------------------------------- answers of the environment

  datatype StartAnswer = Started | Refused(reason: string) | LaunchRaised(message: string)

  datatype OutputAnswer =
    | OutputRaised(message: string)
    | Output(alive: bool, exitCode: Option<int>, text: string, progress: Option<real>, detail: string)

  /** One turn of the polling loop: what `shell_output` answers, and whether a `kill_shell`
      made in this turn raises. */
  datatype PollAnswer = PollAnswer(output: OutputAnswer, killRaises: Option<string>)

  datatype Outcome = Returned(text: string) | WasCancelled | Raised(message: string)

  // ---------------------------------------------------------------- table operations

  function Truncated(reason: string): string {
    if |reason| <= FAILURE_REASON_MAX then reason else reason[..FAILURE_REASON_MAX]
  }

  function Clamp(p: real): real { Min(Max(p, 0.0), 1.0) }

  predicate Due(row: Row, now: real) { row.state.Queued? && row.nextRetryAt <= now }

  /** The row the claim query may return: due, and no due row is stamped earlier. */
  predicate EarliestDue(table: Table, id: TaskId, now: real) {
    id in table && Due(table[id], now) &&
    forall other :: other in table && Due(table[other], now) ==> table[id].nextRetryAt <= table[other].nextRetryAt
  }

  function NewRow(kind: Kind, command: string, timeout: real, policy: RetryPolicy, now: real): Row {
    Row(kind, command, timeout, policy, Queued, 0.0, 0, now, None, None, now, None, None)
  }

  function Claimed(row: Row, now: real): Row {
    row.(state := Running, attempts := row.attempts + 1, progress := 0.0,
         startedAt := if row.startedAt.None? then Some(now) else row.startedAt)
  }

  function Finished(row: Row, state: TaskState, reason: Option<string>, result: Option<TaskResult>, now: real): Row {
    row.(state := state, failureReason := reason, result := result, finishedAt := Some(now),
         progress := if state.Done? then 1.0 else row.progress)
  }

  function Finish(s: State, id: TaskId, state: TaskState, reason: Option<string>,
                  result: Option<TaskResult>, now: real): State
  {
    if id !in s.table then s.(factories := s.factories - {id})
    else s.(table := s.table[id := Finished(s.table[id], state, reason, result, now)],
            factories := s.factories - {id})
  }

  /** Recording a failure of the row raises: it would be retried, and its delay overflows. */
  predicate Unrecordable(row: Row) {
    row.attempts <= row.policy.maxRetries && row.policy.Overflows(row.attempts)
  }

  /** A failed attempt: back to the queue while attempts remain, otherwise FAILED. */
  function HandleFailure(s: State, id: TaskId, reason: string, now: real): State
    requires id in s.table && !Unrecordable(s.table[id])
  {
    var row := s.table[id];
    if row.attempts <= row.policy.maxRetries then
      s.(table := s.table[id := row.(
        state := Queued,
        failureReason := Some(Truncated(reason)),
        nextRetryAt := now + row.policy.Backoff(row.attempts))])
    else
      Finish(s, id, Failed, Some(Truncated(reason)), None, now)
  }

  function SetProgress(s: State, id: TaskId, p: real): State
  {
    if id !in s.table then s
    else s.(table := s.table[id := s.table[id].(progress := Clamp(p))])
  }

  // ---------------------------------------------------------------- what one stretch of a worker does

  function WithFrame(s: State, w: nat, frame: Frame): State
    requires w < |s.frames|
  {
    s.(frames := s.frames[w := frame])
  }

  /** A worker whose attempt failed. When recording the failure raises, the worker's own handler
      tries once more, raises again and ends the worker, with the row as it was. */
  function FailAttempt(s: State, w: nat, id: TaskId, reason: string, now: real): State
    requires id in s.table && w < |s.frames|
  {
    if Unrecordable(s.table[id]) then WithFrame(s, w, Exited).(orphans := s.orphans + {id})
    else WithFrame(HandleFailure(s, id, reason, now), w, Idle)
  }

  function InternalError(message: string): string { "worker internal error: " + message }

  /** How a stretch of a worker leaves its row: terminal, failed, or still its own. */
  datatype Ending =
    | Ends(state: TaskState, why: Option<string>, result: Option<TaskResult>)
    | Fails(reason: string)
    | Waits(frame: Frame)

  function Settle(s: State, w: nat, id: TaskId, e: Ending, now: real): State
    requires id in s.table && w < |s.frames|
  {
    match e
    case Ends(state, why, result) => WithFrame(Finish(s, id, state, why, result, now), w, Idle)
    case Fails(reason) => FailAttempt(s, w, id, reason, now)
    case Waits(frame) => WithFrame(s, w, frame)
  }

  /** A flag comes first, then what reading the output answers: an exit before the deadline. */
  function PollEnding(flagged: bool, id: TaskId, deadline: real, answer: PollAnswer, now: real): Ending {
    if flagged then
      if answer.killRaises.Some? then Fails(InternalError(answer.killRaises.value))
      else Ends(Cancelled, Some("cancelled while running"), None)
    else
      match answer.output
      case OutputRaised(message) => Fails(InternalError(message))
      case Output(alive, exitCode, text, _, detail) =>
        if !alive then
          if exitCode == Some(0) then Ends(Done, None, Some(ShellResult(0, text))) else Fails(detail)
        else if now > deadline then
          Fails(if answer.killRaises.Some? then InternalError(answer.killRaises.value) else "timeout")
        else Waits(Polling(id, deadline))
  }

  /** The state after the flag was used up or the reported progress was stored. */
  function Seen(s: State, id: TaskId, answer: PollAnswer): State {
    if id in s.cancelFlags then s.(cancelFlags := s.cancelFlags - {id})
    else if answer.output.Output? && answer.output.progress.Some? then SetProgress(s, id, answer.output.progress.value)
    else s
  }

  /** One turn of the polling loop of a shell task, up to its sleep or its return. */
  function PollTurn(s: State, w: nat, id: TaskId, deadline: real, answer: PollAnswer, now: real): State
    requires id in s.table && w < |s.frames|
  {
    Settle(Seen(s, id, answer), w, id, PollEnding(id in s.cancelFlags, id, deadline, answer, now), now)
  }

  function EffectiveTimeout(row: Row): real {
    if row.timeout == 0.0 then DEFAULT_TIMEOUT else row.timeout
  }

  /** Why a claimed task does not get started, if it does not. */
  function StartFailure(kind: Kind, hasFactory: bool, start: StartAnswer): Option<string> {
    if kind.Async? && !hasFactory then Some("async factory lost (process restart)")
    else
      match start
      case LaunchRaised(message) => Some(InternalError(message))
      case Refused(reason) => if kind.Shell? then Some("blocked: " + reason) else None
      case Started => None
  }

  /** How the first stretch of a claimed task ends: a coroutine is awaited, a shell task is polled
      at once. Its deadline runs from `begun`, before the first reading of its output. */
  function LaunchEnding(s: State, id: TaskId, start: StartAnswer, poll: PollAnswer, begun: real, now: real): Ending
    requires id in s.table
  {
    var row := s.table[id];
    var failure := StartFailure(row.kind, id in s.factories, start);
    if failure.Some? then Fails(failure.value)
    else if row.kind.Shell? then PollEnding(id in s.cancelFlags, id, begun + EffectiveTimeout(row), poll, now)
    else Waits(Awaiting(id))
  }

  function Launched(s: State, id: TaskId, start: StartAnswer, poll: PollAnswer): State
    requires id in s.table
  {
    if StartFailure(s.table[id].kind, id in s.factories, start).Some? then s
    else if s.table[id].kind.Shell? then Seen(s, id, poll)
    else s.(running := s.running[id := false])
  }

  /** A claimed task up to the first await of its worker. */
  function Launch(s: State, w: nat, id: TaskId, start: StartAnswer, poll: PollAnswer, begun: real, now: real): State
    requires id in s.table && w < |s.frames|
  {
    Settle(Launched(s, id, start, poll), w, id, LaunchEnding(s, id, start, poll, begun, now), now)
  }

  function ResumeEnding(outcome: Outcome): Ending {
    match outcome
    case Returned(text) => Ends(Done, None, Some(Value(text)))
    case WasCancelled => Ends(Cancelled, Some("cancelled while running"), None)
    case Raised(message) => Fails(message)
  }

  /** The end of an awaited coroutine, as its worker sees it. */
  function Resumed(s: State, w: nat, id: TaskId, outcome: Outcome, now: real): State
    requires id in s.table && w < |s.frames|
  {
    Settle(s.(running := s.running - {id}), w, id, ResumeEnding(outcome), now)
  }

  /** Nothing is left of the command when white space, here with the four information
      separators, is stripped. */
  predicate Blank(command: string) {
    forall i :: 0 <= i < |command| ==> IsSpace(command[i] as int) || 0x1C <= command[i] as int <= 0x1F
  }

  function SubmitShell(s: State, id: TaskId, command: string, timeout: real, policy: RetryPolicy, now: real): State {
    if Blank(command) || timeout <= 0.0 then s
    else s.(table := s.table[id := NewRow(Shell, command, timeout, policy, now)])
  }

  function SubmitAsync(s: State, id: TaskId, policy: RetryPolicy, now: real): State {
    s.(table := s.table[id := NewRow(Async, "", 0.0, policy, now)], factories := s.factories + {id})
  }

  function CancelTask(s: State, id: TaskId, now: real): State {
    if id !in s.table then s
    else
      var row := s.table[id];
      match row.state
      case Queued =>
        s.(factories := s.factories - {id},
           table := s.table[id := row.(state := Cancelled, finishedAt := Some(now),
                                       failureReason := Some("cancelled before start"))])
      case Running =>
        if row.kind.Async? then
          if id in s.running then s.(running := s.running[id := true]) else s
        else s.(cancelFlags := s.cancelFlags + {id})
      case _ => s
  }

  function StartWorkers(s: State, workers: nat): State {
    if s.started > 0 then s
    else s.(stopped := false, started := workers, frames := s.frames + seq(workers, i => Idle))
  }

  function StopWorkers(s: State): State {
    s.(stopped := true, started := 0, running := map id | id in s.running :: true)
  }

  // ---------------------------------------------------------------- steps

  datatype Step =
    | SubmitShellStep(id: TaskId, command: string, timeout: real, policy: RetryPolicy, now: real)
    | SubmitAsyncStep(id: TaskId, policy: RetryPolicy, now: real)
    | CancelStep(id: TaskId, now: real)
    | ClaimStep(w: nat, pick: Option<TaskId>, now: real, begun: real, end: real, start: StartAnswer, poll: PollAnswer)
    | PollStep(w: nat, poll: PollAnswer, now: real)
    | ResumeStep(w: nat, outcome: Outcome, now: real)
    | ProgressStep(w: nat, p: real, now: real)
    | StartStep(workers: nat, now: real)
    | StopStep(now: real)
    | ExitStep(w: nat, now: real)
  {
    /** The clock when the step ends; a claim reads it again after launching and after the first
        poll. */
    function End(): real { if ClaimStep? then end else now }
  }

  predicate Enabled(s: State, step: Step) {
    match step
    case SubmitShellStep(id, _, _, _, _) => id !in s.table
    case SubmitAsyncStep(id, _, _) => id !in s.table
    case CancelStep(_, _) => true
    case ClaimStep(w, pick, now, _, _, _, _) =>
      w < |s.frames| && s.frames[w].Idle? && !s.stopped &&
      (match pick
       case Some(id) => EarliestDue(s.table, id, now)
       case None => forall id :: id in s.table ==> !Due(s.table[id], now))
    case PollStep(w, _, _) => w < |s.frames| && s.frames[w].Polling? && s.frames[w].id in s.table
    case ResumeStep(w, _, _) => w < |s.frames| && s.frames[w].Awaiting? && s.frames[w].id in s.table
    case ProgressStep(w, _, _) => w < |s.frames| && s.frames[w].Awaiting?
    case StartStep(workers, _) => workers >= 1
    case StopStep(_) => true
    case ExitStep(w, _) => w < |s.frames| && s.frames[w].Idle? && s.stopped
  }

  function Apply(s: State, step: Step): State
    requires Enabled(s, step)
  {
    match step
    case SubmitShellStep(id, command, timeout, policy, now) => SubmitShell(s, id, command, timeout, policy, now)
    case SubmitAsyncStep(id, policy, now) => SubmitAsync(s, id, policy, now)
    case CancelStep(id, now) => CancelTask(s, id, now)
    case ClaimStep(w, pick, now, begun, end, start, poll) =>
      if pick.None? then s
      else
        var id := pick.value;
        Launch(s.(table := s.table[id := Claimed(s.table[id], now)]), w, id, start, poll, begun, end)
    case PollStep(w, poll, now) => PollTurn(s, w, s.frames[w].id, s.frames[w].deadline, poll, now)
    case ResumeStep(w, outcome, now) => Resumed(s, w, s.frames[w].id, outcome, now)
    case ProgressStep(w, p, _) => SetProgress(s, s.frames[w].id, p)
    case StartStep(workers, _) => StartWorkers(s, workers)
    case StopStep(_) => StopWorkers(s)
    case ExitStep(w, _) => WithFrame(s, w, Exited)
  }

  predicate Valid(s: State, steps: seq<Step>)
    decreases |steps|
  {
    steps == [] || (Enabled(s, steps[0]) && Valid(Apply(s, steps[0]), steps[1..]))
  }

  function Exec(s: State, steps: seq<Step>): State
    requires Valid(s, steps)
    decreases |steps|
  {
    if steps == [] then s else Exec(Apply(s, steps[0]), steps[1..])
  }
}
