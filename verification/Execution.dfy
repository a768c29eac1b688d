/** What the two execution pipelines share: requests, results, the answers of the outside world
    and, in closed form, what a pipeline should ask and report.

    Security verdicts, snapshots, git status, the sandbox and what the diagnostics slicer makes of
    stripped text are given as answers; a `World` records which of them were asked for, in order. */
module Execution {
  import opened Basics
  import Ansi = StripAnsi

  type Entry = Bytes

  const EXIT_BLOCKED := -1

  datatype RollbackPolicy = RollbackPolicy(fileDamageCheck: bool)

  /** `profile` is whether the requested sandbox profile fails if it is unavailable. */
  datatype Request = Request(
    command: string, cwd: Option<string>, taskId: Option<string>, seatbelt: bool,
    profile: Option<bool>, enableSnapshot: bool, policy: Option<RollbackPolicy>)

  datatype Verdict = Verdict(allowed: bool, reason: Option<string>, actionId: Option<string>, seatbeltRequired: bool)

  datatype Sandboxed = Sandboxed(
    exitCode: int, stdout: Ansi.Text, stderr: Ansi.Text, timedOut: bool, oomKilled: bool, pid: Option<nat>,
    cancelled: bool)

  datatype SandboxEvent = Chunk(data: string) | Done(sb: Sandboxed)

  datatype RollbackOutcome = RollbackOutcome(applied: bool, skippedReason: Option<string>)

  datatype Sliced = Diagnosed(diagnostics: string) | Panics(message: Bytes)

  /** `misses` is the text of the panic when a slice misses a character boundary; `slice` is what
      becomes of output without control sequences. */
  datatype Answers = Answers(
    verdict: Verdict,
    seatbeltAvailable: bool,
    cwdVerdict: Verdict,
    binary: Result<(), string>,
    snapshot: Result<string, string>,
    pre: Result<set<Entry>, string>,
    run: Result<Sandboxed, string>,
    started: Result<(), string>,
    events: seq<SandboxEvent>,
    misses: Bytes,
    slice: (Bytes, Option<string>) -> Sliced,
    post: Result<set<Entry>, string>,
    rollback: Result<RollbackOutcome, string>)

  datatype Query =
    | AskVerdict | AskSeatbelt | AskCwd | AskBinary(token: string)
    | AskSnapshot | AskPre | AskRun | AskSlice | AskPost | AskRollback

  datatype ExecutionResult = ExecutionResult(
    exitCode: int, stdout: Bytes, stderr: Bytes, taskId: Option<string>, command: Option<string>,
    duration: real, timedOut: bool, blockedBySecurity: bool, securityReason: Option<string>,
    snapshotId: Option<string>, diagnostics: Option<string>, autoRolledBack: bool, rollbackUnavailable: bool,
    rollbackSkippedReason: Option<string>, traceId: Option<string>, oomKilled: bool, pid: Option<nat>,
    guardActionId: Option<string>, cancelled: bool)

  const DEFAULT_RESULT := ExecutionResult(
    0, [], [], None, None, 0.0, false, false, None, None, None, false, false, None, None, false, None, None, false)

  /** The outside world of one execution. */
  class World {
    const answers: Answers
    var asked: seq<Query>

    constructor (answers: Answers)
      ensures this.answers == answers && asked == []
    {
      this.answers := answers;
      asked := [];
    }

    method Ask(q: Query)
      modifies this
      ensures asked == old(asked) + [q]
    {
      asked := asked + [q];
    }
  }

  // ---------------------------------------------------------------- the gates

  datatype Gate = Security | Seatbelt | Profile | Cwd | Binary

  /** The order in which a request must pass them. */
  const GATES := [Security, Seatbelt, Profile, Cwd, Binary]

  /** The first word of a command, empty if there is none. */
  function FirstToken(s: string): string {
    if s == [] then []
    else if IsSpace(s[0] as int) then FirstToken(s[1..])
    else Word(s)
  }

  function Word(s: string): string {
    if s == [] || IsSpace(s[0] as int) then [] else [s[0]] + Word(s[1..])
  }

  predicate Refuses(g: Gate, req: Request, a: Answers) {
    match g
    case Security => !a.verdict.allowed
    case Seatbelt => a.verdict.seatbeltRequired && !req.seatbelt
    case Profile => req.profile == Some(true) && !a.seatbeltAvailable
    case Cwd => req.cwd.Some? && !a.cwdVerdict.allowed
    case Binary => FirstToken(req.command) != [] && a.binary.Err?
  }

  /** The gates before the `n`-th let the request pass. */
  predicate Reaches(n: nat, req: Request, a: Answers)
    requires n <= |GATES|
  {
    && (n > 0 ==> !Refuses(Security, req, a))
    && (n > 1 ==> !Refuses(Seatbelt, req, a))
    && (n > 2 ==> !Refuses(Profile, req, a))
    && (n > 3 ==> !Refuses(Cwd, req, a))
    && (n > 4 ==> !Refuses(Binary, req, a))
  }

  predicate Admitted(req: Request, a: Answers) { Reaches(|GATES|, req, a) }

  predicate FirstRefusal(n: nat, req: Request, a: Answers) {
    n < |GATES| && Reaches(n, req, a) && Refuses(GATES[n], req, a)
  }

  const UNKNOWN_REASON := "未知原因"
  const BAD_CWD := "cwd 非法"
  const NEEDS_SEATBELT := "guard 要求 seatbelt 隔离但调用方未启用 (E7 seatbelt gating)"
  const NEEDS_SEATBELT_STREAMING := "guard 要求 seatbelt 隔离但调用方未启用 (E7 seatbelt gating, streaming)"
  const NO_PROFILE := "请求 sandbox profile 但 sandbox-exec 不可用 (fail_if_unavailable fail-closed)"
  const NO_PROFILE_STREAMING :=
    "请求 sandbox profile 但 sandbox-exec 不可用 (fail_if_unavailable fail-closed, streaming)"

  function OrElse(s: Option<string>, other: string): string {
    if s.Some? then s.value else other
  }

  function Reason(g: Gate, a: Answers, streaming: bool): string {
    match g
    case Security => OrElse(a.verdict.reason, UNKNOWN_REASON)
    case Seatbelt => if streaming then NEEDS_SEATBELT_STREAMING else NEEDS_SEATBELT
    case Profile => if streaming then NO_PROFILE_STREAMING else NO_PROFILE
    case Cwd => OrElse(a.cwdVerdict.reason, BAD_CWD)
    case Binary => if a.binary.Err? then a.binary.error else ""
  }

  function BlockedWith(reason: string, req: Request, trace: string): ExecutionResult {
    DEFAULT_RESULT.(exitCode := EXIT_BLOCKED, blockedBySecurity := true, securityReason := Some(reason),
                    taskId := req.taskId, command := Some(req.command), traceId := Some(trace))
  }

  function BlockedByGuard(reason: string, action: Option<string>, req: Request, trace: string): ExecutionResult {
    BlockedWith(reason, req, trace).(guardActionId := action)
  }

  /** Only the two gates of the guard pass its action id on. */
  function Blocked(g: Gate, req: Request, a: Answers, streaming: bool, trace: string): ExecutionResult {
    BlockedWith(Reason(g, a, streaming), req, trace)
      .(guardActionId := if g == Security || g == Seatbelt then a.verdict.actionId else None)
  }

  // ---------------------------------------------------------------- snapshot and rollback

  predicate Snapshots(req: Request) { (req.enableSnapshot || req.policy.Some?) && req.cwd.Some? }

  /** The snapshot a rollback could go back to. */
  function Anchor(req: Request, a: Answers): Option<string> {
    if Snapshots(req) && a.snapshot.Ok? && a.snapshot.value != "" then Some(a.snapshot.value) else None
  }

  function PreStatus(req: Request, a: Answers): set<Entry> {
    if Snapshots(req) && a.snapshot.Ok? && a.pre.Ok? then a.pre.value else {}
  }

  const QUESTION_MARK: byte := 63

  /** The porcelain codes M, D, R, C and T. */
  const MUTATION_CODES: set<byte> := {77, 68, 82, 67, 84}

  predicate IsTrackedMutation(entry: Entry) {
    |entry| >= 2 &&
    !(entry[0] == QUESTION_MARK && entry[1] == QUESTION_MARK) &&
    (entry[0] in MUTATION_CODES || entry[1] in MUTATION_CODES)
  }

  function NewMutations(pre: set<Entry>, post: set<Entry>): set<Entry> {
    set e | e in post && e !in pre && IsTrackedMutation(e)
  }

  predicate Checks(policy: RollbackPolicy, exitCode: int) { exitCode != 0 && policy.fileDamageCheck }

  predicate Tries(policy: RollbackPolicy, pre: set<Entry>, a: Answers, exitCode: int) {
    Checks(policy, exitCode) && a.post.Ok? && NewMutations(pre, a.post.value) != {}
  }

  predicate GuardFails(policy: RollbackPolicy, pre: set<Entry>, a: Answers, exitCode: int) {
    Checks(policy, exitCode) && (a.post.Err? || (Tries(policy, pre, a, exitCode) && a.rollback.Err?))
  }

  predicate RollsBack(policy: RollbackPolicy, pre: set<Entry>, a: Answers, exitCode: int) {
    Tries(policy, pre, a, exitCode) && a.rollback.Ok? && a.rollback.value.applied
  }

  function SkippedReason(policy: RollbackPolicy, pre: set<Entry>, a: Answers, exitCode: int): Option<string> {
    if Tries(policy, pre, a, exitCode) && a.rollback.Ok? && !a.rollback.value.applied
    then a.rollback.value.skippedReason else None
  }

  predicate Guarded(req: Request, a: Answers) { req.policy.Some? && Anchor(req, a).Some? }

  // ---------------------------------------------------------------- what a finished run reports

  predicate Slices(sb: Sandboxed) { sb.exitCode != 0 && !sb.timedOut }

  /** The output that is diagnosed. */
  function Diagnosable(sb: Sandboxed): Ansi.Text { if sb.stderr != [] then sb.stderr else sb.stdout }

  /** The slicer strips control sequences first, and that can abort. */
  function SliceOf(a: Answers, output: Bytes, cwd: Option<string>): Sliced {
    match Ansi.Scan(output)
    case None => Panics(a.misses)
    case Some(cleaned) => a.slice(cleaned, cwd)
  }

  function SliceAnswer(req: Request, a: Answers, sb: Sandboxed): Sliced {
    SliceOf(a, Diagnosable(sb), req.cwd)
  }

  predicate Panicking(req: Request, a: Answers, sb: Sandboxed) {
    Slices(sb) && SliceAnswer(req, a, sb).Panics?
  }

  function Report(req: Request, a: Answers, sb: Sandboxed, trace: string, duration: real): ExecutionResult
    requires !Panicking(req, a, sb)
  {
    var guarded, pre := Guarded(req, a), PreStatus(req, a);
    DEFAULT_RESULT.(
      exitCode := sb.exitCode, stdout := sb.stdout, stderr := sb.stderr, taskId := req.taskId,
      command := Some(req.command), duration := duration, timedOut := sb.timedOut, snapshotId := Anchor(req, a),
      diagnostics := if Slices(sb) then Some(SliceAnswer(req, a, sb).diagnostics) else None,
      traceId := Some(trace), oomKilled := sb.oomKilled, pid := sb.pid, cancelled := sb.cancelled,
      autoRolledBack := guarded && RollsBack(req.policy.value, pre, a, sb.exitCode),
      rollbackUnavailable :=
        || (req.policy.Some? && req.cwd.Some? && a.snapshot.Err?)
        || (guarded && GuardFails(req.policy.value, pre, a, sb.exitCode)),
      rollbackSkippedReason := if guarded then SkippedReason(req.policy.value, pre, a, sb.exitCode) else None)
  }

  /** "internal panic: " */
  const INTERNAL_PANIC: Bytes := [105, 110, 116, 101, 114, 110, 97, 108, 32, 112, 97, 110, 105, 99, 58, 32]

  function PanicReport(req: Request, message: Bytes, trace: string, duration: real): ExecutionResult {
    DEFAULT_RESULT.(exitCode := EXIT_BLOCKED, stderr := INTERNAL_PANIC + message, taskId := req.taskId,
                    command := Some(req.command), duration := duration, traceId := Some(trace))
  }

  // ---------------------------------------------------------------- what is asked, and when

  function Asked(q: Query, when: bool): seq<Query> { if when then [q] else [] }

  function VerdictQueries(req: Request, a: Answers): seq<Query> {
    [AskVerdict] + Asked(AskSeatbelt, Reaches(2, req, a) && req.profile == Some(true))
  }

  function PlaceQueries(req: Request, a: Answers): seq<Query> {
    Asked(AskCwd, Reaches(3, req, a) && req.cwd.Some?)
    + Asked(AskBinary(FirstToken(req.command)), Reaches(4, req, a) && FirstToken(req.command) != [])
  }

  function GateQueries(req: Request, a: Answers): seq<Query> {
    VerdictQueries(req, a) + PlaceQueries(req, a)
  }

  function SnapshotQueries(req: Request): seq<Query> {
    if Snapshots(req) then [AskSnapshot, AskPre] else []
  }

  function GuardQueries(policy: RollbackPolicy, pre: set<Entry>, a: Answers, exitCode: int): seq<Query> {
    Asked(AskPost, Checks(policy, exitCode)) + Asked(AskRollback, Tries(policy, pre, a, exitCode))
  }

  function ReportQueries(req: Request, a: Answers, sb: Sandboxed): seq<Query> {
    Asked(AskSlice, Slices(sb))
    + if Guarded(req, a) && !Panicking(req, a, sb)
      then GuardQueries(req.policy.value, PreStatus(req, a), a, sb.exitCode) else []
  }
}
