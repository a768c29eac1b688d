/** What the two pipelines report, field by field, in terms of the request and of what the outside
    world answered. */
module PipelineResults {
  import opened Basics
  import opened Execution
  import opened Pipelines
  import Ansi = StripAnsi

  // ---------------------------------------------------------------- refusals

  /** A result that says no command was run. */
  predicate IsRefusal(req: Request, trace: string, r: ExecutionResult) {
    && r.exitCode == -1 && r.blockedBySecurity && r.securityReason.Some?
    && r.taskId == req.taskId && r.command == Some(req.command) && r.traceId == Some(trace)
    && r.stdout == [] && r.stderr == [] && r.duration == 0.0 && r.pid == None && r.diagnostics == None
    && !r.timedOut && !r.oomKilled && !r.cancelled && r.snapshotId == None
    && !r.autoRolledBack && !r.rollbackUnavailable && r.rollbackSkippedReason == None
  }

  /** The reason and the guard's action id, gate by gate in the order of the gates. */
  predicate Explains(req: Request, a: Answers, seatbeltText: string, profileText: string, r: ExecutionResult) {
    if !a.verdict.allowed then
      && r.securityReason == Some(if a.verdict.reason.Some? then a.verdict.reason.value else "未知原因")
      && r.guardActionId == a.verdict.actionId
    else if a.verdict.seatbeltRequired && !req.seatbelt then
      r.securityReason == Some(seatbeltText) && r.guardActionId == a.verdict.actionId
    else if req.profile == Some(true) && !a.seatbeltAvailable then
      r.securityReason == Some(profileText) && r.guardActionId == None
    else if req.cwd.Some? && !a.cwdVerdict.allowed then
      && r.securityReason == Some(if a.cwdVerdict.reason.Some? then a.cwdVerdict.reason.value else "cwd 非法")
      && r.guardActionId == None
    else
      a.binary.Err? && r.securityReason == Some(a.binary.error) && r.guardActionId == None
  }

  /** The request passes every gate: each one written out. */
  lemma AdmittedExactly(req: Request, a: Answers)
    ensures Admitted(req, a) <==>
              && a.verdict.allowed
              && (a.verdict.seatbeltRequired ==> req.seatbelt)
              && (req.profile == Some(true) ==> a.seatbeltAvailable)
              && (req.cwd.Some? ==> a.cwdVerdict.allowed)
              && (FirstToken(req.command) != [] ==> a.binary.Ok?)
  {
  }

  lemma BlockedExplains(req: Request, a: Answers, streaming: bool, trace: string, r: ExecutionResult)
    requires BlockedAt(req, a, streaming, trace, r)
    ensures IsRefusal(req, trace, r)
    ensures !streaming ==> Explains(req, a, NEEDS_SEATBELT, NO_PROFILE, r)
    ensures streaming ==> Explains(req, a, NEEDS_SEATBELT_STREAMING, NO_PROFILE_STREAMING, r)
  {
  }

  /** The plain pipeline refuses with exit code -1 and the reason of the first gate that does. */
  lemma PlainRefusal(req: Request, a: Answers, trace: string, d: real, o: Outcome)
    requires !Admitted(req, a) && AsyncOutcome(req, a, trace, d, o)
    ensures o.Finished? && IsRefusal(req, trace, o.result)
    ensures Explains(req, a, NEEDS_SEATBELT, NO_PROFILE, o.result)
  {
    BlockedExplains(req, a, false, trace, o.result);
  }

  /** The streaming one sends such a result as its only frame, if the consumer takes one. */
  lemma StreamedRefusal(req: Request, a: Answers, trace: string, d: real, limit: Option<nat>, s: Streamed)
    requires !Admitted(req, a) && StreamOutcome(req, a, trace, d, limit, s)
    ensures s.Sent? && (s.events == [] <==> limit == Some(0))
    ensures limit != Some(0) ==>
              && |s.events| == 1 && s.events[0].Final? && IsRefusal(req, trace, s.events[0].result)
              && Explains(req, a, NEEDS_SEATBELT_STREAMING, NO_PROFILE_STREAMING, s.events[0].result)
  {
    var r :| BlockedAt(req, a, true, trace, r) && s == Sent(UpTo([Final(r)], limit));
    BlockedExplains(req, a, true, trace, r);
  }

  /** `lead` is white space, `token` has none, and white space or nothing follows it. */
  predicate Splits(s: string, lead: string, token: string, rest: string) {
    && s == lead + token + rest
    && (forall i :: 0 <= i < |lead| ==> IsSpace(lead[i] as int))
    && (forall i :: 0 <= i < |token| ==> !IsSpace(token[i] as int))
    && (rest != [] ==> token != [] && IsSpace(rest[0] as int))
  }

  /** The token asked about is the first word, and there is none only in a blank command. */
  lemma {:induction false} FirstTokenSplits(s: string) returns (lead: string, rest: string)
    ensures Splits(s, lead, FirstToken(s), rest)
    decreases |s|
  {
    if s == [] { return [], []; }
    if IsSpace(s[0] as int) {
      lead, rest := FirstTokenSplits(s[1..]);
      assert s == [s[0]] + s[1..];
      lead := [s[0]] + lead;
    } else {
      lead := [];
      rest := WordSplits(s);
    }
  }

  lemma {:induction false} WordSplits(s: string) returns (rest: string)
    ensures s == Word(s) + rest
    ensures forall i :: 0 <= i < |Word(s)| ==> !IsSpace(Word(s)[i] as int)
    ensures rest != [] ==> IsSpace(rest[0] as int)
    decreases |s|
  {
    if s == [] || IsSpace(s[0] as int) { return s; }
    rest := WordSplits(s[1..]);
    assert s == [s[0]] + s[1..];
  }

  // ---------------------------------------------------------------- finished commands

  /** What the caller gets of the process itself. */
  predicate CarriesRun(req: Request, sb: Sandboxed, trace: string, duration: real, r: ExecutionResult) {
    && r.exitCode == sb.exitCode && r.stdout == sb.stdout && r.stderr == sb.stderr
    && r.timedOut == sb.timedOut && r.oomKilled == sb.oomKilled && r.pid == sb.pid
    && r.taskId == req.taskId && r.command == Some(req.command) && r.traceId == Some(trace)
    && r.duration == duration
    && !r.blockedBySecurity && r.securityReason == None && r.guardActionId == None
  }

  /** Diagnostics are there exactly if the command failed in time, and are about its stderr, or about
      its stdout when stderr is empty, without control sequences. */
  predicate CarriesDiagnostics(req: Request, a: Answers, sb: Sandboxed, r: ExecutionResult) {
    if sb.exitCode == 0 || sb.timedOut then r.diagnostics == None
    else
      var cleaned := Ansi.Scan(if sb.stderr == [] then sb.stdout else sb.stderr);
      && cleaned.Some? && r.diagnostics.Some?
      && a.slice(cleaned.value, req.cwd) == Diagnosed(r.diagnostics.value)
  }

  /** There was a snapshot to go back to. */
  predicate HasSnapshot(req: Request, a: Answers) {
    (req.enableSnapshot || req.policy.Some?) && req.cwd.Some? && a.snapshot.Ok? && a.snapshot.value != ""
  }

  /** A porcelain entry that says a tracked file was changed, deleted, renamed, copied or retyped. */
  predicate TellsOfChange(entry: Entry) {
    |entry| >= 2 &&
    exists i :: 0 <= i < 2 && entry[i] in {'M' as int, 'D' as int, 'R' as int, 'C' as int, 'T' as int}
  }

  /** The status after the command tells of a change that the one before it, if there is one, does not. */
  predicate Changed(a: Answers) {
    a.post.Ok? && exists e :: e in a.post.value && (a.pre.Ok? ==> e !in a.pre.value) && TellsOfChange(e)
  }

  /** What the snapshot and the rollback came to, from the answers alone. */
  predicate CarriesRollback(req: Request, a: Answers, exitCode: int, r: ExecutionResult) {
    var wanted := req.policy.Some? && HasSnapshot(req, a) && exitCode != 0 && req.policy.value.fileDamageCheck;
    && r.snapshotId == (if HasSnapshot(req, a) then Some(a.snapshot.value) else None)
    && (r.autoRolledBack <==> wanted && Changed(a) && a.rollback.Ok? && a.rollback.value.applied)
    && r.rollbackSkippedReason ==
       (if wanted && Changed(a) && a.rollback.Ok? && !a.rollback.value.applied
        then a.rollback.value.skippedReason else None)
    && (r.rollbackUnavailable <==>
          || (req.policy.Some? && req.cwd.Some? && a.snapshot.Err?)
          || (wanted && (a.post.Err? || (Changed(a) && a.rollback.Err?))))
  }

  lemma ChangeIsMutation(entry: Entry)
    ensures TellsOfChange(entry) <==> IsTrackedMutation(entry)
  {
    if |entry| >= 2 {
      assert TellsOfChange(entry) <==> entry[0] in MUTATION_CODES || entry[1] in MUTATION_CODES;
    }
  }

  lemma ChangedExactly(req: Request, a: Answers)
    requires HasSnapshot(req, a) && a.post.Ok?
    ensures Changed(a) <==> NewMutations(PreStatus(req, a), a.post.value) != {}
  {
    var pre := PreStatus(req, a);
    forall e: Entry ensures TellsOfChange(e) <==> IsTrackedMutation(e) { ChangeIsMutation(e); }
    if Changed(a) {
      var e :| e in a.post.value && (a.pre.Ok? ==> e !in a.pre.value) && TellsOfChange(e);
      assert e in NewMutations(pre, a.post.value);
    }
    if e :| e in NewMutations(pre, a.post.value) { assert TellsOfChange(e); }
  }

  lemma ReportCarriesRollback(req: Request, a: Answers, sb: Sandboxed, trace: string, d: real)
    requires !Panicking(req, a, sb)
    ensures CarriesRollback(req, a, sb.exitCode, Report(req, a, sb, trace, d))
  {
    assert HasSnapshot(req, a) <==> Anchor(req, a).Some?;
    if HasSnapshot(req, a) && a.post.Ok? { ChangedExactly(req, a); }
  }

  lemma ReportCarries(req: Request, a: Answers, sb: Sandboxed, trace: string, d: real)
    requires !Panicking(req, a, sb)
    ensures var r := Report(req, a, sb, trace, d);
            && CarriesRun(req, sb, trace, d, r) && CarriesDiagnostics(req, a, sb, r)
            && CarriesRollback(req, a, sb.exitCode, r) && r.cancelled == sb.cancelled
  {
    ReportCarriesRollback(req, a, sb, trace, d);
  }

  /** The plain pipeline's result for a command that was run: what the sandbox said, the diagnostics and
      what became of the snapshot; it never says that the command was cancelled. */
  lemma PlainResult(req: Request, a: Answers, trace: string, d: real, o: Outcome)
    requires Admitted(req, a) && AsyncOutcome(req, a, trace, d, o)
    ensures o.Failed? <==> a.run.Err?
    ensures o.Failed? ==> o.error == a.run.error
    ensures o.Finished? ==>
              && CarriesRun(req, a.run.value, trace, d, o.result)
              && CarriesDiagnostics(req, a, a.run.value, o.result)
              && CarriesRollback(req, a, a.run.value.exitCode, o.result) && !o.result.cancelled
  {
    if o.Finished? { ReportCarries(req, a, a.run.value, trace, d); }
  }

  /** What the caller gets when the slicer panics: no output of the process, no rollback field. */
  predicate CarriesPanic(req: Request, message: Bytes, trace: string, duration: real, r: ExecutionResult) {
    && r.exitCode == -1 && r.stdout == [] && |r.stderr| == 16 + |message| && r.stderr[16..] == message
    && r.taskId == req.taskId && r.command == Some(req.command) && r.traceId == Some(trace)
    && r.duration == duration && !r.blockedBySecurity && r.diagnostics == None && r.snapshotId == None
  }

  /** The last frame of a stream whose consumer stays: what the sandbox's first Done event said, with its
      cancelled flag, or the panic. */
  lemma StreamedResult(req: Request, a: Answers, trace: string, d: real, s: Streamed)
    requires Admitted(req, a) && StreamOutcome(req, a, trace, d, None, s)
    requires a.started.Ok? && FirstDone(a.events) < |a.events|
    ensures s.Sent? && |s.events| == FirstDone(a.events) + 1 && s.events[FirstDone(a.events)].Final?
    ensures var sb, r := a.events[FirstDone(a.events)].sb, s.events[FirstDone(a.events)].result;
            if Panicking(req, a, sb) then CarriesPanic(req, SliceAnswer(req, a, sb).message, trace, d, r)
            else
              && CarriesRun(req, sb, trace, d, r) && CarriesDiagnostics(req, a, sb, r)
              && CarriesRollback(req, a, sb.exitCode, r) && r.cancelled == sb.cancelled
  {
    var sb := a.events[FirstDone(a.events)].sb;
    assert s.events == Plan(req, a, a.events, trace, d);
    if !Panicking(req, a, sb) { ReportCarries(req, a, sb, trace, d); }
  }

  /** How many frames reach a consumer that takes `limit` of them. */
  lemma StreamLength(req: Request, a: Answers, trace: string, d: real, limit: Option<nat>, s: Streamed)
    requires Admitted(req, a) && StreamOutcome(req, a, trace, d, limit, s) && a.started.Ok?
    ensures var all := FirstDone(a.events) + if FirstDone(a.events) < |a.events| then 1 else 0;
            s.Sent? && |s.events| == if limit.Some? && limit.value < all then limit.value else all
  {
  }

  // ---------------------------------------------------------------- the order of the questions

  /** The place of a question in the order of the program. */
  function Turn(q: Query): nat {
    match q
    case AskVerdict => 0
    case AskSeatbelt => 1
    case AskCwd => 2
    case AskBinary(_) => 3
    case AskSnapshot => 4
    case AskPre => 5
    case AskRun => 6
    case AskSlice => 7
    case AskPost => 8
    case AskRollback => 9
  }

  /** In this order, no question twice, and all between two places. */
  ghost predicate InTurn(qs: seq<Query>, from: nat, to: nat) {
    && (forall i, j :: 0 <= i < j < |qs| ==> Turn(qs[i]) < Turn(qs[j]))
    && (forall i :: 0 <= i < |qs| ==> from <= Turn(qs[i]) < to)
  }

  lemma InTurnTogether(a: seq<Query>, b: seq<Query>, from: nat, mid: nat, to: nat)
    requires InTurn(a, from, mid) && InTurn(b, mid, to) && from <= mid <= to
    ensures InTurn(a + b, from, to)
  {
  }

  lemma GatesInTurn(req: Request, a: Answers)
    ensures InTurn(GateQueries(req, a), 0, 4)
  {
    InTurnTogether([AskVerdict], Asked(AskSeatbelt, Reaches(2, req, a) && req.profile == Some(true)), 0, 1, 2);
    var cwd := Asked(AskCwd, Reaches(3, req, a) && req.cwd.Some?);
    var binary := Asked(AskBinary(FirstToken(req.command)), Reaches(4, req, a) && FirstToken(req.command) != []);
    InTurnTogether(cwd, binary, 2, 3, 4);
    InTurnTogether(VerdictQueries(req, a), PlaceQueries(req, a), 0, 2, 4);
  }

  lemma GuardInTurn(policy: RollbackPolicy, pre: set<Entry>, a: Answers, exitCode: int)
    ensures InTurn(GuardQueries(policy, pre, a, exitCode), 8, 10)
  {
    var post := Asked(AskPost, Checks(policy, exitCode));
    var rollback := Asked(AskRollback, Tries(policy, pre, a, exitCode));
    assert InTurn(post, 8, 9) && InTurn(rollback, 9, 10);
    InTurnTogether(post, rollback, 8, 9, 10);
  }

  lemma ReportInTurn(req: Request, a: Answers, sb: Sandboxed)
    ensures InTurn(ReportQueries(req, a, sb), 7, 10)
  {
    var guard := Guarded(req, a) && !Panicking(req, a, sb);
    var rest := if guard then GuardQueries(req.policy.value, PreStatus(req, a), a, sb.exitCode) else [];
    if guard { GuardInTurn(req.policy.value, PreStatus(req, a), a, sb.exitCode); }
    assert InTurn(Asked(AskSlice, Slices(sb)), 7, 8) && InTurn(rest, 8, 10);
    InTurnTogether(Asked(AskSlice, Slices(sb)), rest, 7, 8, 10);
  }

  /** Four parts in turn, the last three only if `admitted`. */
  lemma PartsInTurn(gates: seq<Query>, snapshot: seq<Query>, run: seq<Query>, after: seq<Query>, admitted: bool)
    requires InTurn(gates, 0, 4) && InTurn(snapshot, 4, 6) && InTurn(run, 6, 7) && InTurn(after, 7, 10)
    ensures InTurn(gates + if admitted then snapshot + run + after else [], 0, 10)
  {
    InTurnTogether(snapshot, run, 4, 6, 7);
    InTurnTogether(snapshot + run, after, 4, 7, 10);
    InTurnTogether(gates, if admitted then snapshot + run + after else [], 0, 4, 10);
  }

  lemma RunInTurn(req: Request, a: Answers, after: seq<Query>)
    requires InTurn(after, 7, 10)
    ensures InTurn(RunQueries(req, a, after), 0, 10)
  {
    GatesInTurn(req, a);
    PartsInTurn(GateQueries(req, a), SnapshotQueries(req), [AskRun], after, Admitted(req, a));
  }

  /** Both pipelines ask everything at most once and in the same order: the gates, the snapshot, the status
      before, the command, the slicer, the status after, the rollback. */
  lemma QuestionsInTurn(req: Request, a: Answers, limit: Option<nat>)
    ensures InTurn(AsyncQueries(req, a), 0, 10) && InTurn(StreamQueries(req, a, limit), 0, 10)
  {
    if a.run.Ok? { ReportInTurn(req, a, a.run.value); }
    RunInTurn(req, a, if a.run.Ok? then ReportQueries(req, a, a.run.value) else []);
    if ReachesDone(a.events, limit) { ReportInTurn(req, a, a.events[FirstDone(a.events)].sb); }
    RunInTurn(req, a, if a.started.Ok? then ForwardQueries(req, a, limit) else []);
  }

  // ---------------------------------------------------------------- what is asked after the run

  /** Slicer, status and rollback are asked for under exactly these conditions. */
  lemma AsksExactly(req: Request, a: Answers, sb: Sandboxed)
    ensures var asked := ReportQueries(req, a, sb);
            var wanted := req.policy.Some? && HasSnapshot(req, a) && sb.exitCode != 0 &&
                          req.policy.value.fileDamageCheck && !Panicking(req, a, sb);
            && (AskSlice in asked <==> sb.exitCode != 0 && !sb.timedOut)
            && (AskPost in asked <==> wanted)
            && (AskRollback in asked <==> wanted && Changed(a))
            && AskRun !in asked && AskSnapshot !in asked && AskPre !in asked
  {
    assert HasSnapshot(req, a) <==> Anchor(req, a).Some?;
    if HasSnapshot(req, a) && a.post.Ok? { ChangedExactly(req, a); }
    assert AskSlice in Asked(AskSlice, Slices(sb)) <==> Slices(sb);
    if Guarded(req, a) && !Panicking(req, a, sb) {
      var policy, pre := req.policy.value, PreStatus(req, a);
      assert AskPost in Asked(AskPost, Checks(policy, sb.exitCode)) <==> Checks(policy, sb.exitCode);
      var tries := Tries(policy, pre, a, sb.exitCode);
      assert AskRollback in Asked(AskRollback, tries) <==> tries;
    }
  }
}
