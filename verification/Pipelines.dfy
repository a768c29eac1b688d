/** The two execution pipelines: one answers with a result, the other streams chunks and then it. */
module Pipelines {
  import opened Basics
  import opened Execution
  import opened RollbackGuard
  import Ansi = StripAnsi
  import AnsiFacts = StripAnsiFacts

  datatype Outcome = Finished(result: ExecutionResult) | Failed(error: string) | Panicked(message: Bytes)

  datatype StreamEvent = Piece(data: string) | Final(result: ExecutionResult)

  /** What reaches the consumer; `limit` is how many sends succeed before it drops its end. */
  datatype Streamed = NotStarted(error: string) | Sent(events: seq<StreamEvent>)

  predicate Accepts(sent: nat, limit: Option<nat>) { limit.None? || sent < limit.value }

  function UpTo(plan: seq<StreamEvent>, limit: Option<nat>): seq<StreamEvent> {
    if limit.Some? && limit.value < |plan| then plan[..limit.value] else plan
  }

  // ---------------------------------------------------------------- specification

  /** A refusal by the first gate that refuses. */
  ghost predicate BlockedAt(req: Request, a: Answers, streaming: bool, trace: string, r: ExecutionResult) {
    exists n: nat :: FirstRefusal(n, req, a) && r == Blocked(GATES[n], req, a, streaming, trace)
  }

  function RunQueries(req: Request, a: Answers, after: seq<Query>): seq<Query> {
    GateQueries(req, a) + if Admitted(req, a) then SnapshotQueries(req) + [AskRun] + after else []
  }

  function AsyncQueries(req: Request, a: Answers): seq<Query> {
    RunQueries(req, a, if a.run.Ok? then ReportQueries(req, a, a.run.value) else [])
  }

  /** The sandbox of the plain pipeline cannot be cancelled. */
  ghost predicate AsyncOutcome(req: Request, a: Answers, trace: string, duration: real, o: Outcome) {
    if !Admitted(req, a) then
      o.Finished? && BlockedAt(req, a, false, trace, o.result)
    else if a.run.Err? then o == Failed(a.run.error)
    else if Panicking(req, a, a.run.value) then o == Panicked(SliceAnswer(req, a, a.run.value).message)
    else o == Finished(Report(req, a, a.run.value, trace, duration).(cancelled := false))
  }

  /** The place of the sandbox's first Done event, the length if there is none. */
  function FirstDone(events: seq<SandboxEvent>): (k: nat)
    ensures k <= |events|
    ensures forall i :: 0 <= i < k ==> events[i].Chunk?
    ensures k < |events| ==> events[k].Done?
  {
    if events == [] || events[0].Done? then 0 else 1 + FirstDone(events[1..])
  }

  function Pieces(events: seq<SandboxEvent>): seq<StreamEvent>
    requires forall i :: 0 <= i < |events| ==> events[i].Chunk?
  {
    seq(|events|, i requires 0 <= i < |events| => Piece(events[i].data))
  }

  function FinalOf(req: Request, a: Answers, sb: Sandboxed, trace: string, duration: real): StreamEvent {
    Final(if Panicking(req, a, sb) then PanicReport(req, SliceAnswer(req, a, sb).message, trace, duration)
          else Report(req, a, sb, trace, duration))
  }

  /** Everything a consumer that stays is sent. */
  function Plan(req: Request, a: Answers, events: seq<SandboxEvent>, trace: string, duration: real): seq<StreamEvent> {
    var k := FirstDone(events);
    Pieces(events[..k]) + if k < |events| then [FinalOf(req, a, events[k].sb, trace, duration)] else []
  }

  /** The sandbox's Done event is handled only if the consumer has taken every chunk. */
  predicate ReachesDone(events: seq<SandboxEvent>, limit: Option<nat>) {
    FirstDone(events) < |events| && (limit.None? || FirstDone(events) <= limit.value)
  }

  function ForwardQueries(req: Request, a: Answers, limit: Option<nat>): seq<Query> {
    if ReachesDone(a.events, limit) then ReportQueries(req, a, a.events[FirstDone(a.events)].sb) else []
  }

  function StreamQueries(req: Request, a: Answers, limit: Option<nat>): seq<Query> {
    RunQueries(req, a, if a.started.Ok? then ForwardQueries(req, a, limit) else [])
  }

  ghost predicate StreamOutcome(req: Request, a: Answers, trace: string, duration: real,
                                limit: Option<nat>, o: Streamed) {
    if !Admitted(req, a) then
      exists r :: BlockedAt(req, a, true, trace, r) && o == Sent(UpTo([Final(r)], limit))
    else if a.started.Err? then o == NotStarted(a.started.error)
    else o == Sent(UpTo(Plan(req, a, a.events, trace, duration), limit))
  }

  // ---------------------------------------------------------------- the plain pipeline

  /** The gates of the verdict: security, seatbelt, sandbox profile. */
  method AdmitByVerdict(w: World, req: Request, trace: string) returns (blocked: Option<ExecutionResult>)
    modifies w
    ensures blocked.None? <==> Reaches(3, req, w.answers)
    ensures blocked.Some? ==> BlockedAt(req, w.answers, false, trace, blocked.value)
    ensures w.asked == old(w.asked) + VerdictQueries(req, w.answers)
  {
    ghost var a := w.answers;
    w.Ask(AskVerdict);
    var verdict := w.answers.verdict;
    if !verdict.allowed {
      assert FirstRefusal(0, req, a);
      return Some(BlockedByGuard(OrElse(verdict.reason, UNKNOWN_REASON), verdict.actionId, req, trace));
    }
    if verdict.seatbeltRequired && !req.seatbelt {
      assert FirstRefusal(1, req, a);
      return Some(BlockedByGuard(NEEDS_SEATBELT, verdict.actionId, req, trace));
    }
    if req.profile == Some(true) {
      w.Ask(AskSeatbelt);
      if !w.answers.seatbeltAvailable {
        assert FirstRefusal(2, req, a);
        return Some(BlockedWith(NO_PROFILE, req, trace));
      }
    }
    return None;
  }

  /** The gates of the place: working directory and binary. */
  method AdmitByPlace(w: World, req: Request, trace: string) returns (blocked: Option<ExecutionResult>)
    requires Reaches(3, req, w.answers)
    modifies w
    ensures blocked.None? <==> Admitted(req, w.answers)
    ensures blocked.Some? ==> BlockedAt(req, w.answers, false, trace, blocked.value)
    ensures w.asked == old(w.asked) + PlaceQueries(req, w.answers)
  {
    ghost var a := w.answers;
    if req.cwd.Some? {
      w.Ask(AskCwd);
      if !w.answers.cwdVerdict.allowed {
        assert FirstRefusal(3, req, a);
        return Some(BlockedWith(OrElse(w.answers.cwdVerdict.reason, BAD_CWD), req, trace));
      }
    }
    var firstToken := FirstToken(req.command);
    if firstToken != [] {
      w.Ask(AskBinary(firstToken));
      if w.answers.binary.Err? {
        assert FirstRefusal(4, req, a);
        return Some(BlockedWith(w.answers.binary.error, req, trace));
      }
    }
    return None;
  }

  /** All gates, in order; a result is a refusal. */
  method Admit(w: World, req: Request, trace: string) returns (blocked: Option<ExecutionResult>)
    modifies w
    ensures blocked.None? <==> Admitted(req, w.answers)
    ensures blocked.Some? ==> BlockedAt(req, w.answers, false, trace, blocked.value)
    ensures w.asked == old(w.asked) + GateQueries(req, w.answers)
  {
    blocked := AdmitByVerdict(w, req, trace);
    if blocked.Some? { return; }
    Associates(old(w.asked), VerdictQueries(req, w.answers), PlaceQueries(req, w.answers));
    blocked := AdmitByPlace(w, req, trace);
  }

  /** The snapshot and the status before the command. */
  method TakeSnapshot(w: World, req: Request) returns (failed: bool, id: Option<string>, pre: set<Entry>)
    modifies w
    ensures failed == (Snapshots(req) && w.answers.snapshot.Err?)
    ensures (if id.Some? && id.value != "" then id else None) == Anchor(req, w.answers)
    ensures pre == PreStatus(req, w.answers)
    ensures w.asked == old(w.asked) + SnapshotQueries(req)
  {
    failed, id, pre := false, None, {};
    var wantSnapshot := req.enableSnapshot || req.policy.Some?;
    if wantSnapshot && req.cwd.Some? {
      w.Ask(AskSnapshot);
      w.Ask(AskPre);
      match (w.answers.snapshot, w.answers.pre) {
        case (Ok(i), Ok(st)) => id, pre := Some(i), st;
        case (Ok(i), Err(_)) => id := Some(i);
        case (Err(_), _) => failed := true;
      }
    }
  }

  /** The diagnostics slicer, which begins with stripping control sequences. */
  method Slice(w: World, output: Ansi.Text, cwd: Option<string>) returns (sliced: Sliced)
    modifies w
    ensures sliced == SliceOf(w.answers, output, cwd)
    ensures w.asked == old(w.asked) + [AskSlice]
  {
    w.Ask(AskSlice);
    var ok, cleaned := Ansi.Strip(output);
    if !ok { return Panics(w.answers.misses); }
    return w.answers.slice(cleaned, cwd);
  }

  /** The diagnostics of a command that failed in time; the slicer may panic. */
  method Diagnose(w: World, req: Request, sb: Sandboxed) returns (panic: Option<Bytes>, diagnostics: Option<string>)
    modifies w
    ensures panic == if Panicking(req, w.answers, sb) then Some(SliceAnswer(req, w.answers, sb).message) else None
    ensures panic.None? ==>
              diagnostics == if Slices(sb) then Some(SliceAnswer(req, w.answers, sb).diagnostics) else None
    ensures w.asked == old(w.asked) + Asked(AskSlice, Slices(sb))
  {
    if sb.exitCode == 0 || sb.timedOut { return None, None; }
    var sliced := Slice(w, if sb.stderr != [] then sb.stderr else sb.stdout, req.cwd);
    if sliced.Panics? { return Some(sliced.message), None; }
    return None, Some(sliced.diagnostics);
  }

  /** From the sandbox's result to the pipeline's. */
  method Conclude(w: World, req: Request, sb: Sandboxed, trace: string, duration: real,
                  snapshotFailed: bool, snapshotId: Option<string>, preStatus: set<Entry>) returns (o: Outcome)
    requires snapshotFailed == (Snapshots(req) && w.answers.snapshot.Err?)
    requires (if snapshotId.Some? && snapshotId.value != "" then snapshotId else None) == Anchor(req, w.answers)
    requires preStatus == PreStatus(req, w.answers)
    modifies w
    ensures o == if Panicking(req, w.answers, sb) then Panicked(SliceAnswer(req, w.answers, sb).message)
                 else Finished(Report(req, w.answers, sb, trace, duration).(cancelled := false))
    ensures w.asked == old(w.asked) + ReportQueries(req, w.answers, sb)
  {
    var panic, diagnostics := Diagnose(w, req, sb);
    if panic.Some? { return Panicked(panic.value); }
    var anchor := if snapshotId.Some? && snapshotId.value != "" then snapshotId else None;
    var result := DEFAULT_RESULT.(
      exitCode := sb.exitCode, stdout := sb.stdout, stderr := sb.stderr, taskId := req.taskId,
      command := Some(req.command), duration := duration, timedOut := sb.timedOut, snapshotId := anchor,
      diagnostics := diagnostics, traceId := Some(trace), oomKilled := sb.oomKilled, pid := sb.pid);
    if snapshotFailed && req.policy.Some? {
      result := result.(rollbackUnavailable := true);
    }
    if req.policy.Some? && req.cwd.Some? && anchor.Some? {
      var guard := new AutoRollbackGuard(req.policy.value, preStatus);
      var failed;
      result, failed := guard.RecordResult(w, result);
      if failed { result := result.(rollbackUnavailable := true); }
    }
    return Finished(result);
  }

  method ExecuteAsync(w: World, req: Request, trace: string, duration: real) returns (o: Outcome)
    modifies w
    ensures AsyncOutcome(req, w.answers, trace, duration, o)
    ensures w.asked == old(w.asked) + AsyncQueries(req, w.answers)
  {
    var blocked := Admit(w, req, trace);
    if blocked.Some? { return Finished(blocked.value); }
    var failed, id, pre := TakeSnapshot(w, req);
    w.Ask(AskRun);
    if w.answers.run.Err? { return Failed(w.answers.run.error); }
    o := Conclude(w, req, w.answers.run.value, trace, duration, failed, id, pre);
    InOrder(old(w.asked), req, w.answers, ReportQueries(req, w.answers, w.answers.run.value));
  }

  /** The questions of an admitted request, asked one part after the other. */
  lemma InOrder(before: seq<Query>, req: Request, a: Answers, after: seq<Query>)
    requires Admitted(req, a)
    ensures before + GateQueries(req, a) + SnapshotQueries(req) + [AskRun] + after == before + RunQueries(req, a, after)
  {
    var g, s := GateQueries(req, a), SnapshotQueries(req);
    Associates(before + g, s, [AskRun]);
    Associates(before + g, s + [AskRun], after);
    Associates(before, g, s + [AskRun] + after);
  }

  // ---------------------------------------------------------------- the streaming pipeline

  /** The gates of the verdict: security, seatbelt, sandbox profile. */
  method AdmitStreamingByVerdict(w: World, req: Request, trace: string) returns (blocked: Option<ExecutionResult>)
    modifies w
    ensures blocked.None? <==> Reaches(3, req, w.answers)
    ensures blocked.Some? ==> BlockedAt(req, w.answers, true, trace, blocked.value)
    ensures w.asked == old(w.asked) + VerdictQueries(req, w.answers)
  {
    ghost var a := w.answers;
    w.Ask(AskVerdict);
    var verdict := w.answers.verdict;
    if !verdict.allowed {
      assert FirstRefusal(0, req, a);
      return Some(BlockedByGuard(OrElse(verdict.reason, UNKNOWN_REASON), verdict.actionId, req, trace));
    }
    if verdict.seatbeltRequired && !req.seatbelt {
      assert FirstRefusal(1, req, a);
      return Some(BlockedByGuard(NEEDS_SEATBELT_STREAMING, verdict.actionId, req, trace));
    }
    if req.profile == Some(true) {
      w.Ask(AskSeatbelt);
      if !w.answers.seatbeltAvailable {
        assert FirstRefusal(2, req, a);
        return Some(BlockedWith(NO_PROFILE_STREAMING, req, trace));
      }
    }
    return None;
  }

  /** The gates of the place: working directory and binary. */
  method AdmitStreamingByPlace(w: World, req: Request, trace: string) returns (blocked: Option<ExecutionResult>)
    requires Reaches(3, req, w.answers)
    modifies w
    ensures blocked.None? <==> Admitted(req, w.answers)
    ensures blocked.Some? ==> BlockedAt(req, w.answers, true, trace, blocked.value)
    ensures w.asked == old(w.asked) + PlaceQueries(req, w.answers)
  {
    ghost var a := w.answers;
    if req.cwd.Some? {
      w.Ask(AskCwd);
      if !w.answers.cwdVerdict.allowed {
        assert FirstRefusal(3, req, a);
        return Some(BlockedWith(OrElse(w.answers.cwdVerdict.reason, BAD_CWD), req, trace));
      }
    }
    var firstToken := FirstToken(req.command);
    if firstToken != [] {
      w.Ask(AskBinary(firstToken));
      if w.answers.binary.Err? {
        assert FirstRefusal(4, req, a);
        return Some(BlockedWith(w.answers.binary.error, req, trace));
      }
    }
    return None;
  }

  /** The same gates on the streaming path, with reason texts of its own. */
  method AdmitStreaming(w: World, req: Request, trace: string) returns (blocked: Option<ExecutionResult>)
    modifies w
    ensures blocked.None? <==> Admitted(req, w.answers)
    ensures blocked.Some? ==> BlockedAt(req, w.answers, true, trace, blocked.value)
    ensures w.asked == old(w.asked) + GateQueries(req, w.answers)
  {
    blocked := AdmitStreamingByVerdict(w, req, trace);
    if blocked.Some? { return; }
    Associates(old(w.asked), VerdictQueries(req, w.answers), PlaceQueries(req, w.answers));
    blocked := AdmitStreamingByPlace(w, req, trace);
  }

  /** The same stretch as the streaming path has it. */
  method TakeSnapshotStreaming(w: World, req: Request) returns (failed: bool, id: Option<string>, pre: set<Entry>)
    modifies w
    ensures failed == (Snapshots(req) && w.answers.snapshot.Err?)
    ensures (if id.Some? && id.value != "" then id else None) == Anchor(req, w.answers)
    ensures pre == PreStatus(req, w.answers)
    ensures w.asked == old(w.asked) + SnapshotQueries(req)
  {
    failed, id, pre := false, None, {};
    var wantSnapshot := req.enableSnapshot || req.policy.Some?;
    if wantSnapshot && req.cwd.Some? {
      w.Ask(AskSnapshot);
      w.Ask(AskPre);
      match (w.answers.snapshot, w.answers.pre) {
        case (Ok(i), Ok(st)) => id, pre := Some(i), st;
        case (Ok(i), Err(_)) => id := Some(i);
        case (Err(_), _) => failed := true;
      }
    }
  }

  /** The result sent in the last frame; a panic becomes a result of its own. */
  method ConcludeStreaming(w: World, req: Request, sb: Sandboxed, trace: string, duration: real,
                           snapshotFailed: bool, snapshotId: Option<string>, preStatus: set<Entry>)
    returns (final: StreamEvent)
    requires snapshotFailed == (Snapshots(req) && w.answers.snapshot.Err?)
    requires (if snapshotId.Some? && snapshotId.value != "" then snapshotId else None) == Anchor(req, w.answers)
    requires preStatus == PreStatus(req, w.answers)
    modifies w
    ensures final == FinalOf(req, w.answers, sb, trace, duration)
    ensures w.asked == old(w.asked) + ReportQueries(req, w.answers, sb)
  {
    var diagnostics: Option<string> := None;
    if sb.exitCode != 0 && !sb.timedOut {
      var sliced := Slice(w, if sb.stderr != [] then sb.stderr else sb.stdout, req.cwd);
      if sliced.Panics? { return Final(PanicReport(req, sliced.message, trace, duration)); }
      diagnostics := Some(sliced.diagnostics);
    }
    var anchor := if snapshotId.Some? && snapshotId.value != "" then snapshotId else None;
    var result := DEFAULT_RESULT.(
      exitCode := sb.exitCode, stdout := sb.stdout, stderr := sb.stderr, taskId := req.taskId,
      command := Some(req.command), duration := duration, timedOut := sb.timedOut, snapshotId := anchor,
      diagnostics := diagnostics, traceId := Some(trace), oomKilled := sb.oomKilled, pid := sb.pid,
      cancelled := sb.cancelled);
    if snapshotFailed && req.policy.Some? {
      result := result.(rollbackUnavailable := true);
    }
    if req.policy.Some? && req.cwd.Some? && anchor.Some? {
      var guard := new AutoRollbackGuard(req.policy.value, preStatus);
      var failed;
      result, failed := guard.RecordResult(w, result);
      if failed { result := result.(rollbackUnavailable := true); }
    }
    return Final(result);
  }

  /** The forwarding task: it stops at the sandbox's first Done event, at the end of the events or
      at the first chunk the consumer no longer takes. */
  method Forward(w: World, req: Request, events: seq<SandboxEvent>, trace: string, duration: real,
                 limit: Option<nat>, snapshotFailed: bool, snapshotId: Option<string>, preStatus: set<Entry>)
    returns (sent: seq<StreamEvent>)
    requires snapshotFailed == (Snapshots(req) && w.answers.snapshot.Err?)
    requires (if snapshotId.Some? && snapshotId.value != "" then snapshotId else None) == Anchor(req, w.answers)
    requires preStatus == PreStatus(req, w.answers)
    modifies w
    ensures sent == UpTo(Plan(req, w.answers, events, trace, duration), limit)
    ensures w.asked == old(w.asked) +
              if ReachesDone(events, limit) then ReportQueries(req, w.answers, events[FirstDone(events)].sb) else []
  {
    sent := [];
    var i := 0;
    while i < |events|
      invariant 0 <= i <= FirstDone(events)
      invariant sent == Pieces(events[..i]) && (limit.Some? ==> i <= limit.value)
      invariant w.asked == old(w.asked)
    {
      match events[i] {
        case Chunk(data) =>
          if !Accepts(|sent|, limit) {
            CutShort(req, w.answers, events, trace, duration, i);
            return;
          }
          sent := sent + [Piece(data)];
          OnePiece(events, i);
        case Done(sb) =>
          var final := ConcludeStreaming(w, req, sb, trace, duration, snapshotFailed, snapshotId, preStatus);
          if Accepts(|sent|, limit) { sent := sent + [final]; }
          assert FirstDone(events) == i;
          return;
      }
      i := i + 1;
    }
    assert events[..i] == events;
  }

  lemma OnePiece(events: seq<SandboxEvent>, i: nat)
    requires i < FirstDone(events)
    ensures Pieces(events[..i + 1]) == Pieces(events[..i]) + [Piece(events[i].data)]
  {
  }

  lemma CutShort(req: Request, a: Answers, events: seq<SandboxEvent>, trace: string, duration: real, i: nat)
    requires i < |events| && i < FirstDone(events)
    ensures var plan := Plan(req, a, events, trace, duration); i < |plan| && plan[..i] == Pieces(events[..i])
  {
  }

  method ExecuteStreaming(w: World, req: Request, trace: string, duration: real, limit: Option<nat>)
    returns (o: Streamed)
    modifies w
    ensures StreamOutcome(req, w.answers, trace, duration, limit, o)
    ensures w.asked == old(w.asked) + StreamQueries(req, w.answers, limit)
  {
    var blocked := AdmitStreaming(w, req, trace);
    if blocked.Some? {
      BlockedStream(req, w.answers, trace, duration, limit, blocked.value);
      return Sent(if Accepts(0, limit) then [Final(blocked.value)] else []);
    }
    var failed, id, pre := TakeSnapshotStreaming(w, req);
    w.Ask(AskRun);
    if w.answers.started.Err? { return NotStarted(w.answers.started.error); }
    var sent := Forward(w, req, w.answers.events, trace, duration, limit, failed, id, pre);
    InOrder(old(w.asked), req, w.answers, ForwardQueries(req, w.answers, limit));
    return Sent(sent);
  }

  /** A refusal is sent as the only frame. */
  lemma BlockedStream(req: Request, a: Answers, trace: string, duration: real, limit: Option<nat>, r: ExecutionResult)
    requires !Admitted(req, a) && BlockedAt(req, a, true, trace, r)
    ensures StreamOutcome(req, a, trace, duration, limit, Sent(if Accepts(0, limit) then [Final(r)] else []))
  {
    assert UpTo([Final(r)], limit) == if Accepts(0, limit) then [Final(r)] else [];
  }

  // ---------------------------------------------------------------- what the two have in common

  predicate SameReport(r: ExecutionResult, t: ExecutionResult) {
    r.(duration := 0.0, securityReason := None) == t.(duration := 0.0, securityReason := None)
  }

  /** Both pipelines saw the same command end, and nobody cancelled it. */
  predicate SameRun(a: Answers) {
    && a.run.Ok? && !a.run.value.cancelled && a.started.Ok?
    && FirstDone(a.events) < |a.events| && a.events[FirstDone(a.events)].sb == a.run.value
  }

  /** A stream is pieces and then one final frame. */
  predicate EndsWith(s: Streamed, pieces: seq<StreamEvent>, r: ExecutionResult) {
    s == Sent(pieces + [Final(r)])
  }

  /** The streamed result is the plain one up to duration and reason text; the reasons differ
      exactly at two of the gates. */
  predicate LikeAsync(req: Request, a: Answers, r: ExecutionResult, plain: ExecutionResult) {
    && SameReport(r, plain)
    && (r.securityReason == plain.securityReason <==> !FirstRefusal(1, req, a) && !FirstRefusal(2, req, a))
  }

  /** The chunks that come before the final frame. */
  function PiecesSent(req: Request, a: Answers): seq<StreamEvent> {
    if Admitted(req, a) then Pieces(a.events[..FirstDone(a.events)]) else []
  }

  /** The plain pipeline has a result, and the streaming one sends the chunks and then its like. */
  ghost predicate Agree(req: Request, a: Answers, o: Outcome, s: Streamed) {
    o.Finished? && exists r :: EndsWith(s, PiecesSent(req, a), r) && LikeAsync(req, a, r, o.result)
  }

  lemma AgreeWhenAdmitted(req: Request, a: Answers, trace: string, d: real, e: real, o: Outcome, s: Streamed)
    requires Admitted(req, a) && SameRun(a) && !Panicking(req, a, a.run.value)
    requires AsyncOutcome(req, a, trace, d, o) && StreamOutcome(req, a, trace, e, None, s)
    ensures Agree(req, a, o, s)
  {
    var r := FinalOf(req, a, a.run.value, trace, e).result;
    assert s.events == Plan(req, a, a.events, trace, e);
    assert r.securityReason == None && o.result.securityReason == None;
    assert EndsWith(s, PiecesSent(req, a), r) && LikeAsync(req, a, r, o.result);
  }

  /** A panic while the result is put together escapes from the plain pipeline, whereas the
      streaming one turns it into a result of its own. */
  lemma PanicsDiffer(req: Request, a: Answers, trace: string, d: real, e: real, o: Outcome, s: Streamed)
    requires Admitted(req, a) && SameRun(a) && Panicking(req, a, a.run.value)
    requires AsyncOutcome(req, a, trace, d, o) && StreamOutcome(req, a, trace, e, None, s)
    ensures o.Panicked? && EndsWith(s, PiecesSent(req, a), PanicReport(req, o.message, trace, e))
  {
    assert s.events == Plan(req, a, a.events, trace, e);
  }

  lemma AgreeWhenRefused(req: Request, a: Answers, trace: string, d: real, e: real, o: Outcome, s: Streamed)
    requires !Admitted(req, a)
    requires AsyncOutcome(req, a, trace, d, o) && StreamOutcome(req, a, trace, e, None, s)
    ensures Agree(req, a, o, s)
  {
    var r :| BlockedAt(req, a, true, trace, r) && s == Sent(UpTo([Final(r)], None));
    var n: nat :| FirstRefusal(n, req, a) && r == Blocked(GATES[n], req, a, true, trace);
    RefusedOnce(n, req, a, false, trace, o.result);
    RefusalsAlike(n, req, a, trace);
    assert [] + [Final(r)] == [Final(r)];
    assert EndsWith(s, PiecesSent(req, a), r);
  }

  /** There is only one first refusal. */
  lemma RefusedOnce(n: nat, req: Request, a: Answers, streaming: bool, trace: string, r: ExecutionResult)
    requires FirstRefusal(n, req, a) && BlockedAt(req, a, streaming, trace, r)
    ensures r == Blocked(GATES[n], req, a, streaming, trace)
  {
    var m: nat :| FirstRefusal(m, req, a) && r == Blocked(GATES[m], req, a, streaming, trace);
    assert m == n;
  }

  lemma RefusalsAlike(n: nat, req: Request, a: Answers, trace: string)
    requires FirstRefusal(n, req, a)
    ensures LikeAsync(req, a, Blocked(GATES[n], req, a, true, trace), Blocked(GATES[n], req, a, false, trace))
  {
    ReasonsDiffer();
  }

  /** For the same request and answers and no cancel: the pipelines agree if and only if the
      slicer does not panic on an admitted command, and in any case they ask the same questions
      in the same order. */
  lemma PipelinesAgree(req: Request, a: Answers, trace: string, d: real, e: real, o: Outcome, s: Streamed)
    requires Admitted(req, a) ==> SameRun(a)
    requires AsyncOutcome(req, a, trace, d, o) && StreamOutcome(req, a, trace, e, None, s)
    ensures Agree(req, a, o, s) <==> !(Admitted(req, a) && Panicking(req, a, a.run.value))
    ensures StreamQueries(req, a, None) == AsyncQueries(req, a)
  {
    if !Admitted(req, a) {
      AgreeWhenRefused(req, a, trace, d, e, o, s);
    } else if Panicking(req, a, a.run.value) {
      PanicsDiffer(req, a, trace, d, e, o, s);
    } else {
      AgreeWhenAdmitted(req, a, trace, d, e, o, s);
    }
  }

  lemma ReasonsDiffer()
    ensures NEEDS_SEATBELT != NEEDS_SEATBELT_STREAMING && NO_PROFILE != NO_PROFILE_STREAMING
  {
    assert |NEEDS_SEATBELT| != |NEEDS_SEATBELT_STREAMING|;
    assert |NO_PROFILE| != |NO_PROFILE_STREAMING|;
  }

  /** Chunks in the sandbox's order, then at most one final frame, and nothing after it. */
  lemma StreamShape(req: Request, a: Answers, trace: string, d: real, limit: Option<nat>, s: Streamed, i: nat)
    requires StreamOutcome(req, a, trace, d, limit, s) && s.Sent? && i < |s.events|
    ensures limit.Some? ==> |s.events| <= limit.value
    ensures s.events[i].Final? ==> i == |s.events| - 1
    ensures s.events[i].Piece? ==> Admitted(req, a) && i < FirstDone(a.events) && s.events[i].data == a.events[i].data
    ensures s.events[i].Final? && Admitted(req, a) ==> i == FirstDone(a.events) < |a.events|
  {
    if Admitted(req, a) {
      assert s.events[i] == Plan(req, a, a.events, trace, d)[i];
    }
  }

  /** The command runs exactly if no gate refuses, and only after every gate that has a question
      was asked and, when a rollback may be needed, the snapshot was taken. */
  lemma RunsExactlyWhenAdmitted(req: Request, a: Answers, after: seq<Query>, i: nat)
    requires AskRun !in after
    ensures AskRun in RunQueries(req, a, after) <==> Admitted(req, a)
    ensures i < |RunQueries(req, a, after)| && RunQueries(req, a, after)[i] == AskRun ==>
              var before := RunQueries(req, a, after)[..i];
              && AskVerdict in before
              && (req.profile == Some(true) ==> AskSeatbelt in before)
              && (req.cwd.Some? ==> AskCwd in before)
              && (FirstToken(req.command) != [] ==> AskBinary(FirstToken(req.command)) in before)
              && (Snapshots(req) ==> AskSnapshot in before && AskPre in before)
  {
    var g, s := GateQueries(req, a), SnapshotQueries(req);
    var all := RunQueries(req, a, after);
    if Admitted(req, a) {
      var k := |g + s|;
      assert all == (g + s) + [AskRun] + after;
      assert all[k] == AskRun && all[..k] == g + s;
      assert forall j :: 0 <= j < |all| && j != k ==> all[j] != AskRun;
      AdmittedAsksAll(req, a);
    } else {
      assert all == g + [];
    }
  }

  lemma AdmittedAsksAll(req: Request, a: Answers)
    requires Admitted(req, a)
    ensures var g := GateQueries(req, a);
            && AskVerdict in g
            && (req.profile == Some(true) ==> AskSeatbelt in g)
            && (req.cwd.Some? ==> AskCwd in g)
            && (FirstToken(req.command) != [] ==> AskBinary(FirstToken(req.command)) in g)
  {
    var profile, cwd := Asked(AskSeatbelt, req.profile == Some(true)), Asked(AskCwd, req.cwd.Some?);
    var binary := Asked(AskBinary(FirstToken(req.command)), FirstToken(req.command) != []);
    assert GateQueries(req, a) == [AskVerdict] + profile + cwd + binary;
    assert req.profile == Some(true) ==> AskSeatbelt in profile;
    assert req.cwd.Some? ==> AskCwd in cwd;
    assert FirstToken(req.command) != [] ==> AskBinary(FirstToken(req.command)) in binary;
  }

  // ---------------------------------------------------------------- when the slicer panics

  /** On an admitted run the slicer panics exactly if the command failed in time and either its
      diagnosed output has an odd run of ESC bytes before a character that is not ASCII, or what
      follows the stripping panics. */
  lemma PanicsExactly(req: Request, a: Answers, sb: Sandboxed)
    ensures Panicking(req, a, sb) <==>
              Slices(sb) &&
              ((exists p :: AnsiFacts.Hazard(Diagnosable(sb), p)) ||
               (Ansi.Scan(Diagnosable(sb)).Some? && a.slice(Ansi.Scan(Diagnosable(sb)).value, req.cwd).Panics?))
  {
    AnsiFacts.AbortsExactly(Diagnosable(sb));
  }

  /** Such a byte sequence in the output of a failed command takes the result away from the caller of
      the plain pipeline, and ends the stream in a result about the panic. */
  lemma HazardousOutput(req: Request, a: Answers, trace: string, d: real, e: real, o: Outcome, s: Streamed, p: nat)
    requires Admitted(req, a) && SameRun(a) && Slices(a.run.value)
    requires AnsiFacts.Hazard(Diagnosable(a.run.value), p)
    requires AsyncOutcome(req, a, trace, d, o) && StreamOutcome(req, a, trace, e, None, s)
    ensures o == Panicked(a.misses) && EndsWith(s, PiecesSent(req, a), PanicReport(req, a.misses, trace, e))
  {
    AnsiFacts.AbortsExactly(Diagnosable(a.run.value));
    PanicsDiffer(req, a, trace, d, e, o, s);
  }

  // ---------------------------------------------------------------- what becomes of damage

  predicate Signals(r: ExecutionResult) {
    r.autoRolledBack || r.rollbackUnavailable || r.rollbackSkippedReason.Some?
  }

  /** At most one of the three rollback fields is set. */
  lemma RollbackFieldsExclude(req: Request, a: Answers, sb: Sandboxed, trace: string, d: real)
    ensures var r := FinalOf(req, a, sb, trace, d).result;
            && !(r.autoRolledBack && r.rollbackUnavailable)
            && !(r.autoRolledBack && r.rollbackSkippedReason.Some?)
            && !(r.rollbackUnavailable && r.rollbackSkippedReason.Some?)
  {
    assert Guarded(req, a) ==> a.snapshot.Ok?;
  }

  /** A failed command changed tracked files although the caller asked for a rollback. */
  predicate Damages(req: Request, a: Answers, sb: Sandboxed) {
    && req.policy.Some? && Checks(req.policy.value, sb.exitCode)
    && a.post.Ok? && NewMutations(PreStatus(req, a), a.post.value) != {}
  }

  /** There is a directory and something to go back to, or at least a failure to report, and the
      rollback does not give up without a reason. */
  predicate Answerable(req: Request, a: Answers) {
    && req.cwd.Some?
    && a.snapshot != Ok("")
    && (a.snapshot.Ok? ==> a.rollback.Err? || a.rollback.value.applied || a.rollback.value.skippedReason.Some?)
  }

  /** After damage the final frame says what became of it, except exactly when the slicer panics,
      when there was nothing to go back to - no directory or no snapshot id - or when the rollback
      gave up without a reason. */
  lemma DamageIsSignalledExactly(req: Request, a: Answers, sb: Sandboxed, trace: string, d: real)
    requires Damages(req, a, sb)
    ensures Signals(FinalOf(req, a, sb, trace, d).result) <==> !Panicking(req, a, sb) && Answerable(req, a)
  {
    assert Snapshots(req) <==> req.cwd.Some?;
    assert Tries(req.policy.value, PreStatus(req, a), a, sb.exitCode);
  }

  /** The same of the plain pipeline, whose caller gets no result at all when the slicer panics. */
  lemma PlainDamageIsSignalledExactly(req: Request, a: Answers, trace: string, d: real, o: Outcome)
    requires Admitted(req, a) && a.run.Ok? && Damages(req, a, a.run.value) && AsyncOutcome(req, a, trace, d, o)
    ensures o.Finished? && Signals(o.result) <==> !Panicking(req, a, a.run.value) && Answerable(req, a)
  {
    DamageIsSignalledExactly(req, a, a.run.value, trace, d);
  }

  /** On the streaming path the guard looks for damage exactly if the command was run, its end was
      reached by a consumer that took every chunk, there is a policy, a directory and a snapshot to
      go back to, the command failed with the check enabled, and the slicer does not panic. */
  lemma LooksForDamageExactly(req: Request, a: Answers, limit: Option<nat>)
    ensures AskPost in StreamQueries(req, a, limit) <==>
              && Admitted(req, a) && a.started.Ok? && ReachesDone(a.events, limit)
              && Guarded(req, a)
              && var sb := a.events[FirstDone(a.events)].sb;
                 Checks(req.policy.value, sb.exitCode) && !Panicking(req, a, sb)
  {
    var before := GateQueries(req, a);
    var middle := SnapshotQueries(req) + [AskRun];
    var after := if a.started.Ok? then ForwardQueries(req, a, limit) else [];
    assert AskPost !in before && AskPost !in middle;
    assert StreamQueries(req, a, limit) == before + if Admitted(req, a) then middle + after else [];
    if a.started.Ok? && ReachesDone(a.events, limit) { LooksAfterSlicing(req, a, a.events[FirstDone(a.events)].sb); }
  }

  lemma LooksAfterSlicing(req: Request, a: Answers, sb: Sandboxed)
    ensures AskPost in ReportQueries(req, a, sb) <==>
              Guarded(req, a) && !Panicking(req, a, sb) && Checks(req.policy.value, sb.exitCode)
  {
    assert AskPost !in Asked(AskSlice, Slices(sb));
    if Guarded(req, a) && !Panicking(req, a, sb) {
      var policy, pre := req.policy.value, PreStatus(req, a);
      assert AskPost in Asked(AskPost, Checks(policy, sb.exitCode)) <==> Checks(policy, sb.exitCode);
      assert AskPost !in Asked(AskRollback, Tries(policy, pre, a, sb.exitCode));
    }
  }

  /** A command that writes an ESC before an accented letter, deletes a tracked file and fails: a
      snapshot was taken and a rollback would succeed, yet it is not tried, nothing is said about
      it, and the plain pipeline panics. */
  lemma UnsignalledDamage() returns (req: Request, a: Answers)
    ensures Admitted(req, a) && Guarded(req, a) && SameRun(a) && Damages(req, a, a.run.value)
    ensures a.rollback.Ok? && a.rollback.value.applied
    ensures AskPost !in StreamQueries(req, a, None)
    ensures forall trace, d, o :: AsyncOutcome(req, a, trace, d, o) ==> o.Panicked?
    ensures forall trace, d, s :: StreamOutcome(req, a, trace, d, None, s) ==>
              s.Sent? && |s.events| == 1 && s.events[0].Final? && !Signals(s.events[0].result)
  {
    var output: Bytes := [Ansi.ESC, 0xC3, 0xA9];
    assert output[1..][2..] == [];
    assert AnsiFacts.Hazard(output, 0);
    AnsiFacts.AbortsExactly(output);
    var sb := Sandboxed(1, [], output, false, false, None, false);
    var yes := Verdict(true, None, None, false);
    var deleted: Entry := [68, 32, 97];
    req := Request("x", Some("/"), None, false, None, false, Some(RollbackPolicy(true)));
    a := Answers(yes, true, yes, Ok(()), Ok("id"), Ok({}), Ok(sb), Ok(()), [Done(sb)], [], (text, cwd) => Diagnosed(""),
                 Ok({deleted}), Ok(RollbackOutcome(true, None)));
    assert deleted in NewMutations({}, {deleted});
    assert FirstDone(a.events) == 0;
    LooksForDamageExactly(req, a, None);
    PanicsExactly(req, a, sb);
    forall trace, d, s | StreamOutcome(req, a, trace, d, None, s)
      ensures s.Sent? && |s.events| == 1 && s.events[0].Final? && !Signals(s.events[0].result)
    {
      DamageIsSignalledExactly(req, a, sb, trace, d);
    }
  }
}
