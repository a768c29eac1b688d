/** The automatic rollback guard of one execution. */
module RollbackGuard {
  import opened Basics
  import opened Execution

  /** The result with what a rollback, tried or not, came to. */
  function WithFindings(result: ExecutionResult, policy: RollbackPolicy, pre: set<Entry>, a: Answers): ExecutionResult {
    var skipped := SkippedReason(policy, pre, a, result.exitCode);
    result.(
      autoRolledBack := result.autoRolledBack || RollsBack(policy, pre, a, result.exitCode),
      rollbackSkippedReason := if skipped.Some? then skipped else result.rollbackSkippedReason)
  }

  class AutoRollbackGuard {
    const policy: RollbackPolicy
    const pre: set<Entry>
    var recorded: bool

    constructor (policy: RollbackPolicy, pre: set<Entry>)
      ensures this.policy == policy && this.pre == pre && !recorded
    {
      this.policy := policy;
      this.pre := pre;
      recorded := false;
    }

    method DetectDamage(w: World) returns (damaged: Result<nat, string>)
      modifies w
      ensures w.asked == old(w.asked) + [AskPost]
      ensures damaged == match w.answers.post
                         case Ok(post) => Ok(|NewMutations(pre, post)|)
                         case Err(e) => Err(e)
    {
      w.Ask(AskPost);
      if w.answers.post.Err? { return Err(w.answers.post.error); }
      var rest := w.answers.post.value;
      var count := 0;
      while rest != {}
        invariant rest <= w.answers.post.value && w.asked == old(w.asked) + [AskPost]
        invariant count == |NewMutations(pre, w.answers.post.value - rest)|
        decreases rest
      {
        var entry :| entry in rest;
        OneEntry(pre, w.answers.post.value, rest, entry);
        if entry !in pre && IsTrackedMutation(entry) { count := count + 1; }
        rest := rest - {entry};
      }
      assert w.answers.post.value - {} == w.answers.post.value;
      return Ok(count);
    }

    /** The result with the guard's findings, and whether the guard itself failed. */
    method RecordResult(w: World, result: ExecutionResult) returns (r: ExecutionResult, failed: bool)
      modifies this, w
      ensures recorded
      ensures w.asked == old(w.asked) + GuardQueries(policy, pre, w.answers, result.exitCode)
      ensures failed == GuardFails(policy, pre, w.answers, result.exitCode)
      ensures r == WithFindings(result, policy, pre, w.answers)
    {
      recorded := true;
      if result.exitCode == 0 { return result, false; }
      if !policy.fileDamageCheck { return result, false; }
      var damaged := DetectDamage(w);
      if damaged.Err? { return result, true; }
      if damaged.value == 0 { return result, false; }
      w.Ask(AskRollback);
      if w.answers.rollback.Err? { return result, true; }
      var outcome := w.answers.rollback.value;
      if outcome.applied {
        return result.(autoRolledBack := true), false;
      }
      if outcome.skippedReason.Some? {
        return result.(rollbackSkippedReason := outcome.skippedReason), false;
      }
      return result, false;
    }
  }

  /** Looking at one more entry of the status counts it exactly if it is a new mutation. */
  lemma OneEntry(pre: set<Entry>, post: set<Entry>, rest: set<Entry>, entry: Entry)
    requires entry in rest && rest <= post
    ensures |NewMutations(pre, post - (rest - {entry}))| ==
            |NewMutations(pre, post - rest)| + (if entry !in pre && IsTrackedMutation(entry) then 1 else 0)
  {
    var seen := NewMutations(pre, post - rest);
    assert entry !in seen;
    assert NewMutations(pre, post - (rest - {entry})) ==
           if entry !in pre && IsTrackedMutation(entry) then seen + {entry} else seen;
  }

  /** Untracked and newly added entries are never damage; any other entry is, exactly if one of
      its two codes says that a tracked file changed. */
  lemma MutationCodesDecide(entry: Entry)
    ensures IsTrackedMutation(entry) <==>
              |entry| >= 2 &&
              exists i :: 0 <= i < 2 && entry[i] in {'M' as int, 'D' as int, 'R' as int, 'C' as int, 'T' as int}
  {
    if |entry| >= 2 {
      assert QUESTION_MARK !in MUTATION_CODES;
      assert IsTrackedMutation(entry) ==> entry[0] in MUTATION_CODES || entry[1] in MUTATION_CODES;
    }
  }
}
