/** How the token budget of a request is handed over to the inspection of its response. */
module BudgetHandOver {
  import opened Common
  import opened SseEvents
  import opened StreamInspection
  import opened MixedTerminators

  /** What is left for the response after an allowed open; zero means unlimited to the inspector. */
  function ResponseBudget(tokenBudget: nat, estimatedTokens: nat): nat {
    if tokenBudget == 0 || tokenBudget < estimatedTokens then 0 else tokenBudget - estimatedTokens
  }

  ghost predicate KeepsWithin(tokenBudget: nat, estimatedTokens: nat, policy: Policy, chunks: seq<seq<Byte>>) {
    var s := Run(policy, chunks).0;
    policy.tokenBudget == ResponseBudget(tokenBudget, estimatedTokens) && s.terminal.None? ==>
      estimatedTokens + TokensOf(s.progress.semanticBytes) <= tokenBudget
  }

  /**
   An open is allowed when the estimate is at most the budget. Request and
   response together then stay within it in every run, exactly when the estimate
   is below the budget: an estimate that uses it up leaves the response unlimited.
   */
  lemma CombinedBudgetIff(tokenBudget: nat, estimatedTokens: nat)
    requires 0 < tokenBudget && estimatedTokens <= tokenBudget
    ensures (forall policy: Policy, chunks: seq<seq<Byte>> :: KeepsWithin(tokenBudget, estimatedTokens, policy, chunks))
            <==> estimatedTokens < tokenBudget
  {
    if estimatedTokens < tokenBudget {
      forall policy: Policy, chunks: seq<seq<Byte>>
        ensures KeepsWithin(tokenBudget, estimatedTokens, policy, chunks)
      {
        if Run(policy, chunks).0.terminal.None? {
          AllowedRun(policy, chunks);
        }
      }
    } else {
      var policy := Policy(_ => true, _ => Clean(1), 0, U64_MAX);
      var text: seq<Byte> := [65];
      UnlimitedRun(policy, text);
      assert !KeepsWithin(tokenBudget, estimatedTokens, policy, [Field(text) + LF_LF]);
    }
  }

  lemma UnlimitedRun(policy: Policy, text: seq<Byte>)
    requires Plain(text) && text != [] && text != DONE
    requires policy.isUtf8(Field(text) + LF_LF) && policy.scan(text) == Clean(1)
    requires policy.tokenBudget == 0 && policy.maxResponseBytes == U64_MAX
    ensures var s := Run(policy, [Field(text) + LF_LF]).0;
            s.terminal.None? && s.progress.semanticBytes == 1
  {
    var event := Field(text) + LF_LF;
    LfEvent(text);
    SplitOne(event);
    RunIsCutAndJudge(policy, [event]);
    SplitChunksOne(event);
    JudgeOne(policy, event);
  }

  lemma JudgeOne(policy: Policy, event: seq<Byte>)
    ensures JudgeAll(policy, START.progress, [event]) == Judge(policy, START.progress, event)
  {
    assert [event][1..] == [];
  }
}
