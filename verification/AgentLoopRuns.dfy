/** What every run of the diagnosis loop guarantees, whatever the oracle answers. */
module AgentLoopRuns {
  import opened Text
  import opened ToolTurns
  import opened AgentLoop
  import FinalAnswer

  // ---- What each phase can change ------------------------------------------------------------------------

  lemma ReassessFrame(cfg: Config, a: Answers, r: Run)
    ensures var t := ReassessPhase(cfg, a, r).r;
            && t == r.(extraTokens := t.extraTokens, replans := t.replans, lastReplanStep := t.lastReplanStep,
                       toolsSinceReplan := t.toolsSinceReplan)
            && (|| (t.replans == r.replans && t.lastReplanStep == r.lastReplanStep && t.toolsSinceReplan == r.toolsSinceReplan)
                || (ReassessDue(cfg, r) && t.replans == r.replans + [r.step] && t.lastReplanStep == r.step && !t.toolsSinceReplan))
    ensures ReassessPhase(cfg, a, r).Stop? ==> ReassessPhase(cfg, a, r).exit == Disconnected
  {
  }

  lemma ThinkFrame(cfg: Config, a: Answers, r: Run)
    ensures ThinkPhase(cfg, a, r).r == r.(thinks := r.thinks + 1, tokenUsed := ThinkPhase(cfg, a, r).r.tokenUsed)
    ensures ThinkPhase(cfg, a, r).Go? ==> a.think.Thought?
    ensures ThinkPhase(cfg, a, r).Stop? ==> ThinkPhase(cfg, a, r).exit in {Disconnected, Failed}
  {
  }

  lemma ReflectFrame(cfg: Config, a: Answers, answer: string, r: Run)
    ensures var t := Reflect(cfg, a, answer, r).r;
            && t == r.(maxSteps := t.maxSteps, extraTokens := t.extraTokens, reflections := t.reflections, turns := t.turns)
            && (t.turns == r.turns || t.turns == r.turns + [Turn(answer, [], [])])
    ensures Reflect(cfg, a, answer, r).Stop? ==> Reflect(cfg, a, answer, r).exit in {Disconnected, Streamed}
  {
    hide Extended;
  }

  lemma ConcludeFrame(cfg: Config, a: Answers, r: Run)
    requires a.think.Thought?
    ensures var t := ConcludePhase(cfg, a, r).r;
            && t == r.(maxSteps := t.maxSteps, extraTokens := t.extraTokens, reflections := t.reflections,
                       rewriteAttempts := t.rewriteAttempts, turns := t.turns)
            && (t.turns == r.turns || t.turns == r.turns + [Turn(TrimSpace(a.think.content), [], [])])
  {
    hide Reflect, TrimSpace, ReflectionDue;
    ReflectFrame(cfg, a, TrimSpace(a.think.content), r);
  }

  lemma ActFrame(cfg: Config, a: Answers, r: Run)
    requires a.think.Thought?
    ensures var t := ActPhase(cfg, a, r).r;
            t == r.(extraTokens := t.extraTokens, errStreak := t.errStreak, seen := t.seen,
                    toolsSinceReplan := t.toolsSinceReplan, turns := t.turns, executed := t.executed)
    ensures ActPhase(cfg, a, r).Stop? ==> ActPhase(cfg, a, r).exit in {Disconnected, Streamed}
  {
  }

  // ---- Bounds ------------------------------------------------------------------------------------------

  /** The steps that `reflections` critic rounds allow; unlike the loop's own clamp it charges every extra
      step to a round that took place. */
  function Allowance(cfg: Config, reflections: nat): int {
    cfg.maxSteps + reflections * cfg.maxReflectionSteps
  }

  /** `next` is the step to come: no more steps were started, and the bound they respect was paid for. */
  predicate BoundsOk(cfg: Config, r: Run, next: int) {
    && r.thinks <= next <= Allowance(cfg, r.reflections)
    && r.maxSteps <= Allowance(cfg, r.reflections)
    && r.reflections <= cfg.maxReflections
    && |r.replans| <= cfg.maxReplans
  }

  lemma AllowanceGrows(cfg: Config, reflections: nat)
    requires Normal(cfg)
    ensures Allowance(cfg, reflections + 1) == Allowance(cfg, reflections) + cfg.maxReflectionSteps
    ensures reflections <= cfg.maxReflections ==> Allowance(cfg, reflections) <= Bound(cfg)
  {
    assert (reflections + 1) * cfg.maxReflectionSteps == reflections * cfg.maxReflectionSteps + cfg.maxReflectionSteps;
    if reflections <= cfg.maxReflections {
      assert (cfg.maxReflections - reflections) * cfg.maxReflectionSteps >= 0;
    }
  }

  lemma ReflectKeepsBounds(cfg: Config, a: Answers, answer: string, r: Run)
    requires Normal(cfg) && BoundsOk(cfg, r, r.step + 1) && ReflectionDue(cfg, answer, r)
    ensures BoundsOk(cfg, Reflect(cfg, a, answer, r).r, r.step + 1)
  {
    AllowanceGrows(cfg, r.reflections);
  }

  lemma ConcludeKeepsBounds(cfg: Config, a: Answers, r: Run)
    requires Normal(cfg) && BoundsOk(cfg, r, r.step + 1) && a.think.Thought?
    ensures BoundsOk(cfg, ConcludePhase(cfg, a, r).r, r.step + 1)
  {
    hide Reflect, TrimSpace;
    var answer := TrimSpace(a.think.content);
    if ReflectionDue(cfg, answer, r) {
      ReflectKeepsBounds(cfg, a, answer, r);
    }
  }

  lemma StepKeepsBounds(cfg: Config, a: Answers, r: Run)
    requires Normal(cfg) && BoundsOk(cfg, r, r.step) && r.step < r.maxSteps
    ensures BoundsOk(cfg, StepOnce(cfg, a, r).r, r.step + 1)
  {
    hide ReassessPhase, ThinkPhase, ConcludePhase, ActPhase;
    ReassessFrame(cfg, a, r);
    var r1 := ReassessPhase(cfg, a, r).r;
    ThinkFrame(cfg, a, r1);
    var r2 := ThinkPhase(cfg, a, r1).r;
    if a.think.Thought? {
      ConcludeKeepsBounds(cfg, a, r2);
      ActFrame(cfg, a, r2);
    }
  }

  lemma {:induction false} RunKeepsBounds(cfg: Config, oracle: nat -> Answers, r: Run)
    requires Normal(cfg) && BoundsOk(cfg, r, r.step) && r.maxSteps <= Bound(cfg)
    ensures var last := RunFrom(cfg, oracle, r).1; BoundsOk(cfg, last, Allowance(cfg, last.reflections))
    decreases Bound(cfg) - r.step
  {
    hide StepOnce;
    if r.step < r.maxSteps {
      StepStaysInBound(cfg, oracle(r.step), r);
      StepKeepsBounds(cfg, oracle(r.step), r);
      var flow := StepOnce(cfg, oracle(r.step), r);
      if flow.Go? {
        RunKeepsBounds(cfg, oracle, flow.r.(step := flow.r.step + 1));
      }
    }
  }

  /** Whatever the oracle answers, a run makes at most MaxSteps think calls plus MaxReflectionSteps for each
      critic round it really held, hence at most MaxSteps + MaxReflections * MaxReflectionSteps; at most
      MaxReflections critic rounds and MaxReplans successful reassessments. */
  lemma RunIsBounded(cfg: Config, oracle: nat -> Answers, plan: int)
    requires Normal(cfg)
    ensures var last := RunFrom(cfg, oracle, Init(cfg, plan)).1;
            && last.thinks <= cfg.maxSteps + last.reflections * cfg.maxReflectionSteps <= Bound(cfg)
            && last.reflections <= cfg.maxReflections
            && |last.replans| <= cfg.maxReplans
  {
    RunKeepsBounds(cfg, oracle, Init(cfg, plan));
    AllowanceGrows(cfg, RunFrom(cfg, oracle, Init(cfg, plan)).1.reflections);
  }

  // ---- The bound is reached --------------------------------------------------------------------------------

  /** The last step of the round that follows `k` critic rounds. */
  predicate LastOfRound(cfg: Config, step: nat, k: nat) {
    cfg.maxReflectionSteps > 0 && k < cfg.maxReflections && step == Allowance(cfg, k) - 1
  }

  const NewCall := Invocation("id", "tool", "arguments")

  /** A new tool call in every step, which succeeds. */
  function Calling(step: nat): Answers {
    Answers(ReassessFailed(false), 0, Thought("", [NewCall], 0, 0, true), true, CriticFailed(false), 0,
            (i: nat) => "id", (inv: Invocation) => Accepted(seq(step, _ => 'k')), true, (i: nat) => Outcome(true, ""), 0)
  }

  /** An answer that the critic, with no confidence in it, sends back. */
  const Doubted := Answers(ReassessFailed(false), 0, Thought("draft", [], 0, 0, true), true, Verdict(false, true, 0.0), 0,
                           (i: nat) => "", (inv: Invocation) => Rejected(""), true, (i: nat) => Outcome(true, ""), 0)

  ghost function BusyAt(cfg: Config, step: nat): Answers {
    if exists k: nat :: LastOfRound(cfg, step, k) then Doubted else Calling(step)
  }

  ghost function Busiest(cfg: Config): nat -> Answers {
    (step: nat) => BusyAt(cfg, step)
  }

  /** Every step so far made a think call, the bound stands at what `k` rounds allow, and no round is over
      without its critic. */
  ghost predicate Busy(cfg: Config, r: Run, k: nat) {
    && k == r.reflections <= cfg.maxReflections && r.thinks == r.step
    && r.step <= r.maxSteps == Allowance(cfg, k)
    && (k > 0 ==> Allowance(cfg, k - 1) <= r.step)
    && (k < cfg.maxReflections && cfg.maxReflectionSteps > 0 ==> r.step < r.maxSteps)
    && (forall key :: key in r.seen ==> |key| < r.step)
  }

  lemma AllowanceMonotone(cfg: Config, i: nat, j: nat)
    requires Normal(cfg) && i < j
    ensures Allowance(cfg, i) + cfg.maxReflectionSteps <= Allowance(cfg, j)
  {
    assert (j - i - 1) * cfg.maxReflectionSteps >= 0;
    assert j * cfg.maxReflectionSteps == (j - i - 1) * cfg.maxReflectionSteps + i * cfg.maxReflectionSteps + cfg.maxReflectionSteps;
  }

  lemma OnlyOwnRoundEnds(cfg: Config, r: Run, k: nat, other: nat)
    requires Normal(cfg) && Busy(cfg, r, k) && r.step < r.maxSteps && LastOfRound(cfg, r.step, other)
    ensures other == k
  {
    if other < k {
      AllowanceGrows(cfg, k - 1);
      if other < k - 1 {
        AllowanceMonotone(cfg, other, k - 1);
      }
    } else if other > k {
      AllowanceMonotone(cfg, k, other);
    }
  }

  lemma DoubtedBound(cfg: Config, step: nat, k: nat)
    requires Normal(cfg) && LastOfRound(cfg, step, k)
    ensures Extended(cfg, step, 0.0) == Allowance(cfg, k + 1) > step + 1
  {
    AllowanceGrows(cfg, k);
    AllowanceGrows(cfg, k + 1);
  }

  lemma DoubtedAnswer()
    ensures TrimSpace(Doubted.think.content) != ""
  {
    assert Trimmed("draft");
  }

  lemma DoubtedConclusion(cfg: Config, r: Run)
    requires cfg.maxTokenBudget == 0 && cfg.reflection && r.reflections < cfg.maxReflections && cfg.maxReflectionSteps > 0
    ensures var flow := ConcludePhase(cfg, Doubted, r);
            && flow.Go? && flow.r.step == r.step && flow.r.seen == r.seen && flow.r.thinks == r.thinks
            && flow.r.reflections == r.reflections + 1 && flow.r.maxSteps == Extended(cfg, r.step, 0.0)
  {
    hide Extended, TrimSpace;
    DoubtedAnswer();
  }

  lemma DoubtedThought(cfg: Config, r: Run)
    ensures ThinkPhase(cfg, Doubted, r).Go? && ReassessPhase(cfg, Doubted, r).Go?
  {
    hide TrimSpace;
  }

  lemma DoubtedFlow(cfg: Config, r: Run)
    requires cfg.maxTokenBudget == 0 && cfg.reflection && r.reflections < cfg.maxReflections && cfg.maxReflectionSteps > 0
    ensures var flow := StepOnce(cfg, Doubted, r);
            && flow.Go? && flow.r.step == r.step && flow.r.seen == r.seen && flow.r.thinks == r.thinks + 1
            && flow.r.reflections == r.reflections + 1 && flow.r.maxSteps == Extended(cfg, r.step, 0.0)
  {
    hide ReassessPhase, ThinkPhase, ConcludePhase, Extended;
    ReassessFrame(cfg, Doubted, r);
    DoubtedThought(cfg, r);
    var r1 := ReassessPhase(cfg, Doubted, r).r;
    DoubtedThought(cfg, r1);
    ThinkFrame(cfg, Doubted, r1);
    DoubtedConclusion(cfg, ThinkPhase(cfg, Doubted, r1).r);
  }

  lemma DoubtedStep(cfg: Config, r: Run, k: nat)
    requires Normal(cfg) && cfg.maxTokenBudget == 0 && cfg.reflection && Busy(cfg, r, k) && LastOfRound(cfg, r.step, k)
    ensures var flow := StepOnce(cfg, Doubted, r);
            flow.Go? && flow.r.step == r.step && Busy(cfg, flow.r.(step := r.step + 1), k + 1)
  {
    hide StepOnce, Allowance, Extended;
    DoubtedFlow(cfg, r);
    DoubtedBound(cfg, r.step, k);
  }

  lemma OnePlanned(call: Invocation, check: Invocation -> Check, seen: set<string>, outcome: nat -> Outcome)
    requires check(call).Accepted? && check(call).key !in seen && outcome(0).ok
    ensures Validate([call], check, seen).1 == [Planned(call, check(call).key)]
    ensures SucceededKeys([Planned(call, check(call).key)], outcome) == {check(call).key}
  {
    assert [call][..0] == [];
    assert [Planned(call, check(call).key)][0].key == check(call).key;
  }

  lemma CallingPlan(step: nat, seen: set<string>)
    requires forall key :: key in seen ==> |key| < step
    ensures var a := Calling(step);
            var planned := Validate(WithIDs(a.think.calls, a.generated), a.check, seen).1;
            var key: string := seq(step, _ => 'k');
            planned != [] && SucceededKeys(planned, a.outcome) == {key}
  {
    var a := Calling(step);
    var calls := WithIDs(a.think.calls, a.generated);
    assert calls == [calls[0]];
    hide WithIDs, Validate, SucceededKeys;
    OnePlanned(calls[0], a.check, seen, a.outcome);
  }

  lemma CallingStep(cfg: Config, r: Run, k: nat)
    requires Normal(cfg) && cfg.maxTokenBudget == 0 && Busy(cfg, r, k) && r.step < r.maxSteps && !LastOfRound(cfg, r.step, k)
    ensures var flow := StepOnce(cfg, Calling(r.step), r);
            flow.Go? && flow.r.step == r.step && Busy(cfg, flow.r.(step := r.step + 1), k)
  {
    var a := Calling(r.step);
    ReassessFrame(cfg, a, r);
    var r1 := ReassessPhase(cfg, a, r).r;
    assert r1.seen == r.seen;
    CallingPlan(r.step, r1.seen);
    hide Validate, WithIDs, SucceededKeys, Observations, Executions;
  }

  lemma {:induction false} BusiestFrom(cfg: Config, r: Run, k: nat)
    requires Normal(cfg) && cfg.maxTokenBudget == 0 && cfg.reflection && Busy(cfg, r, k) && r.maxSteps <= Bound(cfg)
    ensures RunFrom(cfg, Busiest(cfg), r).1.thinks == Bound(cfg)
    decreases Bound(cfg) - r.step
  {
    hide StepOnce;
    if r.step < r.maxSteps {
      StepStaysInBound(cfg, BusyAt(cfg, r.step), r);
      var flow := StepOnce(cfg, Busiest(cfg)(r.step), r);
      if other: nat :| LastOfRound(cfg, r.step, other) {
        OnlyOwnRoundEnds(cfg, r, k, other);
        DoubtedStep(cfg, r, k);
        BusiestFrom(cfg, flow.r.(step := r.step + 1), k + 1);
      } else {
        CallingStep(cfg, r, k);
        BusiestFrom(cfg, flow.r.(step := r.step + 1), k);
      }
    } else if cfg.maxReflectionSteps > 0 {
      assert k == cfg.maxReflections;
    }
  }

  /** The bound on think calls is exact: without a token budget some oracle makes a run use all of it. */
  lemma BoundIsReached(cfg: Config, plan: int)
    requires Normal(cfg) && cfg.maxTokenBudget == 0 && cfg.reflection
    ensures RunFrom(cfg, Busiest(cfg), Init(cfg, plan)).1.thinks == Bound(cfg)
  {
    BusiestFrom(cfg, Init(cfg, plan), 0);
  }

  lemma ConcludeRewrites(cfg: Config, a: Answers, r: Run)
    requires a.think.Thought? && r.rewriteAttempts <= 1
    ensures var flow := ConcludePhase(cfg, a, r);
            && flow.r.rewriteAttempts <= (if flow.Go? then 1 else 2)
            && (flow.Stop? ==> (flow.exit == Fallback <==> flow.r.rewriteAttempts == 2))
  {
    hide Reflect, TrimSpace, ReflectionDue;
    ReflectFrame(cfg, a, TrimSpace(a.think.content), r);
  }

  lemma StepRewrites(cfg: Config, a: Answers, r: Run)
    requires r.rewriteAttempts <= 1
    ensures var flow := StepOnce(cfg, a, r);
            && flow.r.rewriteAttempts <= (if flow.Go? then 1 else 2)
            && (flow.Stop? ==> (flow.exit == Fallback <==> flow.r.rewriteAttempts == 2))
  {
    hide ReassessPhase, ThinkPhase, ConcludePhase, ActPhase;
    ReassessFrame(cfg, a, r);
    var r1 := ReassessPhase(cfg, a, r).r;
    ThinkFrame(cfg, a, r1);
    var r2 := ThinkPhase(cfg, a, r1).r;
    if a.think.Thought? {
      ConcludeRewrites(cfg, a, r2);
      ActFrame(cfg, a, r2);
    }
  }

  /** At most one rewrite is asked for: a run that finds a second unusable answer ends at once, and it and no
      other run ends with the fallback text. */
  lemma {:induction false} AtMostOneRewrite(cfg: Config, oracle: nat -> Answers, r: Run)
    requires r.maxSteps <= Bound(cfg) && r.rewriteAttempts <= 1
    ensures var (exit, last) := RunFrom(cfg, oracle, r);
            last.rewriteAttempts <= 2 && (last.rewriteAttempts == 2 <==> exit == Fallback)
    decreases Bound(cfg) - r.step
  {
    hide StepOnce;
    if r.step < r.maxSteps {
      StepStaysInBound(cfg, oracle(r.step), r);
      StepRewrites(cfg, oracle(r.step), r);
      var flow := StepOnce(cfg, oracle(r.step), r);
      if flow.Go? {
        AtMostOneRewrite(cfg, oracle, flow.r.(step := flow.r.step + 1));
      }
    }
  }

  // ---- Why a run ends, and what it spent ---------------------------------------------------------------------

  /** Some answer of the step found the client gone. */
  predicate LosesClient(a: Answers) {
    || a.reassess == ReassessFailed(true) || a.reassess == Reassessed(true, false)
    || a.think == ThinkFailed(true) || (a.think.Thought? && !a.think.sent)
    || a.critic == CriticFailed(true) || !a.alive
  }

  lemma StepExits(cfg: Config, a: Answers, r: Run)
    ensures var flow := StepOnce(cfg, a, r);
            && (flow.Stop? && flow.exit == Disconnected ==> LosesClient(a))
            && (flow.Stop? && flow.exit == Failed ==> a.think == ThinkFailed(false))
  {
    hide TrimSpace, Validate, WithIDs, Executions, Observations, SucceededKeys, Extended;
  }

  /** The loop ends as failed only because the model failed, and silently only because the client was gone: no
      failure of a reassessment, a critic or a tool ever fails a run. */
  lemma {:induction false} ExitsAreExplained(cfg: Config, oracle: nat -> Answers, r: Run)
    requires r.maxSteps <= Bound(cfg)
    ensures var (exit, last) := RunFrom(cfg, oracle, r);
            && (exit == Disconnected ==> LosesClient(oracle(last.step)))
            && (exit == Failed ==> oracle(last.step).think == ThinkFailed(false))
    decreases Bound(cfg) - r.step
  {
    hide StepOnce, LosesClient;
    if r.step < r.maxSteps {
      StepStaysInBound(cfg, oracle(r.step), r);
      StepExits(cfg, oracle(r.step), r);
      var flow := StepOnce(cfg, oracle(r.step), r);
      if flow.Go? {
        ExitsAreExplained(cfg, oracle, flow.r.(step := flow.r.step + 1));
      }
    }
  }

  /** How the whole run ends: with an error only because a model call failed, that of the last step or the final
      answer stream; silently only because the client was gone; and otherwise with the fallback text after a
      second unusable answer or with what a complete final stream said. */
  lemma EndsAreExplained(cfg: Config, oracle: nat -> Answers, stream: nat -> FinalAnswer.Stream, fallback: string, plan: int)
    requires Normal(cfg)
    ensures var (exit, last) := RunFrom(cfg, oracle, Init(cfg, plan));
            match Ending(exit, stream(last.step), fallback)
            case Silent => LosesClient(oracle(last.step)) || FinalAnswer.LosesClient(stream(last.step))
            case Error => oracle(last.step).think == ThinkFailed(false) || FinalAnswer.EndOf(stream(last.step)) == FinalAnswer.Error
            case Answer(text) =>
              if last.rewriteAttempts == 2 then text == fallback
              else text != "" && exists n: nat :: FinalAnswer.CompleteAt(stream(last.step), n)
  {
    hide RunFrom, LosesClient, FinalAnswer.EndOf, FinalAnswer.LosesClient;
    ExitsAreExplained(cfg, oracle, Init(cfg, plan));
    AtMostOneRewrite(cfg, oracle, Init(cfg, plan));
    FinalAnswer.StreamEndIsExplained(stream(RunFrom(cfg, oracle, Init(cfg, plan)).1.step));
  }

  /** The token count of one reply: the provider's if it gives one, else the estimate. */
  function Count(t: Think): int {
    if t.ThinkFailed? then 0 else if t.totalTokens > 0 then t.totalTokens else t.estimate
  }

  /** Some reply of the first `n` steps reported `used` tokens, unless it is zero, and none reported more. */
  ghost predicate IsPeak(oracle: nat -> Answers, n: nat, used: int) {
    && (used == 0 || exists i: nat :: i < n && Count(oracle(i).think) == used)
    && used >= 0 && forall i: nat :: i < n ==> Count(oracle(i).think) <= used
  }

  lemma NextPeak(oracle: nat -> Answers, n: nat, used: int)
    requires IsPeak(oracle, n, used)
    ensures var count := Count(oracle(n).think); used >= 0 && IsPeak(oracle, n + 1, if count > used then count else used)
  {
    hide Count;
  }

  lemma StepKeepsPeak(cfg: Config, oracle: nat -> Answers, r: Run)
    requires r.thinks == r.step && IsPeak(oracle, r.step, r.tokenUsed)
    ensures var flow := StepOnce(cfg, oracle(r.step), r);
            && IsPeak(oracle, flow.r.thinks, flow.r.tokenUsed)
            && (flow.Go? ==> flow.r.thinks == r.step + 1)
  {
    hide ReassessPhase, ConcludePhase, ActPhase, IsPeak;
    var a := oracle(r.step);
    ReassessFrame(cfg, a, r);
    NextPeak(oracle, r.step, r.tokenUsed);
    var r1 := ReassessPhase(cfg, a, r).r;
    if a.think.Thought? {
      var r2 := ThinkPhase(cfg, a, r1).r;
      ConcludeFrame(cfg, a, r2);
      ActFrame(cfg, a, r2);
    }
  }

  /** Counts are cumulative: what a run has used is a count that one of its replies reported, none of them
      reported more, and counts of different replies are never added up. */
  lemma {:induction false} TokenUseIsPeak(cfg: Config, oracle: nat -> Answers, r: Run)
    requires r.maxSteps <= Bound(cfg) && r.thinks == r.step && IsPeak(oracle, r.step, r.tokenUsed)
    ensures var last := RunFrom(cfg, oracle, r).1; IsPeak(oracle, last.thinks, last.tokenUsed)
    decreases Bound(cfg) - r.step
  {
    hide StepOnce, IsPeak;
    if r.step < r.maxSteps {
      StepStaysInBound(cfg, oracle(r.step), r);
      StepKeepsPeak(cfg, oracle, r);
      var flow := StepOnce(cfg, oracle(r.step), r);
      if flow.Go? {
        TokenUseIsPeak(cfg, oracle, flow.r.(step := flow.r.step + 1));
      }
    }
  }

  // ---- Pairing -------------------------------------------------------------------------------------------

  predicate AllPaired(turns: seq<Turn>) {
    forall t :: t in turns ==> Paired(t)
  }

  lemma OneMorePaired(turns: seq<Turn>, turn: Turn)
    requires AllPaired(turns) && Paired(turn)
    ensures AllPaired(turns + [turn])
  {
  }

  lemma DraftPaired(answer: string)
    ensures Paired(Turn(answer, [], []))
  {
    assert ResultIDs([]) == [] == CallIDs([]);
  }

  lemma ActKeepsPaired(cfg: Config, a: Answers, r: Run)
    requires a.think.Thought? && AllPaired(r.turns)
    ensures AllPaired(ActPhase(cfg, a, r).r.turns)
  {
    hide Paired, AllPaired, Validate, WithIDs, Observations;
    var calls := WithIDs(a.think.calls, a.generated);
    var (errors, planned) := Validate(calls, a.check, r.seen);
    if planned == [] {
      BarrenTurnPaired(a.think.content, calls, a.check, r.seen);
      OneMorePaired(r.turns, Turn(a.think.content, calls, errors));
    } else {
      StepTurnPaired(a.think.content, calls, a.check, r.seen, a.outcome);
      OneMorePaired(r.turns, Turn(a.think.content, calls, errors + Observations(planned, a.outcome)));
    }
  }

  lemma StepKeepsPaired(cfg: Config, a: Answers, r: Run)
    requires AllPaired(r.turns)
    ensures AllPaired(StepOnce(cfg, a, r).r.turns)
  {
    hide ReassessPhase, ThinkPhase, ConcludePhase, ActPhase, AllPaired, Paired;
    ReassessFrame(cfg, a, r);
    var r1 := ReassessPhase(cfg, a, r).r;
    ThinkFrame(cfg, a, r1);
    var r2 := ThinkPhase(cfg, a, r1).r;
    if a.think.Thought? {
      ActKeepsPaired(cfg, a, r2);
      ConcludeFrame(cfg, a, r2);
      DraftPaired(TrimSpace(a.think.content));
      OneMorePaired(r.turns, Turn(TrimSpace(a.think.content), [], []));
    }
  }

  /** Every turn a run builds answers its calls one for one, ids and multiplicities included. */
  lemma {:induction false} EveryTurnIsPaired(cfg: Config, oracle: nat -> Answers, r: Run)
    requires r.maxSteps <= Bound(cfg) && AllPaired(r.turns)
    ensures AllPaired(RunFrom(cfg, oracle, r).1.turns)
    decreases Bound(cfg) - r.step
  {
    hide StepOnce, AllPaired;
    if r.step < r.maxSteps {
      StepStaysInBound(cfg, oracle(r.step), r);
      StepKeepsPaired(cfg, oracle(r.step), r);
      var flow := StepOnce(cfg, oracle(r.step), r);
      if flow.Go? {
        EveryTurnIsPaired(cfg, oracle, flow.r.(step := flow.r.step + 1));
      }
    }
  }

  // ---- Deduplication and the token budget ------------------------------------------------------------------

  /** Every execution was within budget, and a key that succeeded is executed again in its own step only. */
  ghost predicate Deduplicated(cfg: Config, executed: seq<Execution>) {
    && (forall e :: e in executed ==> cfg.maxTokenBudget > 0 ==> e.spent <= cfg.maxTokenBudget)
    && (forall i, j :: 0 <= i < j < |executed| && executed[i].ok && executed[i].key == executed[j].key ==>
          executed[j].step == executed[i].step)
  }

  /** Everything executed belongs to an earlier step than `next`, and every key that succeeded is seen. */
  ghost predicate Remembered(executed: seq<Execution>, seen: set<string>, next: int) {
    forall e :: e in executed ==> e.step < next && (e.ok ==> e.key in seen)
  }

  lemma KeysDiffer(executed: seq<Execution>, added: seq<Execution>, seen: set<string>, step: nat, i: nat, j: nat)
    requires Remembered(executed, seen, step) && forall e :: e in added ==> e.key !in seen
    requires i < |executed| && executed[i].ok && j < |added|
    ensures executed[i].key != added[j].key
  {
    assert executed[i] in executed && added[j] in added;
  }

  lemma ExecuteKeepsDedup(cfg: Config, executed: seq<Execution>, added: seq<Execution>, seen: set<string>, step: nat)
    requires Deduplicated(cfg, executed) && Remembered(executed, seen, step)
    requires forall e :: e in added ==> e.step == step && e.key !in seen
    requires forall e :: e in added ==> cfg.maxTokenBudget > 0 ==> e.spent <= cfg.maxTokenBudget
    ensures Deduplicated(cfg, executed + added)
  {
    forall i, j | 0 <= i < |executed| && executed[i].ok && 0 <= j < |added| ensures executed[i].key != added[j].key {
      KeysDiffer(executed, added, seen, step, i, j);
    }
    assert forall j :: 0 <= j < |added| ==> added[j] in added && added[j].step == step;
  }

  lemma ExecutionsFrom(planned: seq<Planned>, outcome: nat -> Outcome, step: nat, spent: int, e: Execution)
    requires e in Executions(planned, outcome, step, spent)
    ensures e.step == step && e.spent == spent && (exists p :: p in planned && p.key == e.key)
    ensures e.ok ==> e.key in SucceededKeys(planned, outcome)
  {
    var i :| 0 <= i < |planned| && Executions(planned, outcome, step, spent)[i] == e;
    assert planned[i] in planned && planned[i].key == e.key;
  }

  lemma ExecutePhaseKeepsDedup(cfg: Config, a: Answers, calls: seq<Invocation>, errors: seq<ResultMessage>,
                               planned: seq<Planned>, r: Run)
    requires a.think.Thought? && Deduplicated(cfg, r.executed) && Remembered(r.executed, r.seen, r.step)
    requires forall p :: p in planned ==> p.key !in r.seen
    requires cfg.maxTokenBudget > 0 ==> Spent(r) <= cfg.maxTokenBudget
    ensures var flow := ExecutePhase(cfg, a, calls, errors, planned, r);
            Deduplicated(cfg, flow.r.executed) && (flow.Go? ==> Remembered(flow.r.executed, flow.r.seen, r.step + 1))
  {
    hide Deduplicated, Executions, SucceededKeys, Observations;
    var added := Executions(planned, a.outcome, r.step, Spent(r));
    forall e | e in added
      ensures e.step == r.step && e.spent == Spent(r) && e.key !in r.seen
      ensures e.ok ==> e.key in SucceededKeys(planned, a.outcome)
    {
      ExecutionsFrom(planned, a.outcome, r.step, Spent(r), e);
    }
    ExecuteKeepsDedup(cfg, r.executed, added, r.seen, r.step);
  }

  lemma ActKeepsDedup(cfg: Config, a: Answers, r: Run)
    requires a.think.Thought? && Deduplicated(cfg, r.executed) && Remembered(r.executed, r.seen, r.step)
    ensures var flow := ActPhase(cfg, a, r);
            Deduplicated(cfg, flow.r.executed) && (flow.Go? ==> Remembered(flow.r.executed, flow.r.seen, r.step + 1))
  {
    hide Deduplicated, Validate, WithIDs, ExecutePhase;
    var calls := WithIDs(a.think.calls, a.generated);
    if !(cfg.maxTokenBudget > 0 && Spent(r) > cfg.maxTokenBudget) {
      PlannedAreFresh(calls, a.check, r.seen);
      var (errors, planned) := Validate(calls, a.check, r.seen);
      ExecutePhaseKeepsDedup(cfg, a, calls, errors, planned, r);
    }
  }

  lemma StepKeepsDedup(cfg: Config, a: Answers, r: Run)
    requires Deduplicated(cfg, r.executed) && Remembered(r.executed, r.seen, r.step)
    ensures var flow := StepOnce(cfg, a, r);
            Deduplicated(cfg, flow.r.executed) && (flow.Go? ==> Remembered(flow.r.executed, flow.r.seen, r.step + 1))
  {
    assert Remembered(r.executed, r.seen, r.step + 1);
    hide ReassessPhase, ThinkPhase, ConcludePhase, ActPhase, Deduplicated, Remembered;
    ReassessFrame(cfg, a, r);
    var r1 := ReassessPhase(cfg, a, r).r;
    ThinkFrame(cfg, a, r1);
    var r2 := ThinkPhase(cfg, a, r1).r;
    if a.think.Thought? {
      ActKeepsDedup(cfg, a, r2);
      ConcludeFrame(cfg, a, r2);
    }
  }

  lemma {:induction false} RunKeepsDedup(cfg: Config, oracle: nat -> Answers, r: Run)
    requires r.maxSteps <= Bound(cfg) && Deduplicated(cfg, r.executed) && Remembered(r.executed, r.seen, r.step)
    ensures Deduplicated(cfg, RunFrom(cfg, oracle, r).1.executed)
    decreases Bound(cfg) - r.step
  {
    hide StepOnce, Deduplicated, Remembered;
    if r.step < r.maxSteps {
      StepStaysInBound(cfg, oracle(r.step), r);
      StepKeepsDedup(cfg, oracle(r.step), r);
      var flow := StepOnce(cfg, oracle(r.step), r);
      if flow.Go? {
        RunKeepsDedup(cfg, oracle, flow.r.(step := flow.r.step + 1));
      }
    }
  }

  /** A tool-and-arguments key that succeeded in one step is never executed in a later step, and no tool is
      executed once the tokens spent exceed the budget. */
  lemma SucceededKeyNeverRunsAgain(cfg: Config, oracle: nat -> Answers, plan: int)
    requires Normal(cfg)
    ensures var executed := RunFrom(cfg, oracle, Init(cfg, plan)).1.executed;
            && (forall i, j :: 0 <= i < j < |executed| && executed[i].ok && executed[i].key == executed[j].key ==>
                  executed[j].step == executed[i].step)
            && (forall e :: e in executed ==> cfg.maxTokenBudget > 0 ==> e.spent <= cfg.maxTokenBudget)
  {
    RunKeepsDedup(cfg, oracle, Init(cfg, plan));
  }

  // ---- Reassessments ---------------------------------------------------------------------------------------

  predicate SucceededBetween(executed: seq<Execution>, from: int, to: int) {
    exists e :: e in executed && e.ok && from <= e.step < to
  }

  function Before(replans: seq<int>, i: int): int
    requires 0 <= i <= |replans|
  {
    if i == 0 then 0 else replans[i - 1]
  }

  /** Successful reassessments are an interval apart and each followed a new successful tool call. */
  ghost predicate Spaced(cfg: Config, replans: seq<int>, executed: seq<Execution>) {
    forall i :: 0 <= i < |replans| ==>
      && replans[i] - Before(replans, i) >= cfg.replanInterval
      && SucceededBetween(executed, Before(replans, i), replans[i])
  }

  /** What the loop remembers about its last reassessment. */
  ghost predicate LastReplanOk(r: Run, next: int) {
    && r.lastReplanStep == Before(r.replans, |r.replans|) < next
    && (r.toolsSinceReplan ==> SucceededBetween(r.executed, r.lastReplanStep, next))
  }

  lemma SpacedSnoc(cfg: Config, replans: seq<int>, executed: seq<Execution>, step: int)
    requires Spaced(cfg, replans, executed)
    requires step - Before(replans, |replans|) >= cfg.replanInterval && SucceededBetween(executed, Before(replans, |replans|), step)
    ensures Spaced(cfg, replans + [step], executed)
  {
    hide SucceededBetween;
    var all := replans + [step];
    forall i | 0 <= i < |all|
      ensures all[i] - Before(all, i) >= cfg.replanInterval && SucceededBetween(executed, Before(all, i), all[i])
    {
      assert Before(all, i) == Before(replans, i);
    }
  }

  lemma StillSucceeded(executed: seq<Execution>, added: seq<Execution>, from: int, to: int, later: int)
    requires SucceededBetween(executed, from, to) && to <= later
    ensures SucceededBetween(executed + added, from, later)
  {
    var e :| e in executed && e.ok && from <= e.step < to;
    assert e in executed + added;
  }

  lemma StillSpaced(cfg: Config, replans: seq<int>, executed: seq<Execution>, added: seq<Execution>)
    requires Spaced(cfg, replans, executed)
    ensures Spaced(cfg, replans, executed + added)
  {
    forall i | 0 <= i < |replans| ensures SucceededBetween(executed + added, Before(replans, i), replans[i]) {
      StillSucceeded(executed, added, Before(replans, i), replans[i], replans[i]);
    }
  }

  lemma ReassessKeepsReplans(cfg: Config, a: Answers, r: Run)
    requires Normal(cfg) && Spaced(cfg, r.replans, r.executed)
    requires r.lastReplanStep == Before(r.replans, |r.replans|) <= r.step
    requires r.toolsSinceReplan ==> SucceededBetween(r.executed, r.lastReplanStep, r.step)
    ensures var t := ReassessPhase(cfg, a, r).r;
            Spaced(cfg, t.replans, t.executed) && LastReplanOk(t, r.step + 1)
  {
    ReassessFrame(cfg, a, r);
    hide ReassessPhase, Spaced, SucceededBetween;
    var t := ReassessPhase(cfg, a, r).r;
    assert r.executed + [] == r.executed;
    if t.replans != r.replans {
      SpacedSnoc(cfg, r.replans, r.executed, r.step);
    } else if r.toolsSinceReplan {
      StillSucceeded(r.executed, [], r.lastReplanStep, r.step, r.step + 1);
    }
  }

  /** The calls a phase executed, all of them in the current step, and one of them succeeded if it says so. */
  lemma ActExecutes(cfg: Config, a: Answers, r: Run) returns (added: seq<Execution>)
    requires a.think.Thought?
    ensures ActPhase(cfg, a, r).r.executed == r.executed + added
    ensures ActPhase(cfg, a, r).r.toolsSinceReplan ==> r.toolsSinceReplan || SucceededBetween(added, r.step, r.step + 1)
  {
    hide Validate, WithIDs, Observations;
    var planned := Validate(WithIDs(a.think.calls, a.generated), a.check, r.seen).1;
    if ActPhase(cfg, a, r).r.executed == r.executed {
      added := [];
    } else {
      added := Executions(planned, a.outcome, r.step, Spent(r));
      if i :| 0 <= i < |planned| && a.outcome(i).ok {
        assert added[i] in added && added[i].ok && added[i].step == r.step;
      }
    }
  }

  lemma ActKeepsReplans(cfg: Config, a: Answers, r: Run)
    requires a.think.Thought? && Spaced(cfg, r.replans, r.executed) && LastReplanOk(r, r.step + 1)
    ensures var t := ActPhase(cfg, a, r).r;
            Spaced(cfg, t.replans, t.executed) && LastReplanOk(t, r.step + 1)
  {
    ActFrame(cfg, a, r);
    var added := ActExecutes(cfg, a, r);
    hide ActPhase;
    StillSpaced(cfg, r.replans, r.executed, added);
    if r.toolsSinceReplan {
      StillSucceeded(r.executed, added, r.lastReplanStep, r.step + 1, r.step + 1);
    }
  }

  lemma StepKeepsReplans(cfg: Config, a: Answers, r: Run)
    requires Normal(cfg) && Spaced(cfg, r.replans, r.executed)
    requires r.lastReplanStep == Before(r.replans, |r.replans|) <= r.step
    requires r.toolsSinceReplan ==> SucceededBetween(r.executed, r.lastReplanStep, r.step)
    ensures var t := StepOnce(cfg, a, r).r;
            Spaced(cfg, t.replans, t.executed) && LastReplanOk(t, r.step + 1)
  {
    hide ReassessPhase, ThinkPhase, ConcludePhase, ActPhase, Spaced, SucceededBetween;
    ReassessKeepsReplans(cfg, a, r);
    ReassessFrame(cfg, a, r);
    var r1 := ReassessPhase(cfg, a, r).r;
    ThinkFrame(cfg, a, r1);
    var r2 := ThinkPhase(cfg, a, r1).r;
    if a.think.Thought? {
      ActKeepsReplans(cfg, a, r2);
      ConcludeFrame(cfg, a, r2);
    }
  }

  lemma {:induction false} RunKeepsReplans(cfg: Config, oracle: nat -> Answers, r: Run)
    requires Normal(cfg) && r.maxSteps <= Bound(cfg) && Spaced(cfg, r.replans, r.executed)
    requires r.lastReplanStep == Before(r.replans, |r.replans|) <= r.step
    requires r.toolsSinceReplan ==> SucceededBetween(r.executed, r.lastReplanStep, r.step)
    ensures var last := RunFrom(cfg, oracle, r).1; Spaced(cfg, last.replans, last.executed)
    decreases Bound(cfg) - r.step
  {
    hide StepOnce, Spaced, SucceededBetween;
    if r.step < r.maxSteps {
      StepStaysInBound(cfg, oracle(r.step), r);
      StepKeepsReplans(cfg, oracle(r.step), r);
      var flow := StepOnce(cfg, oracle(r.step), r);
      if flow.Go? {
        RunKeepsReplans(cfg, oracle, flow.r.(step := flow.r.step + 1));
      }
    }
  }

  lemma {:induction false} SpacingCounts(replans: seq<int>, interval: int, n: nat)
    requires n <= |replans| && forall i :: 0 <= i < |replans| ==> replans[i] - Before(replans, i) >= interval
    ensures n * interval <= Before(replans, n)
  {
    if n > 0 {
      SpacingCounts(replans, interval, n - 1);
      assert n * interval == (n - 1) * interval + interval;
    }
  }

  /** Successful reassessments are at least ReplanInterval steps apart, with a new successful tool call before
      each, so their number times the interval never exceeds the step of the last one. */
  lemma ReassessmentsAreSpaced(cfg: Config, oracle: nat -> Answers, plan: int)
    requires Normal(cfg)
    ensures var last := RunFrom(cfg, oracle, Init(cfg, plan)).1;
            && Spaced(cfg, last.replans, last.executed)
            && |last.replans| * cfg.replanInterval <= Before(last.replans, |last.replans|)
  {
    hide RunFrom, SucceededBetween;
    RunKeepsReplans(cfg, oracle, Init(cfg, plan));
    var last := RunFrom(cfg, oracle, Init(cfg, plan)).1;
    SpacingCounts(last.replans, cfg.replanInterval, |last.replans|);
  }
}
