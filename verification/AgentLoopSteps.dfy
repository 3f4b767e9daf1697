/** What one step of the diagnosis loop does, in terms of what was configured, remembered and answered. */
module AgentLoopSteps {
  import opened Text
  import opened ToolTurns
  import opened AgentLoop
  import opened AgentLoopRuns

  /** What a step starts its own work with: the tokens of a reassessment that was due are charged. */
  function Charged(cfg: Config, a: Answers, r: Run): int {
    r.extraTokens + if ReassessDue(cfg, r) then a.reassessTokens else 0
  }

  /** The tokens spent once the model has answered. */
  function SpentBy(cfg: Config, a: Answers, r: Run): int {
    (if Count(a.think) > r.tokenUsed then Count(a.think) else r.tokenUsed) + Charged(cfg, a, r)
  }

  /** The client was gone when the revised plan or the thinking text was sent, or before the model was asked. */
  predicate CutShort(cfg: Config, a: Answers, r: Run)
    requires a.think.Thought?
  {
    || (ReassessDue(cfg, r) && (a.reassess == ReassessFailed(true) || (cfg.replanning && a.reassess == Reassessed(true, false))))
    || (!cfg.streamThink && a.think.calls != [] && TrimSpace(a.think.content) != "" && !a.think.sent)
  }

  /** A reassessment takes place exactly when plan or ledger can be revised, a tool succeeded since the last one, the
      interval has passed, and neither the number of reassessments nor the token budget is used up. The model is
      then asked, unless the reassessment found the client gone. */
  lemma ReassessesExactly(cfg: Config, a: Answers, r: Run)
    ensures var due := (cfg.replanning || cfg.hasLedger) && r.toolsSinceReplan
                       && r.step - r.lastReplanStep >= cfg.replanInterval && |r.replans| < cfg.maxReplans
                       && (cfg.maxTokenBudget <= 0 || r.tokenUsed + r.extraTokens < cfg.maxTokenBudget);
            var gone := due && (a.reassess == ReassessFailed(true) || (cfg.replanning && a.reassess == Reassessed(true, false)));
            var flow := StepOnce(cfg, a, r);
            && (ReassessDue(cfg, r) <==> due)
            && flow.r.replans == (if due && a.reassess.Reassessed? then r.replans + [r.step] else r.replans)
            && flow.r.lastReplanStep == (if due && a.reassess.Reassessed? then r.step else r.lastReplanStep)
            && flow.r.thinks == (if gone then r.thinks else r.thinks + 1)
            && (gone ==> flow.Stop? && flow.exit == Disconnected)
  {
    hide ThinkPhase, ConcludePhase, ActPhase;
    var r1 := ReassessPhase(cfg, a, r).r;
    ThinkFrame(cfg, a, r1);
    if a.think.Thought? {
      var r2 := ThinkPhase(cfg, a, r1).r;
      ConcludeFrame(cfg, a, r2);
      ActFrame(cfg, a, r2);
    }
  }

  /** A model call that fails ends the run, as failed unless the client is gone. */
  lemma FailedThoughtEnds(cfg: Config, a: Answers, r: Run)
    requires a.think.ThinkFailed? && StepOnce(cfg, a, r).r.thinks == r.thinks + 1
    ensures StepOnce(cfg, a, r).Stop?
    ensures StepOnce(cfg, a, r).exit == if a.think.disconnected then Disconnected else Failed
  {
    ReassessFrame(cfg, a, r);
  }

  /** The state in which a thought that was not cut short is acted on. */
  lemma ReachesAction(cfg: Config, a: Answers, r: Run) returns (mid: Run)
    requires a.think.Thought? && !CutShort(cfg, a, r)
    ensures StepOnce(cfg, a, r) == if a.think.calls == [] then ConcludePhase(cfg, a, mid) else ActPhase(cfg, a, mid)
    ensures Spent(mid) == SpentBy(cfg, a, r) && mid.extraTokens == Charged(cfg, a, r)
    ensures mid.step == r.step && mid.maxSteps == r.maxSteps && mid.errStreak == r.errStreak && mid.seen == r.seen
    ensures mid.reflections == r.reflections && mid.rewriteAttempts == r.rewriteAttempts && mid.turns == r.turns
    ensures mid.executed == r.executed && mid.toolsSinceReplan == Unplanned(cfg, a, r)
  {
    hide ConcludePhase, ActPhase, TrimSpace;
    ReassessFrame(cfg, a, r);
    var r1 := ReassessPhase(cfg, a, r).r;
    ThinkFrame(cfg, a, r1);
    mid := ThinkPhase(cfg, a, r1).r;
  }

  lemma CutShortEnds(cfg: Config, a: Answers, r: Run)
    requires a.think.Thought? && CutShort(cfg, a, r)
    ensures StepOnce(cfg, a, r).Stop? && StepOnce(cfg, a, r).exit == Disconnected
    ensures StepOnce(cfg, a, r).r.executed == r.executed && StepOnce(cfg, a, r).r.turns == r.turns
  {
    hide ConcludePhase, ActPhase, TrimSpace;
  }

  /** The executions of a step, in the order of its calls. */
  function Ran(plans: seq<Planned>, outcome: nat -> Outcome, step: nat, spent: int): (ran: seq<Execution>)
    ensures |ran| == |plans|
  {
    seq(|plans|, j requires 0 <= j < |plans| => Execution(step, plans[j].key, outcome(j).ok, spent))
  }

  /** The results of a step's executed calls, in order. */
  function Seen(plans: seq<Planned>, outcome: nat -> Outcome): (results: seq<ResultMessage>)
    ensures |results| == |plans|
  {
    seq(|plans|, j requires 0 <= j < |plans| => ResultMessage(plans[j].inv.id, plans[j].inv.name, outcome(j).observation))
  }

  lemma ObservedExactly(plans: seq<Planned>, outcome: nat -> Outcome)
    ensures Observations(plans, outcome) == Seen(plans, outcome)
  {
    forall j | 0 <= j < |plans| ensures Observations(plans, outcome)[j] == Seen(plans, outcome)[j] {
      assert Observations(plans, outcome)[j] == Observe(plans[j], outcome(j));
    }
  }

  /** After a step exactly the keys seen before it and those of its successful executions are seen. */
  predicate SeenNow(now: set<string>, before: set<string>, plans: seq<Planned>, outcome: nat -> Outcome) {
    && before <= now
    && (forall j :: 0 <= j < |plans| && outcome(j).ok ==> plans[j].key in now)
    && (forall key <- now :: key in before || SucceededUnder(key, plans, outcome))
  }

  predicate SucceededUnder(key: string, plans: seq<Planned>, outcome: nat -> Outcome) {
    exists j :: 0 <= j < |plans| && plans[j].key == key && outcome(j).ok
  }

  predicate SomeOk(plans: seq<Planned>, outcome: nat -> Outcome) {
    exists j :: 0 <= j < |plans| && outcome(j).ok
  }

  /** Successes of earlier steps are still without a reassessment. */
  predicate Unplanned(cfg: Config, a: Answers, r: Run) {
    r.toolsSinceReplan && !(ReassessDue(cfg, r) && a.reassess.Reassessed?)
  }

  lemma SomeOkIffSucceeded(plans: seq<Planned>, outcome: nat -> Outcome)
    ensures SomeOk(plans, outcome) <==> SucceededKeys(plans, outcome) != {}
  {
    if j :| 0 <= j < |plans| && outcome(j).ok {
      assert plans[j].key in SucceededKeys(plans, outcome);
    }
  }

  /** A thought that asks for tools goes on to the final answer in exactly two cases: the tokens spent exceed a
      budget, or none of its calls is accepted under a key that no earlier step succeeded with and too many such
      steps followed one another. In every other case with such calls, all of them are executed, in order, and
      once more the run goes on unless the client is gone. */
  lemma ToolStepExactly(cfg: Config, a: Answers, r: Run)
    requires a.think.Thought? && a.think.calls != [] && !CutShort(cfg, a, r)
    ensures var calls := WithIDs(a.think.calls, a.generated);
            var plans := Fresh(calls, a.check, r.seen);
            var spent := SpentBy(cfg, a, r);
            var over := cfg.maxTokenBudget > 0 && spent > cfg.maxTokenBudget;
            var flow := StepOnce(cfg, a, r);
            && (flow.Stop? && flow.exit == Streamed <==> over || (plans == [] && r.errStreak + 1 >= cfg.maxToolErrors))
            && (flow.Stop? && flow.exit == Disconnected <==> !over && plans != [] && !a.alive)
            && flow.r.executed == (if over then r.executed else r.executed + Ran(plans, a.outcome, r.step, spent))
            && flow.r.errStreak == (if over then r.errStreak else if plans == [] then r.errStreak + 1 else 0)
            && (over ==> flow.r.turns == r.turns && flow.r.seen == r.seen)
            && (!over && plans == [] ==>
                  flow.r.turns == r.turns + [Turn(a.think.content, calls, Refusals(calls, a.check, r.seen))] && flow.r.seen == r.seen)
            && (flow.Go? && plans != [] ==>
                  && flow.r.toolsSinceReplan == (Unplanned(cfg, a, r) || SomeOk(plans, a.outcome))
                  && flow.r.extraTokens == Charged(cfg, a, r) + (if cfg.compress then a.compressTokens else 0)
                  && flow.r.turns == r.turns + [Turn(a.think.content, calls, Refusals(calls, a.check, r.seen) + Seen(plans, a.outcome))]
                  && SeenNow(flow.r.seen, r.seen, plans, a.outcome))
  {
    hide StepOnce, Fresh, Refusals, WithIDs, Validate, CutShort, SpentBy, Charged, Unplanned, SomeOk;
    var mid := ReachesAction(cfg, a, r);
    var calls := WithIDs(a.think.calls, a.generated);
    ValidateIsExact(calls, a.check, r.seen);
    var plans := Fresh(calls, a.check, r.seen);
    assert Executions(plans, a.outcome, r.step, Spent(mid)) == Ran(plans, a.outcome, r.step, Spent(mid));
    ObservedExactly(plans, a.outcome);
    SomeOkIffSucceeded(plans, a.outcome);
  }

  /** A thought without tool calls: an unusable answer is rewritten once and then replaced by the fallback; a usable
      one goes to the critic while rounds, steps and budget for it are left, and is streamed otherwise; one the
      critic doubts, with something to look for, sends the run back for more steps, and only that does. */
  lemma AnswerStepExactly(cfg: Config, a: Answers, r: Run)
    requires a.think.Thought? && a.think.calls == [] && !CutShort(cfg, a, r)
    ensures var answer := TrimSpace(a.think.content);
            var spent := SpentBy(cfg, a, r);
            var critic := a.substantive && r.reflections < cfg.maxReflections && answer != "" && cfg.reflection
                          && cfg.maxReflectionSteps > 0 && (cfg.maxTokenBudget <= 0 || spent < cfg.maxTokenBudget);
            var doubted := critic && a.critic.Verdict? && !a.critic.supported && a.critic.guidance;
            var flow := StepOnce(cfg, a, r);
            && flow.r.executed == r.executed && flow.r.errStreak == r.errStreak && flow.r.seen == r.seen
            && flow.r.rewriteAttempts == (if a.substantive then r.rewriteAttempts else r.rewriteAttempts + 1)
            && flow.r.reflections == (if critic then r.reflections + 1 else r.reflections)
            && flow.r.extraTokens == Charged(cfg, a, r) + (if critic then a.criticTokens else 0)
            && (flow.Go? <==> doubted || (!a.substantive && r.rewriteAttempts == 0))
            && (flow.Stop? && flow.exit == Fallback <==> !a.substantive && r.rewriteAttempts > 0)
            && (flow.Stop? && flow.exit == Disconnected <==> critic && a.critic == CriticFailed(true))
            && !(flow.Stop? && flow.exit == Failed)
            && flow.r.turns == (if doubted then r.turns + [Turn(answer, [], [])] else r.turns)
            && (!doubted ==> flow.r.maxSteps == r.maxSteps)
            && (doubted ==>
                  var wanted := r.step + 1 + Supplement(a.critic.confidence, cfg.maxReflectionSteps);
                  var limit := cfg.maxSteps + cfg.maxReflections * cfg.maxReflectionSteps;
                  flow.r.maxSteps == if limit < wanted then limit else wanted)
  {
    hide StepOnce, CutShort, SpentBy, Charged, TrimSpace, Supplement;
    var mid := ReachesAction(cfg, a, r);
  }

  /** The steps that a confidence leaves, linearly, beyond the first. */
  function Share(confidence: real, max: int): real {
    (1.0 - confidence) * ((max - 1) as real)
  }

  /** The lower the critic's confidence, the more steps: all of them for none, one for full confidence, and the rounded
      share in between. */
  lemma LessConfidenceMoreSteps(low: real, high: real, max: int)
    requires max >= 1
    ensures low <= high ==> Supplement(low, max) >= Supplement(high, max)
    ensures low <= 0.0 ==> Supplement(low, max) == max
    ensures high >= 1.0 ==> Supplement(high, max) == 1
    ensures max > 1 && 0.0 < low < 1.0 ==>
              1.0 + Share(low, max) - 0.5 < Supplement(low, max) as real <= 1.0 + Share(low, max) + 0.5
  {
    hide Supplement, Share;
    StepsAtEnds(low, max);
    StepsAtEnds(high, max);
    if max > 1 && 0.0 < low < 1.0 {
      StepsBetween(low, max);
      if low <= high < 1.0 {
        StepsBetween(high, max);
        LargerShare(low, high, max);
        FloorIsMonotone(Share(high, max) + 0.5, Share(low, max) + 0.5);
      }
    }
  }

  lemma StepsAtEnds(confidence: real, max: int)
    requires max >= 1
    ensures confidence <= 0.0 || max == 1 ==> Supplement(confidence, max) == max
    ensures confidence >= 1.0 ==> Supplement(confidence, max) == 1
  {
  }

  lemma StepsBetween(confidence: real, max: int)
    requires max > 1 && 0.0 < confidence < 1.0
    ensures Supplement(confidence, max) == 1 + (Share(confidence, max) + 0.5).Floor
  {
    LargerShare(0.0, confidence, max);
    LargerShare(confidence, 1.0, max);
    assert Share(0.0, max) == (max - 1) as real && Share(1.0, max) == 0.0;
  }

  lemma LargerShare(low: real, high: real, max: int)
    requires low <= high && max >= 1
    ensures Share(high, max) <= Share(low, max)
  {
    var top := (max - 1) as real;
    assert (high - low) * top >= 0.0;
    assert (high - low) * top == (1.0 - low) * top - (1.0 - high) * top;
  }

  lemma FloorIsMonotone(x: real, y: real)
    requires x <= y
    ensures x.Floor <= y.Floor
  {
  }

  /** Limits that were given stay; the others get the documented defaults. */
  lemma DefaultsAreExact(c: Config)
    ensures Normal(c) ==> WithDefaults(c) == c
    ensures var d := WithDefaults(c);
            && d.maxSteps == (if c.maxSteps > 0 then c.maxSteps else 10)
            && d.maxReflections == (if c.maxReflections > 0 then c.maxReflections else 1)
            && d.replanInterval == (if c.replanInterval > 0 then c.replanInterval else 3)
            && d.maxReplans == (if c.maxReplans > 0 then c.maxReplans else 2)
            && d.maxToolErrors == (if c.maxToolErrors > 0 then c.maxToolErrors else 3)
            && d.maxReflectionSteps == (if c.maxReflectionSteps > 0 then c.maxReflectionSteps else 0)
            && d.maxTokenBudget == (if c.maxTokenBudget > 0 then c.maxTokenBudget else 0)
  {
  }
}
