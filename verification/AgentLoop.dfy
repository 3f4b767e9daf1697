/** The diagnosis loop runLoop of internal/module/agent/application/internal/core/loop.go. The model, the
    tools, the critics, the reassessment and the client connection are an arbitrary oracle: a function from
    the step to everything they answer in that step. */
module AgentLoop {
  import opened Text
  import opened ToolTurns
  import opened FinalAnswer

  datatype Config = Config(
    maxSteps: int, maxReflections: int, maxReflectionSteps: int, replanInterval: int, maxReplans: int,
    maxTokenBudget: int, maxToolErrors: int,
    reflection: bool, replanning: bool, hasLedger: bool, streamThink: bool, compress: bool)

  function OrDefault(value: int, default: int): (r: int)
    ensures default > 0 ==> r > 0
  {
    if value <= 0 then default else value
  }

  function NotNegative(value: int): (r: nat) {
    if value < 0 then 0 else value
  }

  function WithDefaults(c: Config): (r: Config)
    ensures Normal(r)
  {
    Config(
      OrDefault(c.maxSteps, 10), OrDefault(c.maxReflections, 1), NotNegative(c.maxReflectionSteps),
      OrDefault(c.replanInterval, 3), OrDefault(c.maxReplans, 2), NotNegative(c.maxTokenBudget),
      OrDefault(c.maxToolErrors, 3), c.reflection, c.replanning, c.hasLedger, c.streamThink, c.compress)
  }

  predicate Normal(c: Config) {
    && c.maxSteps > 0 && c.maxTokenBudget >= 0 && c.maxToolErrors > 0 && c.maxReflectionSteps >= 0
    && c.maxReflections > 0 && c.replanInterval > 0 && c.maxReplans > 0
  }

  // ---- The oracle ------------------------------------------------------------------------------------

  datatype Reassess = ReassessFailed(disconnected: bool) | Reassessed(planChanged: bool, sent: bool)

  datatype Think =
    | ThinkFailed(disconnected: bool)
    | Thought(content: string, calls: seq<Invocation>, totalTokens: int, estimate: int, sent: bool)

  datatype Critic = CriticFailed(disconnected: bool) | Verdict(supported: bool, guidance: bool, confidence: real)

  datatype Answers = Answers(
    reassess: Reassess, reassessTokens: nat, think: Think, substantive: bool, critic: Critic, criticTokens: nat,
    generated: nat -> string, check: Invocation -> Check, alive: bool, outcome: nat -> Outcome, compressTokens: nat)

  // ---- The loop's variables ----------------------------------------------------------------------------

  /** `replans` lists the steps of the successful reassessments, `executed` the executed calls. */
  datatype Run = Run(
    step: nat, maxSteps: int, tokenUsed: int, extraTokens: int, errStreak: nat, seen: set<string>,
    reflections: nat, rewriteAttempts: nat, replans: seq<int>, lastReplanStep: int, toolsSinceReplan: bool,
    turns: seq<Turn>, executed: seq<Execution>, thinks: nat)

  /** `plan` are the tokens that the explicit plan before the loop cost. */
  function Init(cfg: Config, plan: int): Run {
    Run(0, cfg.maxSteps, 0, plan, 0, {}, 0, 0, [], 0, false, [], [], 0)
  }

  /** How the loop ends: the client is gone; the model failed; the fallback text; on to the final answer stream. */
  datatype Exit = Disconnected | Failed | Fallback | Streamed

  datatype Flow = Go(r: Run) | Stop(exit: Exit, r: Run)

  function Spent(r: Run): int {
    r.tokenUsed + r.extraTokens
  }

  predicate BudgetLeft(cfg: Config, r: Run) {
    cfg.maxTokenBudget <= 0 || Spent(r) < cfg.maxTokenBudget
  }

  predicate ReassessDue(cfg: Config, r: Run) {
    && (cfg.replanning || cfg.hasLedger) && r.toolsSinceReplan
    && r.step - r.lastReplanStep >= cfg.replanInterval && |r.replans| < cfg.maxReplans && BudgetLeft(cfg, r)
  }

  function ReassessPhase(cfg: Config, a: Answers, r: Run): Flow {
    if !ReassessDue(cfg, r) then Go(r)
    else
      var charged := r.(extraTokens := r.extraTokens + a.reassessTokens);
      match a.reassess
      case ReassessFailed(disconnected) => if disconnected then Stop(Disconnected, charged) else Go(charged)
      case Reassessed(planChanged, sent) =>
        var done := charged.(replans := r.replans + [r.step], lastReplanStep := r.step, toolsSinceReplan := false);
        if cfg.replanning && planChanged && !sent then Stop(Disconnected, done) else Go(done)
  }

  /** The cumulative token count after a reply: the provider's if it gives one, else the estimate. */
  function Tokens(total: int, estimate: int, used: int): int {
    var latest := if total > 0 then total else estimate;
    if latest > used then latest else used
  }

  /** Sending the thinking text of a step that calls tools can find the client gone. */
  predicate LostWhileThinking(cfg: Config, t: Think)
    requires t.Thought?
  {
    !cfg.streamThink && t.calls != [] && TrimSpace(t.content) != "" && !t.sent
  }

  function ThinkPhase(cfg: Config, a: Answers, r: Run): Flow {
    var asked := r.(thinks := r.thinks + 1);
    match a.think
    case ThinkFailed(disconnected) => Stop(if disconnected then Disconnected else Failed, asked)
    case Thought(_, _, total, estimate, _) =>
      var charged := asked.(tokenUsed := Tokens(total, estimate, r.tokenUsed));
      if LostWhileThinking(cfg, a.think) then Stop(Disconnected, charged) else Go(charged)
  }

  /** reflectionSupplementSteps: the lower the confidence, the more steps, between one and the maximum. */
  function Supplement(confidence: real, max: int): (steps: int)
    ensures max >= 1 ==> 1 <= steps <= max
  {
    if max <= 1 || confidence <= 0.0 then max
    else if confidence >= 1.0 then 1
    else
      var steps := 1 + ((1.0 - confidence) * ((max - 1) as real) + 0.5).Floor;
      if steps < 1 then 1 else if steps > max then max else steps
  }

  function Bound(cfg: Config): int {
    cfg.maxSteps + cfg.maxReflections * cfg.maxReflectionSteps
  }

  /** The step bound after a reflection at `step`. */
  function Extended(cfg: Config, step: int, confidence: real): (bound: int)
    ensures bound <= Bound(cfg)
  {
    var wanted := step + 1 + Supplement(confidence, cfg.maxReflectionSteps);
    if Bound(cfg) < wanted then Bound(cfg) else wanted
  }

  predicate ReflectionDue(cfg: Config, answer: string, r: Run) {
    && r.reflections < cfg.maxReflections && answer != "" && cfg.reflection && cfg.maxReflectionSteps > 0
    && BudgetLeft(cfg, r)
  }

  /** One critic round: it may send the run back to collect evidence, under a new step bound. */
  function Reflect(cfg: Config, a: Answers, answer: string, r: Run): Flow {
    var reflected := r.(reflections := r.reflections + 1, extraTokens := r.extraTokens + a.criticTokens);
    match a.critic
    case CriticFailed(disconnected) => Stop(if disconnected then Disconnected else Streamed, reflected)
    case Verdict(supported, guidance, confidence) =>
      if supported || !guidance then Stop(Streamed, reflected)
      else Go(reflected.(maxSteps := Extended(cfg, r.step, confidence), turns := r.turns + [Turn(answer, [], [])]))
  }

  /** The model asked for no tool: rewrite once, reflect, or conclude. */
  function ConcludePhase(cfg: Config, a: Answers, r: Run): Flow
    requires a.think.Thought?
  {
    var answer := TrimSpace(a.think.content);
    if !a.substantive then
      if r.rewriteAttempts == 0 then Go(r.(rewriteAttempts := 1))
      else Stop(Fallback, r.(rewriteAttempts := r.rewriteAttempts + 1))
    else if ReflectionDue(cfg, answer, r) then Reflect(cfg, a, answer, r)
    else Stop(Streamed, r)
  }

  /** executeToolBatch: run the planned calls, then feed their observations back. */
  function ExecutePhase(cfg: Config, a: Answers, calls: seq<Invocation>, errors: seq<ResultMessage>,
                        planned: seq<Planned>, r: Run): Flow
    requires a.think.Thought?
  {
    var executed := r.(errStreak := 0, executed := r.executed + Executions(planned, a.outcome, r.step, Spent(r)));
    if !a.alive then Stop(Disconnected, executed)
    else
      var succeeded := SucceededKeys(planned, a.outcome);
      Go(executed.(
           extraTokens := r.extraTokens + (if cfg.compress then a.compressTokens else 0),
           seen := r.seen + succeeded,
           toolsSinceReplan := r.toolsSinceReplan || succeeded != {},
           turns := r.turns + [Turn(a.think.content, calls, errors + Observations(planned, a.outcome))]))
  }

  /** The model asked for tools: check the budget, validate, execute, observe. */
  function ActPhase(cfg: Config, a: Answers, r: Run): Flow
    requires a.think.Thought?
  {
    var calls := WithIDs(a.think.calls, a.generated);
    if cfg.maxTokenBudget > 0 && Spent(r) > cfg.maxTokenBudget then Stop(Streamed, r)
    else
      var (errors, planned) := Validate(calls, a.check, r.seen);
      if planned != [] then ExecutePhase(cfg, a, calls, errors, planned, r)
      else
        var barren := r.(errStreak := r.errStreak + 1, turns := r.turns + [Turn(a.think.content, calls, errors)]);
        if barren.errStreak >= cfg.maxToolErrors then Stop(Streamed, barren) else Go(barren)
  }

  /** One iteration of the loop body. */
  function StepOnce(cfg: Config, a: Answers, r: Run): Flow {
    match ReassessPhase(cfg, a, r)
    case Stop(exit, r1) => Stop(exit, r1)
    case Go(r1) =>
      match ThinkPhase(cfg, a, r1)
      case Stop(exit, r2) => Stop(exit, r2)
      case Go(r2) => if a.think.calls == [] then ConcludePhase(cfg, a, r2) else ActPhase(cfg, a, r2)
  }

  lemma ReassessKeepsStep(cfg: Config, a: Answers, r: Run)
    ensures ReassessPhase(cfg, a, r).r.step == r.step && ReassessPhase(cfg, a, r).r.maxSteps == r.maxSteps
  {
  }

  lemma ThinkKeepsStep(cfg: Config, a: Answers, r: Run)
    ensures ThinkPhase(cfg, a, r).r.step == r.step && ThinkPhase(cfg, a, r).r.maxSteps == r.maxSteps
  {
  }

  lemma ReflectKeepsStep(cfg: Config, a: Answers, answer: string, r: Run)
    requires r.maxSteps <= Bound(cfg)
    ensures Reflect(cfg, a, answer, r).r.step == r.step && Reflect(cfg, a, answer, r).r.maxSteps <= Bound(cfg)
  {
  }

  lemma ConcludeKeepsStep(cfg: Config, a: Answers, r: Run)
    requires a.think.Thought? && r.maxSteps <= Bound(cfg)
    ensures ConcludePhase(cfg, a, r).r.step == r.step && ConcludePhase(cfg, a, r).r.maxSteps <= Bound(cfg)
  {
    ReflectKeepsStep(cfg, a, TrimSpace(a.think.content), r);
  }

  lemma ActKeepsStep(cfg: Config, a: Answers, r: Run)
    requires a.think.Thought?
    ensures ActPhase(cfg, a, r).r.step == r.step && ActPhase(cfg, a, r).r.maxSteps == r.maxSteps
  {
  }

  lemma StepStaysInBound(cfg: Config, a: Answers, r: Run)
    requires r.maxSteps <= Bound(cfg)
    ensures StepOnce(cfg, a, r).r.step == r.step && StepOnce(cfg, a, r).r.maxSteps <= Bound(cfg)
  {
    ReassessKeepsStep(cfg, a, r);
    var r1 := ReassessPhase(cfg, a, r).r;
    ThinkKeepsStep(cfg, a, r1);
    if a.think.Thought? {
      var r2 := ThinkPhase(cfg, a, r1).r;
      ConcludeKeepsStep(cfg, a, r2);
      ActKeepsStep(cfg, a, r2);
    }
  }

  /** The loop from a given state on. It terminates although the step bound both shrinks and grows. */
  function RunFrom(cfg: Config, oracle: nat -> Answers, r: Run): (Exit, Run)
    requires r.maxSteps <= Bound(cfg)
    decreases Bound(cfg) - r.step
  {
    if r.step >= r.maxSteps then (Streamed, r)
    else
      StepStaysInBound(cfg, oracle(r.step), r);
      match StepOnce(cfg, oracle(r.step), r)
      case Stop(exit, last) => (exit, last)
      case Go(next) => RunFrom(cfg, oracle, next.(step := next.step + 1))
  }

  /** How the whole run ends: the final answer is streamed when the loop says so. */
  function Ending(exit: Exit, stream: Stream, fallback: string): End {
    match exit
    case Disconnected => Silent
    case Failed => Error
    case Fallback => Answer(fallback)
    case Streamed => EndOf(stream)
  }

  // ---- The loop as the source runs it ------------------------------------------------------------------

  class AgentRun {
    const cfg: Config
    var step: nat
    var maxSteps: int
    var tokenUsed: int
    var extraTokens: int
    var errStreak: nat
    var seen: set<string>
    var reflections: nat
    var rewriteAttempts: nat
    var replans: nat
    ghost var replanSteps: seq<int>
    var lastReplanStep: int
    var toolsSinceReplan: bool
    var turns: seq<Turn>
    ghost var executed: seq<Execution>
    var thinks: nat

    ghost function State(): Run
      reads this
    {
      Run(step, maxSteps, tokenUsed, extraTokens, errStreak, seen, reflections, rewriteAttempts, replanSteps,
          lastReplanStep, toolsSinceReplan, turns, executed, thinks)
    }

    ghost predicate Valid()
      reads this
    {
      replans == |replanSteps|
    }

    constructor (raw: Config, plan: int)
      ensures Valid() && cfg == WithDefaults(raw) && State() == Init(cfg, plan)
      ensures step == 0 && maxSteps == cfg.maxSteps && tokenUsed == 0 && extraTokens == plan && errStreak == 0 && seen == {}
      ensures reflections == 0 && rewriteAttempts == 0 && replans == 0 && lastReplanStep == 0 && !toolsSinceReplan
      ensures turns == [] && executed == [] && thinks == 0
    {
      var c := WithDefaults(raw);
      cfg := c;
      step, maxSteps, tokenUsed, extraTokens, errStreak, seen := 0, c.maxSteps, 0, plan, 0, {};
      reflections, rewriteAttempts, replans, replanSteps, lastReplanStep, toolsSinceReplan := 0, 0, 0, [], 0, false;
      turns, executed, thinks := [], [], 0;
    }

    method Reassess(a: Answers) returns (stop: bool, exit: Exit)
      requires Valid()
      modifies this
      ensures Valid()
      ensures ReassessPhase(cfg, a, old(State())) == if stop then Stop(exit, State()) else Go(State())
    {
      stop, exit := false, Disconnected;
      if (cfg.replanning || cfg.hasLedger) && toolsSinceReplan && step - lastReplanStep >= cfg.replanInterval
         && replans < cfg.maxReplans && (cfg.maxTokenBudget <= 0 || tokenUsed + extraTokens < cfg.maxTokenBudget) {
        extraTokens := extraTokens + a.reassessTokens;
        match a.reassess {
          case ReassessFailed(disconnected) =>
            stop := disconnected;
          case Reassessed(planChanged, sent) =>
            replans := replans + 1;
            replanSteps := replanSteps + [step];
            lastReplanStep := step;
            toolsSinceReplan := false;
            stop := cfg.replanning && planChanged && !sent;
        }
      }
    }

    method Think(a: Answers) returns (stop: bool, exit: Exit)
      requires Valid()
      modifies this
      ensures Valid()
      ensures ThinkPhase(cfg, a, old(State())) == if stop then Stop(exit, State()) else Go(State())
    {
      thinks := thinks + 1;
      match a.think {
        case ThinkFailed(disconnected) =>
          return true, if disconnected then Disconnected else Failed;
        case Thought(_, _, total, estimate, _) =>
          tokenUsed := Tokens(total, estimate, tokenUsed);
          return LostWhileThinking(cfg, a.think), Disconnected;
      }
    }

    method Criticize(a: Answers, answer: string) returns (stop: bool, exit: Exit)
      requires Valid()
      modifies this
      ensures Valid()
      ensures Reflect(cfg, a, answer, old(State())) == if stop then Stop(exit, State()) else Go(State())
    {
      reflections := reflections + 1;
      extraTokens := extraTokens + a.criticTokens;
      match a.critic {
        case CriticFailed(disconnected) =>
          return true, if disconnected then Disconnected else Streamed;
        case Verdict(supported, guidance, confidence) =>
          if supported || !guidance {
            return true, Streamed;
          }
          maxSteps := Extended(cfg, step, confidence);
          turns := turns + [Turn(answer, [], [])];
          return false, Streamed;
      }
    }

    method Conclude(a: Answers) returns (stop: bool, exit: Exit)
      requires Valid() && a.think.Thought?
      modifies this
      ensures Valid()
      ensures ConcludePhase(cfg, a, old(State())) == if stop then Stop(exit, State()) else Go(State())
    {
      var answer := TrimSpace(a.think.content);
      if !a.substantive {
        rewriteAttempts := rewriteAttempts + 1;
        return rewriteAttempts > 1, Fallback;
      }
      if reflections < cfg.maxReflections && answer != "" && cfg.reflection && cfg.maxReflectionSteps > 0
         && (cfg.maxTokenBudget <= 0 || tokenUsed + extraTokens < cfg.maxTokenBudget) {
        stop, exit := Criticize(a, answer);
      } else {
        return true, Streamed;
      }
    }

    /** The observe loop: marks the keys that succeeded and appends one result per executed call. */
    method ObserveAll(planned: seq<Planned>, outcome: nat -> Outcome, errors: seq<ResultMessage>)
      returns (results: seq<ResultMessage>)
      modifies `seen, `toolsSinceReplan
      ensures results == errors + Observations(planned, outcome)
      ensures seen == old(seen) + SucceededKeys(planned, outcome)
      ensures toolsSinceReplan == (old(toolsSinceReplan) || SucceededKeys(planned, outcome) != {})
    {
      hide SucceededKeys, Observations;
      results := errors;
      NoneSucceeded(outcome);
      for i := 0 to |planned|
        invariant results == errors + Observations(planned[..i], outcome)
        invariant seen == old(seen) + SucceededKeys(planned[..i], outcome)
        invariant toolsSinceReplan == (old(toolsSinceReplan) || SucceededKeys(planned[..i], outcome) != {})
      {
        SucceededSnoc(planned, outcome, i);
        if outcome(i).ok {
          seen := seen + {planned[i].key};
          toolsSinceReplan := true;
        }
        results := results + [Observe(planned[i], outcome(i))];
      }
      assert planned[..|planned|] == planned;
    }

    /** executeToolBatch from the planned calls on. */
    method Execute(a: Answers, calls: seq<Invocation>, errors: seq<ResultMessage>, planned: seq<Planned>)
      returns (stop: bool, exit: Exit)
      requires Valid() && a.think.Thought? && planned != []
      modifies this
      ensures Valid()
      ensures ExecutePhase(cfg, a, calls, errors, planned, old(State())) == if stop then Stop(exit, State()) else Go(State())
    {
      hide SucceededKeys, Observations, Executions;
      errStreak := 0;
      executed := executed + Executions(planned, a.outcome, step, tokenUsed + extraTokens);
      if !a.alive {
        return true, Disconnected;
      }
      if cfg.compress {
        extraTokens := extraTokens + a.compressTokens;
      }
      var results := ObserveAll(planned, a.outcome, errors);
      turns := turns + [Turn(a.think.content, calls, results)];
      return false, Streamed;
    }

    method Act(a: Answers) returns (stop: bool, exit: Exit)
      requires Valid() && a.think.Thought?
      modifies this
      ensures Valid()
      ensures ActPhase(cfg, a, old(State())) == if stop then Stop(exit, State()) else Go(State())
    {
      hide WithIDs, Validate, ExecutePhase;
      var slice := new Invocation[|a.think.calls|](i requires 0 <= i < |a.think.calls| => a.think.calls[i]);
      assert slice[..] == a.think.calls;
      EnsureInvocationIDs(slice, a.generated);
      var calls := slice[..];
      if cfg.maxTokenBudget > 0 && tokenUsed + extraTokens > cfg.maxTokenBudget {
        return true, Streamed;
      }
      var errors, planned := ValidateAll(calls, a.check, seen);
      if planned != [] {
        stop, exit := Execute(a, calls, errors, planned);
        return;
      }
      errStreak := errStreak + 1;
      turns := turns + [Turn(a.think.content, calls, errors)];
      return errStreak >= cfg.maxToolErrors, Streamed;
    }

    method Iterate(a: Answers) returns (stop: bool, exit: Exit)
      requires Valid()
      modifies this
      ensures Valid()
      ensures StepOnce(cfg, a, old(State())) == if stop then Stop(exit, State()) else Go(State())
    {
      stop, exit := Reassess(a);
      if stop {
        return;
      }
      stop, exit := Think(a);
      if stop {
        return;
      }
      if a.think.calls == [] {
        stop, exit := Conclude(a);
      } else {
        stop, exit := Act(a);
      }
    }

    method RunLoop(oracle: nat -> Answers) returns (exit: Exit)
      requires Valid() && State() == Init(cfg, extraTokens) && Normal(cfg)
      modifies this
      ensures Valid()
      ensures (exit, State()) == RunFrom(cfg, oracle, Init(cfg, old(extraTokens)))
    {
      hide StepOnce;
      while step < maxSteps
        invariant Valid() && maxSteps <= Bound(cfg)
        invariant RunFrom(cfg, oracle, Init(cfg, old(extraTokens))) == RunFrom(cfg, oracle, State())
        decreases Bound(cfg) - step
      {
        ghost var before := State();
        StepStaysInBound(cfg, oracle(step), before);
        var stop, how := Iterate(oracle(step));
        if stop {
          return how;
        }
        step := step + 1;
        assert RunFrom(cfg, oracle, before) == RunFrom(cfg, oracle, State());
      }
      return Streamed;
    }

    /** The loop and then, where it leads there, the final answer stream of the step reached. */
    method RunToEnd(oracle: nat -> Answers, stream: nat -> Stream, fallback: string) returns (end: End)
      requires Valid() && State() == Init(cfg, extraTokens) && Normal(cfg)
      modifies this
      ensures Valid()
      ensures var (exit, last) := RunFrom(cfg, oracle, Init(cfg, old(extraTokens)));
              State() == last && end == Ending(exit, stream(last.step), fallback)
      ensures match RunFrom(cfg, oracle, Init(cfg, old(extraTokens))).0
              case Disconnected => end == Silent
              case Failed => end == Error
              case Fallback => end == Answer(fallback)
              case Streamed => end == EndOf(stream(step))
    {
      hide RunFrom;
      var exit := RunLoop(oracle);
      match exit {
        case Disconnected => return Silent;
        case Failed => return Error;
        case Fallback => return Answer(fallback);
        case Streamed => end := StreamFinalAnswer(stream(step));
      }
    }
  }

  lemma NoneSucceeded(outcome: nat -> Outcome)
    ensures SucceededKeys([], outcome) == {} && Observations([], outcome) == []
  {
  }

  lemma SucceededSnoc(planned: seq<Planned>, outcome: nat -> Outcome, i: nat)
    requires i < |planned|
    ensures SucceededKeys(planned[..i + 1], outcome)
         == SucceededKeys(planned[..i], outcome) + if outcome(i).ok then {planned[i].key} else {}
    ensures Observations(planned[..i + 1], outcome) == Observations(planned[..i], outcome) + [Observe(planned[i], outcome(i))]
  {
  }
}
