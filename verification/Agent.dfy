/** The reason-act cycle of pkg/agent as functions: one turn and one whole call of Session.Advance,
    Session.Resume and Loop.Run. The model provider, the tools, the gate and the approver are
    functions of the conversation so far, which grows at every use, so that they may behave in any
    way from one use to the next. */
module Agent {
  import opened Llm
  import opened Schema
  import opened Text

  datatype AuditKind = Proposed | Invalid | Denied | Executed | Errored | BudgetExceeded

  datatype Audit = Audit(kind: AuditKind, detail: string)

  /** One completed tool interaction of a Loop. */
  datatype Step = Step(call: ToolCall, approved: bool, result: string, error: string, note: string)

  /** A step together with the sub-agents that its execution started and finished. */
  datatype Activity = Activity(step: Step, spawned: seq<SubAgent>)

  /** What one tool execution returns, and the sub-agents it ran on the way. */
  datatype ToolRun = ToolRun(result: Result<string>, spawned: seq<SubAgent>)

  /** A call that reached the executor; flagged when it carried a human's explicit approval. */
  datatype Execution = Execution(call: ToolCall, flagged: bool)

  /** The record of one delegated run: the profile as requested and as resolved, its place in the
      delegation tree, its nesting depth, the approval flag its tools saw, the tools authorized to
      run without a prompt, and what its Loop did. */
  datatype SubAgent = SubAgent(
    requested: string, resolved: string, task: string,
    site: seq<nat>, depth: nat, flagged: bool, authorized: seq<string>,
    activity: seq<Activity>, executions: seq<ToolCall>, completions: nat, outcome: Result<RunResult>, durationMs: nat)

  datatype RunResult = RunResult(
    answer: string, stopped: bool, steps: seq<Step>, transcript: seq<Message>, inputTokens: int, outputTokens: int)

  const DEFAULT_STEPS: nat := 8

  /** A step cap that is zero or negative means the default. */
  function StepCap(maxSteps: int): nat { if maxSteps <= 0 then DEFAULT_STEPS else maxSteps }

  function InvalidText(call: ToolCall, error: string): string {
    "Tool " + Quoted(call.tool) + " arguments were invalid: " + error
    + ". Fix the arguments and call it again, or give your final answer."
  }

  function DeniedText(call: ToolCall): string {
    "Tool " + Quoted(call.tool) + " was denied by the human. Do not retry it; continue or give your final answer."
  }

  function ErroredText(call: ToolCall, error: string): string {
    "Tool " + Quoted(call.tool) + " errored: " + error
  }

  /** The audit entry and the conversation turn that an execution leaves behind. */
  function RunAudit(call: ToolCall, run: ToolRun): Audit {
    Audit(if run.result.Ok? then Executed else Errored, call.tool)
  }

  function RunMessage(call: ToolCall, run: ToolRun): Message {
    match run.result
    case Ok(out) => ToolResult(call, out, false)
    case Err(e) => ToolResult(call, ErroredText(call, e), true)
  }

  /** The fixed texts: an answer for a run over its budget, for a Session and for a Loop at the step
      cap, and the system prompt of a Loop that is given none. */
  datatype Wording = Wording(overBudget: string, capped: string, loopCapped: string, persona: string)

  // ----- Session -----

  datatype SessionConfig = SessionConfig(
    complete: seq<Message> -> Result<Response>,
    tools: seq<Tool>,
    gate: ToolCall -> bool,
    execute: (seq<Message>, ToolCall, bool) -> ToolRun,
    maxSteps: int,
    tokenBudget: int,
    wording: Wording)

  datatype Outcome = Outcome(
    done: bool, answer: string, pending: Option<ToolCall>, messages: seq<Message>, inputTokens: int, outputTokens: int)

  /** Everything a Session shows the outside: each provider call, each message streamed to
      OnMessage, each audit entry and each execution, in order. */
  datatype Trace = Trace(
    completions: seq<Result<Response>>, emitted: seq<Message>, audits: seq<Audit>, executions: seq<Execution>)
  {
    function Then(next: Trace): Trace {
      Trace(completions + next.completions, emitted + next.emitted, audits + next.audits, executions + next.executions)
    }
  }

  const SILENT := Trace([], [], [], [])

  datatype Advanced = Advanced(outcome: Outcome, error: Option<string>, trace: Trace)

  function Start(messages: seq<Message>): Outcome { Outcome(false, "", None, messages, 0, 0) }

  /** runTool: execute the call and append its result turn. */
  function RunTool(cfg: SessionConfig, messages: seq<Message>, call: ToolCall,
                   flagged: bool): (r: (seq<Message>, Trace)) {
    var run := cfg.execute(messages, call, flagged);
    var res := RunMessage(call, run);
    (messages + [res], Trace([], [res], [RunAudit(call, run)], [Execution(call, flagged)]))
  }

  /** One pass through the body of Advance's loop; `over` when it returns. */
  datatype SessionTurn = SessionTurn(over: bool, outcome: Outcome, error: Option<string>, trace: Trace)

  function TurnOf(cfg: SessionConfig, out: Outcome): SessionTurn {
    match cfg.complete(out.messages)
    case Err(e) => SessionTurn(true, out, Some(e), Trace([Err(e)], [], [], []))
    case Ok(resp) =>
      var am := AssistantMessage(resp.text, resp.toolCalls);
      var said := out.(inputTokens := out.inputTokens + resp.inputTokens,
                       outputTokens := out.outputTokens + resp.outputTokens,
                       messages := out.messages + [am]);
      if cfg.tokenBudget > 0 && said.inputTokens + said.outputTokens >= cfg.tokenBudget then
        SessionTurn(true, said.(done := true, answer := cfg.wording.overBudget), None,
                    Trace([Ok(resp)], [am], [Audit(BudgetExceeded, "")], []))
      else if resp.toolCalls == [] then
        SessionTurn(true, said.(done := true, answer := Trim(resp.text, GoSpace)), None,
                    Trace([Ok(resp)], [am], [], []))
      else
        var turn := CallTurn(cfg, said, resp.toolCalls[0]);
        turn.(trace := Trace([Ok(resp)], [am], [], []).Then(turn.trace))
  }

  /** The rest of a turn that proposes a call: reject its arguments, pause at the gate, or run it. */
  function CallTurn(cfg: SessionConfig, said: Outcome, call: ToolCall): SessionTurn {
    match ValidateCall(cfg.tools, call)
    case Some(e) =>
      var inv := ToolResult(call, InvalidText(call, e), true);
      SessionTurn(false, said.(messages := said.messages + [inv]), None,
                  Trace([], [inv], [Audit(Proposed, call.tool), Audit(Invalid, call.tool)], []))
    case None =>
      if cfg.gate(call) then
        SessionTurn(true, said.(pending := Some(call)), None, Trace([], [], [Audit(Proposed, call.tool)], []))
      else
        var (messages, ran) := RunTool(cfg, said.messages, call, false);
        SessionTurn(false, said.(messages := messages), None, ran.(audits := [Audit(Proposed, call.tool)] + ran.audits))
  }

  /** Advance from the given state with `left` steps of the cap remaining. */
  function AdvanceFrom(cfg: SessionConfig, out: Outcome, left: nat): Advanced
    decreases left
  {
    if left == 0 then
      var stop := AssistantMessage(cfg.wording.capped, []);
      Advanced(out.(done := true, answer := cfg.wording.capped, messages := out.messages + [stop]), None,
               Trace([], [stop], [], []))
    else
      var turn := TurnOf(cfg, out);
      if turn.over then Advanced(turn.outcome, turn.error, turn.trace)
      else
        var rest := AdvanceFrom(cfg, turn.outcome, left - 1);
        rest.(trace := turn.trace.Then(rest.trace))
  }

  function Advance(cfg: SessionConfig, messages: seq<Message>): Advanced {
    AdvanceFrom(cfg, Start(messages), StepCap(cfg.maxSteps))
  }

  /** The part of Resume before it advances again. */
  function Decided(cfg: SessionConfig, messages: seq<Message>, call: ToolCall, approved: bool): (seq<Message>, Trace) {
    if approved then RunTool(cfg, messages, call, true)
    else
      var den := ToolResult(call, DeniedText(call), true);
      (messages + [den], Trace([], [den], [Audit(Denied, call.tool)], []))
  }

  function Resume(cfg: SessionConfig, messages: seq<Message>, call: ToolCall, approved: bool): Advanced {
    var (decided, first) := Decided(cfg, messages, call, approved);
    var rest := Advance(cfg, decided);
    rest.(trace := first.Then(rest.trace))
  }

  // ----- Loop -----

  datatype LoopConfig = LoopConfig(
    complete: seq<Message> -> Result<Response>,
    tools: seq<Tool>,
    approve: (seq<Message>, ToolCall) -> Result<bool>,
    execute: (seq<Message>, ToolCall) -> ToolRun,
    maxSteps: int,
    wording: Wording)

  /** The local variables of Run. */
  datatype LoopState = LoopState(messages: seq<Message>, steps: seq<Step>, inputTokens: int, outputTokens: int)

  datatype LoopTrace = LoopTrace(
    completions: seq<Result<Response>>, audits: seq<Audit>, activity: seq<Activity>, executions: seq<ToolCall>)
  {
    function Then(next: LoopTrace): LoopTrace {
      LoopTrace(completions + next.completions, audits + next.audits, activity + next.activity,
                executions + next.executions)
    }
  }

  datatype LoopRun = LoopRun(result: RunResult, error: Option<string>, trace: LoopTrace)

  /** One pass through the body of Run's loop: either it returns, or it goes on from a new state. */
  datatype LoopTurn =
    | Returned(result: RunResult, error: Option<string>, trace: LoopTrace)
    | Continued(state: LoopState, trace: LoopTrace)

  /** The result as it stands when Run returns early with an error: no transcript is set. */
  function Partial(st: LoopState): RunResult {
    RunResult("", false, st.steps, [], st.inputTokens, st.outputTokens)
  }

  function LoopTurnOf(cfg: LoopConfig, st: LoopState): LoopTurn {
    match cfg.complete(st.messages)
    case Err(e) => Returned(Partial(st), Some(e), LoopTrace([Err(e)], [], [], []))
    case Ok(resp) =>
      var said := st.(inputTokens := st.inputTokens + resp.inputTokens,
                      outputTokens := st.outputTokens + resp.outputTokens,
                      messages := st.messages + [AssistantMessage(resp.text, resp.toolCalls)]);
      if resp.toolCalls == [] then
        Returned(Partial(said).(answer := Trim(resp.text, GoSpace), transcript := said.messages), None,
                 LoopTrace([Ok(resp)], [], [], []))
      else
        var turn := LoopCallTurn(cfg, said, resp.toolCalls[0], Trim(resp.text, GoSpace));
        turn.(trace := LoopTrace([Ok(resp)], [], [], []).Then(turn.trace))
  }

  function LoopCallTurn(cfg: LoopConfig, said: LoopState, call: ToolCall, note: string): LoopTurn {
    var st0 := Step(call, false, "", "", note);
    match ValidateCall(cfg.tools, call)
    case Some(e) => Pushed(said, call, Audit(Invalid, call.tool), Activity(st0.(error := e), []), [],
                           ToolResult(call, InvalidText(call, e), true))
    case None =>
      match cfg.approve(said.messages, call)
      case Err(e) => Returned(Partial(said), Some(e), LoopTrace([], [Audit(Proposed, call.tool)], [], []))
      case Ok(approved) =>
        if !approved then
          Pushed(said, call, Audit(Denied, call.tool), Activity(st0.(result := "(denied)"), []), [],
                 ToolResult(call, DeniedText(call), true))
        else
          var run := cfg.execute(said.messages, call);
          Pushed(said, call, RunAudit(call, run), Activity(RanStep(st0, run), run.spawned), [call],
                 RunMessage(call, run))
  }

  function RanStep(st0: Step, run: ToolRun): Step {
    match run.result
    case Ok(out) => st0.(approved := true, result := out)
    case Err(e) => st0.(approved := true, error := e)
  }

  /** The turn ends by recording its step and answering the call. */
  function Pushed(said: LoopState, call: ToolCall, audit: Audit, act: Activity, ran: seq<ToolCall>,
                  answer: Message): LoopTurn {
    Continued(said.(messages := said.messages + [answer], steps := said.steps + [act.step]),
              LoopTrace([], [Audit(Proposed, call.tool), audit], [act], ran))
  }

  function LoopFrom(cfg: LoopConfig, st: LoopState, left: nat): LoopRun
    decreases left
  {
    if left == 0 then
      LoopRun(Partial(st).(answer := cfg.wording.loopCapped, stopped := true, transcript := st.messages), None,
              LoopTrace([], [], [], []))
    else
      match LoopTurnOf(cfg, st)
      case Returned(result, error, trace) => LoopRun(result, error, trace)
      case Continued(next, trace) =>
        var rest := LoopFrom(cfg, next, left - 1);
        rest.(trace := trace.Then(rest.trace))
  }

  /** The conversation a Loop opens with; an empty system prompt means the built-in persona. */
  function OpeningState(w: Wording, system: string, user: string): LoopState {
    LoopState([SystemMessage(if system == "" then w.persona else system), UserMessage(user)], [], 0, 0)
  }

  function RunLoop(cfg: LoopConfig, system: string, user: string): LoopRun {
    LoopFrom(cfg, OpeningState(cfg.wording, system, user), StepCap(cfg.maxSteps))
  }
}
