/** Session and Loop as the objects they are: methods that build the conversation step by step and
    report to their observers, each proved to compute the functions of module Agent. */
module AgentMachines {
  import opened Llm
  import opened Schema
  import opened Text
  import opened Agent

  class Session {
    const cfg: SessionConfig
    /** What the observers have seen so far. */
    var completions: seq<Result<Response>>
    var emitted: seq<Message>
    var audits: seq<Audit>
    var executions: seq<Execution>

    constructor (cfg: SessionConfig)
      ensures this.cfg == cfg && Seen() == SILENT
    {
      this.cfg := cfg;
      completions, emitted, audits, executions := [], [], [], [];
    }

    ghost function Seen(): Trace
      reads this
    {
      Trace(completions, emitted, audits, executions)
    }

    method Emit(m: Message)
      modifies this`emitted
      ensures emitted == old(emitted) + [m]
    {
      emitted := emitted + [m];
    }

    method AuditEntry(kind: AuditKind, detail: string)
      modifies this`audits
      ensures audits == old(audits) + [Audit(kind, detail)]
    {
      audits := audits + [Audit(kind, detail)];
    }

    method Execute(messages: seq<Message>, call: ToolCall, flagged: bool) returns (messages': seq<Message>)
      modifies this
      ensures messages' == RunTool(cfg, messages, call, flagged).0
      ensures Seen() == old(Seen()).Then(RunTool(cfg, messages, call, flagged).1)
    {
      executions := executions + [Execution(call, flagged)];
      var run := cfg.execute(messages, call, flagged);
      var res;
      match run.result {
        case Err(e) =>
          AuditEntry(Errored, call.tool);
          res := ToolResult(call, ErroredText(call, e), true);
        case Ok(out) =>
          AuditEntry(Executed, call.tool);
          res := ToolResult(call, out, false);
      }
      Emit(res);
      messages' := messages + [res];
    }

    /** The body of Advance's loop: one completion and what follows from it. */
    method Turn(before: Outcome) returns (over: bool, out: Outcome, error: Option<string>)
      modifies this
      ensures SessionTurn(over, out, error, TurnOf(cfg, before).trace) == TurnOf(cfg, before)
      ensures Seen() == old(Seen()).Then(TurnOf(cfg, before).trace)
    {
      hide Trim, CallTurn;
      out, error, over := before, None, true;
      var reply := cfg.complete(out.messages);
      completions := completions + [reply];
      if reply.Err? {
        error := Some(reply.error);
        return;
      }
      var resp := reply.value;
      var am := AssistantMessage(resp.text, resp.toolCalls);
      out := out.(inputTokens := out.inputTokens + resp.inputTokens,
                  outputTokens := out.outputTokens + resp.outputTokens,
                  messages := out.messages + [am]);
      Emit(am);

      if cfg.tokenBudget > 0 && out.inputTokens + out.outputTokens >= cfg.tokenBudget {
        AuditEntry(BudgetExceeded, "");
        out := out.(done := true, answer := cfg.wording.overBudget);
        return;
      }
      if |resp.toolCalls| == 0 {
        out := out.(done := true, answer := Trim(resp.text, GoSpace));
        return;
      }

      var after;
      over, after := Handle(out, resp.toolCalls[0]);
      out := after;
    }

    /** The rest of a turn that proposes a call. */
    method Handle(said: Outcome, call: ToolCall) returns (over: bool, out: Outcome)
      modifies this
      ensures SessionTurn(over, out, None, CallTurn(cfg, said, call).trace) == CallTurn(cfg, said, call)
      ensures Seen() == old(Seen()).Then(CallTurn(cfg, said, call).trace)
    {
      hide InvalidText, ErroredText;
      out, over := said, false;
      AuditEntry(Proposed, call.tool);
      var verr := ValidateCall(cfg.tools, call);
      if verr.Some? {
        AuditEntry(Invalid, call.tool);
        var inv := ToolResult(call, InvalidText(call, verr.value), true);
        out := out.(messages := out.messages + [inv]);
        Emit(inv);
        return;
      }
      if cfg.gate(call) {
        over := true;
        out := out.(pending := Some(call));
        return;
      }
      var messages := Execute(out.messages, call, false);
      out := out.(messages := messages);
    }

    /** Runs until an answer, a gated call, an error or a cap, and shows its observers exactly what
        the specification says, after what they had seen before. */
    method Advance(messages: seq<Message>) returns (out: Outcome, error: Option<string>)
      modifies this
      ensures Advanced(out, error, Agent.Advance(cfg, messages).trace) == Agent.Advance(cfg, messages)
      ensures Seen() == old(Seen()).Then(Agent.Advance(cfg, messages).trace)
    {
      hide TurnOf;
      ghost var whole := Agent.Advance(cfg, messages);
      var maxSteps := cfg.maxSteps;
      if maxSteps <= 0 { maxSteps := DEFAULT_STEPS; }
      out := Start(messages);
      error := None;
      var step := 0;
      while step < maxSteps
        invariant 0 <= step <= maxSteps == StepCap(cfg.maxSteps)
        invariant AdvanceFrom(cfg, out, maxSteps - step).outcome == whole.outcome
        invariant AdvanceFrom(cfg, out, maxSteps - step).error == whole.error
        invariant Seen().Then(AdvanceFrom(cfg, out, maxSteps - step).trace) == old(Seen()).Then(whole.trace)
      {
        ghost var before, turn := Seen(), TurnOf(cfg, out);
        var over;
        over, out, error := Turn(out);
        if over { return; }
        TraceAssoc(before, turn.trace, AdvanceFrom(cfg, out, maxSteps - step - 1).trace);
        step := step + 1;
      }
      var stop := AssistantMessage(cfg.wording.capped, []);
      out := out.(done := true, answer := cfg.wording.capped, messages := out.messages + [stop]);
      error := None;
      Emit(stop);
    }

    method Resume(messages: seq<Message>, call: ToolCall, approved: bool) returns (out: Outcome, error: Option<string>)
      modifies this
      ensures Advanced(out, error, Agent.Resume(cfg, messages, call, approved).trace)
          == Agent.Resume(cfg, messages, call, approved)
      ensures Seen() == old(Seen()).Then(Agent.Resume(cfg, messages, call, approved).trace)
    {
      ghost var before, first := Seen(), Decided(cfg, messages, call, approved);
      var decided;
      if !approved {
        AuditEntry(Denied, call.tool);
        var den := ToolResult(call, DeniedText(call), true);
        Emit(den);
        decided := messages + [den];
      } else {
        decided := Execute(messages, call, true);
      }
      assert decided == first.0 && Seen() == before.Then(first.1);
      TraceAssoc(before, first.1, Agent.Advance(cfg, decided).trace);
      out, error := Advance(decided);
    }
  }

  lemma TraceAssoc(a: Trace, b: Trace, c: Trace)
    ensures a.Then(b).Then(c) == a.Then(b.Then(c))
  {
    assert a.completions + b.completions + c.completions == a.completions + (b.completions + c.completions);
    assert a.emitted + b.emitted + c.emitted == a.emitted + (b.emitted + c.emitted);
    assert a.audits + b.audits + c.audits == a.audits + (b.audits + c.audits);
    assert a.executions + b.executions + c.executions == a.executions + (b.executions + c.executions);
  }

  class Loop {
    const cfg: LoopConfig
    var completions: seq<Result<Response>>
    var audits: seq<Audit>
    var activity: seq<Activity>
    var executions: seq<ToolCall>

    constructor (cfg: LoopConfig)
      ensures this.cfg == cfg && Seen() == LoopTrace([], [], [], [])
    {
      this.cfg := cfg;
      completions, audits, activity, executions := [], [], [], [];
    }

    ghost function Seen(): LoopTrace
      reads this
    {
      LoopTrace(completions, audits, activity, executions)
    }

    /** The body of Run's loop: one completion and what follows from it. */
    method Turn(msgs: seq<Message>, res: RunResult)
      returns (over: bool, msgs': seq<Message>, res': RunResult, error: Option<string>)
      requires res == Partial(StateOf(msgs, res))
      modifies this
      ensures TurnIs(LoopTurnOf(cfg, StateOf(msgs, res)), over, msgs', res', error)
      ensures Seen() == old(Seen()).Then(LoopTurnOf(cfg, StateOf(msgs, res)).trace)
    {
      hide Trim, LoopCallTurn;
      over, msgs', res', error := true, msgs, res, None;
      var reply := cfg.complete(msgs');
      completions := completions + [reply];
      if reply.Err? {
        error := Some(reply.error);
        return;
      }
      var resp := reply.value;
      res' := res'.(inputTokens := res'.inputTokens + resp.inputTokens,
                    outputTokens := res'.outputTokens + resp.outputTokens);
      msgs' := msgs' + [AssistantMessage(resp.text, resp.toolCalls)];
      if |resp.toolCalls| == 0 {
        res' := res'.(answer := Trim(resp.text, GoSpace), transcript := msgs');
        return;
      }

      over, msgs', res', error := Handle(msgs', res', resp.toolCalls[0], Trim(resp.text, GoSpace));
    }

    /** The rest of a turn that proposes a call. */
    method Handle(msgs: seq<Message>, res: RunResult, call: ToolCall, note: string)
      returns (over: bool, msgs': seq<Message>, res': RunResult, error: Option<string>)
      requires res == Partial(StateOf(msgs, res))
      modifies this
      ensures TurnIs(LoopCallTurn(cfg, StateOf(msgs, res), call, note), over, msgs', res', error)
      ensures Seen() == old(Seen()).Then(LoopCallTurn(cfg, StateOf(msgs, res), call, note).trace)
    {
      hide InvalidText, ErroredText, DeniedText;
      over, msgs', res', error := false, msgs, res, None;
      audits := audits + [Audit(Proposed, call.tool)];
      var st := Step(call, false, "", "", note);
      var verr := ValidateCall(cfg.tools, call);
      if verr.Some? {
        audits := audits + [Audit(Invalid, call.tool)];
        res' := Push(res', st.(error := verr.value), []);
        msgs' := msgs' + [ToolResult(call, InvalidText(call, verr.value), true)];
        return;
      }
      var approval := cfg.approve(msgs', call);
      if approval.Err? {
        over, error := true, Some(approval.error);
        return;
      }
      st := st.(approved := approval.value);
      if !approval.value {
        audits := audits + [Audit(Denied, call.tool)];
        res' := Push(res', st.(result := "(denied)"), []);
        msgs' := msgs' + [ToolResult(call, DeniedText(call), true)];
        return;
      }
      executions := executions + [call];
      var run := cfg.execute(msgs', call);
      if run.result.Err? {
        st := st.(error := run.result.error);
        audits := audits + [Audit(Errored, call.tool)];
        msgs' := msgs' + [ToolResult(call, ErroredText(call, run.result.error), true)];
      } else {
        st := st.(result := run.result.value);
        audits := audits + [Audit(Executed, call.tool)];
        msgs' := msgs' + [ToolResult(call, run.result.value, false)];
      }
      res' := Push(res', st, run.spawned);
    }

    /** Runs to completion from a user message, and reports each completed step as it happens. */
    method Run(system: string, user: string) returns (res: RunResult, error: Option<string>)
      modifies this
      ensures LoopRun(res, error, RunLoop(cfg, system, user).trace) == RunLoop(cfg, system, user)
      ensures Seen() == old(Seen()).Then(RunLoop(cfg, system, user).trace)
    {
      hide LoopTurnOf;
      ghost var whole := RunLoop(cfg, system, user);
      var maxSteps := cfg.maxSteps;
      if maxSteps <= 0 { maxSteps := DEFAULT_STEPS; }
      var sys := system;
      if sys == "" { sys := cfg.wording.persona; }
      var msgs := [SystemMessage(sys), UserMessage(user)];
      res := RunResult("", false, [], [], 0, 0);
      error := None;
      var step := 0;
      while step < maxSteps
        invariant 0 <= step <= maxSteps == StepCap(cfg.maxSteps)
        invariant error == None && res == Partial(StateOf(msgs, res))
        invariant LoopFrom(cfg, StateOf(msgs, res), maxSteps - step).result == whole.result
        invariant LoopFrom(cfg, StateOf(msgs, res), maxSteps - step).error == whole.error
        invariant Seen().Then(LoopFrom(cfg, StateOf(msgs, res), maxSteps - step).trace) == old(Seen()).Then(whole.trace)
      {
        ghost var before, turn := Seen(), LoopTurnOf(cfg, StateOf(msgs, res));
        var over;
        over, msgs, res, error := Turn(msgs, res);
        if over { return; }
        LoopTraceAssoc(before, turn.trace, LoopFrom(cfg, StateOf(msgs, res), maxSteps - step - 1).trace);
        step := step + 1;
      }
      res := res.(transcript := msgs, answer := cfg.wording.loopCapped, stopped := true);
    }

    /** Records a completed turn and streams it to the activity listener. */
    method Push(res: RunResult, st: Step, spawned: seq<SubAgent>) returns (res': RunResult)
      modifies this`activity
      ensures res' == res.(steps := res.steps + [st])
      ensures activity == old(activity) + [Activity(st, spawned)]
    {
      res' := res.(steps := res.steps + [st]);
      activity := activity + [Activity(st, spawned)];
    }

    /** The turn ended in these variables. */
    static ghost predicate TurnIs(turn: LoopTurn, over: bool, msgs: seq<Message>, res: RunResult,
                                  error: Option<string>) {
      if over then turn.Returned? && turn.result == res && turn.error == error
      else turn.Continued? && turn.state == StateOf(msgs, res) && error == None && res == Partial(StateOf(msgs, res))
    }

    static ghost function StateOf(msgs: seq<Message>, res: RunResult): LoopState {
      LoopState(msgs, res.steps, res.inputTokens, res.outputTokens)
    }
  }

  lemma LoopTraceAssoc(a: LoopTrace, b: LoopTrace, c: LoopTrace)
    ensures a.Then(b).Then(c) == a.Then(b.Then(c))
  {
    assert a.completions + b.completions + c.completions == a.completions + (b.completions + c.completions);
    assert a.audits + b.audits + c.audits == a.audits + (b.audits + c.audits);
    assert a.activity + b.activity + c.activity == a.activity + (b.activity + c.activity);
    assert a.executions + b.executions + c.executions == a.executions + (b.executions + c.executions);
  }
}
