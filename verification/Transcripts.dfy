/** What a run did, read off the conversation that it left: each provider call was shown exactly the
    conversation before it, each turn is what the provider, the gate, the approver and the tool answered
    there, and the run ended as its last response says. */
module Transcripts {
  import opened Llm
  import opened Schema
  import opened Text
  import opened Agent
  import opened AgentMachines
  import opened SessionTheorems
  import opened LoopTheorems

  predicate IsReply(m: Message, call: ToolCall, content: string, failed: bool) {
    m == Message(RoleTool, content, [], call.id, failed)
  }

  predicate IsSaid(m: Message, resp: Response) { m == Message(RoleAssistant, resp.text, resp.toolCalls, "", false) }

  /** The three texts that a model is told in place of a tool's output. */
  lemma ErroredReads(call: ToolCall, e: string)
    ensures ErroredText(call, e) == "Tool " + Quoted(call.tool) + " errored: " + e
  {
  }

  lemma InvalidReads(call: ToolCall, e: string)
    ensures InvalidText(call, e) == "Tool " + Quoted(call.tool) + " arguments were invalid: " + e
                                    + ". Fix the arguments and call it again, or give your final answer."
  {
  }

  lemma DeniedReads(call: ToolCall)
    ensures DeniedText(call) == "Tool " + Quoted(call.tool)
                                + " was denied by the human. Do not retry it; continue or give your final answer."
  {
  }

  // ----- Session -----

  /** Turn k of the conversation, which has n messages to begin with, proposed a call and went on. */
  predicate TurnAt(cfg: SessionConfig, ms: seq<Message>, tr: Trace, n: nat, k: nat) {
    && n + 2 * k + 1 < |ms| && k < |tr.completions| && 2 * k + 1 < |tr.audits|
    && var h, said, reply := ms[..n + 2 * k], ms[n + 2 * k], ms[n + 2 * k + 1];
    && tr.completions[k] == cfg.complete(h) && tr.completions[k].Ok?
    && var resp := tr.completions[k].value;
    && IsSaid(said, resp) && resp.toolCalls != []
    && var call, settled := resp.toolCalls[0], tr.audits[2 * k + 1];
    && tr.audits[2 * k] == Audit(Proposed, call.tool)
    && match ValidateCall(cfg.tools, call)
       case Some(e) => IsReply(reply, call, InvalidText(call, e), true) && settled == Audit(Invalid, call.tool)
       case None =>
         && !cfg.gate(call)
         && match cfg.execute(ms[..n + 2 * k + 1], call, false).result
            case Ok(out) => IsReply(reply, call, out, false) && settled == Audit(Executed, call.tool)
            case Err(e) => IsReply(reply, call, ErroredText(call, e), true) && settled == Audit(Errored, call.tool)
  }

  /** The run ended after `turns` turns: at the step cap; by an error of the provider; over the budget,
      whatever else the response says; by an answer; or at a gated call. */
  predicate EndsAt(cfg: SessionConfig, r: Advanced, n: nat, turns: nat, left: nat) {
    var ms, tr, out := r.outcome.messages, r.trace, r.outcome;
    if turns == left then
      && |tr.completions| == left && |ms| == n + 2 * left + 1
      && ms[n + 2 * left] == Message(RoleAssistant, cfg.wording.capped, [], "", false)
      && r.error.None? && out.done && out.pending.None? && out.answer == cfg.wording.capped
      && |tr.audits| == 2 * left
    else
      && |tr.completions| == turns + 1 && n + 2 * turns <= |ms|
      && tr.completions[turns] == cfg.complete(ms[..n + 2 * turns])
      && match tr.completions[turns]
         case Err(e) =>
           r.error == Some(e) && |ms| == n + 2 * turns && !out.done && out.pending.None? && |tr.audits| == 2 * turns
         case Ok(resp) =>
           && r.error.None? && |ms| == n + 2 * turns + 1 && IsSaid(ms[n + 2 * turns], resp)
           && |tr.audits| >= 2 * turns
           && var last := tr.audits[2 * turns..];
           if cfg.tokenBudget > 0 && Total(out) >= cfg.tokenBudget then
             out.done && out.pending.None? && out.answer == cfg.wording.overBudget
                 && last == [Audit(BudgetExceeded, "")]
           else if resp.toolCalls == [] then
             out.done && out.pending.None? && out.answer == Trim(resp.text, GoSpace) && last == []
           else
             var call := resp.toolCalls[0];
             && !out.done && out.pending == Some(call) && last == [Audit(Proposed, call.tool)]
             && ValidateCall(cfg.tools, call).None? && cfg.gate(call)
  }

  /** The calls of the turns that were well formed: those that ran. */
  function WellFormedCalls(tools: seq<Tool>, ms: seq<Message>, n: nat, turns: nat): seq<ToolCall>
    decreases turns
  {
    if turns == 0 || n >= |ms| || ms[n].toolCalls == [] then []
    else
      var call := ms[n].toolCalls[0];
      (if ValidateCall(tools, call).None? then [call] else []) + WellFormedCalls(tools, ms, n + 2, turns - 1)
  }

  function Unflagged(calls: seq<ToolCall>): (es: seq<Execution>)
    ensures |es| == |calls| && forall i :: 0 <= i < |es| ==> es[i] == Execution(calls[i], false)
  {
    seq(|calls|, i requires 0 <= i < |calls| => Execution(calls[i], false))
  }

  /** What the conversation and the trace say of a turn, they say of it when they have grown. */
  lemma TurnStays(cfg: SessionConfig, ms: seq<Message>, tr: Trace, ms': seq<Message>, next: Trace, n: nat)
    requires TurnAt(cfg, ms, tr, n, 0) && ms <= ms'
    ensures TurnAt(cfg, ms', tr.Then(next), n, 0)
  {
    hide InvalidText, ErroredText, ValidateCall;
    assert ms'[..n] == ms[..n] && ms'[..n + 1] == ms[..n + 1];
  }

  lemma TurnShifts(cfg: SessionConfig, ms: seq<Message>, first: Trace, tr: Trace, n: nat, k: nat)
    requires TurnAt(cfg, ms, tr, n + 2, k) && |first.completions| == 1 && |first.audits| == 2
    ensures TurnAt(cfg, ms, first.Then(tr), n, k + 1)
  {
    hide InvalidText, ErroredText, ValidateCall;
    assert n + 2 + 2 * k == n + 2 * (k + 1);
    assert first.Then(tr).completions[k + 1] == tr.completions[k];
    assert first.Then(tr).audits[2 * (k + 1)] == tr.audits[2 * k];
    assert first.Then(tr).audits[2 * (k + 1) + 1] == tr.audits[2 * k + 1];
  }

  lemma EndShifts(cfg: SessionConfig, r: Advanced, first: Trace, n: nat, turns: nat, left: nat)
    requires EndsAt(cfg, r, n + 2, turns, left) && |first.completions| == 1 && |first.audits| == 2
    ensures EndsAt(cfg, r.(trace := first.Then(r.trace)), n, turns + 1, left + 1)
  {
    hide Trim, ValidateCall;
    var all := first.Then(r.trace);
    assert n + 2 + 2 * turns == n + 2 * (turns + 1);
    assert turns < |r.trace.completions| ==> all.completions[turns + 1] == r.trace.completions[turns];
    assert 2 * turns <= |r.trace.audits| ==> all.audits[2 * (turns + 1)..] == r.trace.audits[2 * turns..];
  }

  lemma OneTurn(cfg: SessionConfig, out: Outcome)
    requires Fresh(out)
    ensures var t, n := TurnOf(cfg, out), |out.messages|;
      if t.over then EndsAt(cfg, Advanced(t.outcome, t.error, t.trace), n, 0, 1)
      else TurnAt(cfg, t.outcome.messages, t.trace, n, 0)
    ensures var t, n := TurnOf(cfg, out), |out.messages|;
      if t.over then t.trace.executions == []
      else
        && |t.trace.completions| == 1 && |t.trace.audits| == 2 && |t.outcome.messages| == n + 2
        && t.trace.executions == Unflagged(WellFormedCalls(cfg.tools, t.outcome.messages, n, 1))
  {
    hide InvalidText, ErroredText, Trim, ValidateCall;
    var t, n := TurnOf(cfg, out), |out.messages|;
    var ms := t.outcome.messages;
    if t.over {
      assert |ms| > n ==> ms[..n] == out.messages;
      assert ms[..n] == out.messages;
      assert t.trace.audits[0..] == t.trace.audits;
    } else {
      assert ms[..n] == out.messages && ms[..n + 1] == out.messages + [ms[n]];
      assert WellFormedCalls(cfg.tools, ms, n + 2, 0) == [];
    }
  }

  lemma EndAtOnce(cfg: SessionConfig, r: Advanced, n: nat, left: nat)
    requires EndsAt(cfg, r, n, 0, 1) && left > 0
    ensures EndsAt(cfg, r, n, 0, left)
  {
  }

  lemma CallsUnfold(tools: seq<Tool>, ms: seq<Message>, ms': seq<Message>, n: nat, turns: nat)
    requires n + 2 == |ms| && ms <= ms'
    requires ms[n].toolCalls != []
    ensures Unflagged(WellFormedCalls(tools, ms', n, turns + 1))
         == Unflagged(WellFormedCalls(tools, ms, n, 1)) + Unflagged(WellFormedCalls(tools, ms', n + 2, turns))
  {
    hide ValidateCall;
    assert WellFormedCalls(tools, ms, n + 2, 0) == [];
  }

  /** For every run from a fresh state: it is some turns that went on, and then its end. */
  lemma {:induction false} AdvanceExplained(cfg: SessionConfig, out: Outcome, left: nat) returns (turns: nat)
    requires Fresh(out)
    ensures var r, n := AdvanceFrom(cfg, out, left), |out.messages|;
      && turns <= left && out.messages <= r.outcome.messages
      && (forall k :: 0 <= k < turns ==> TurnAt(cfg, r.outcome.messages, r.trace, n, k))
      && EndsAt(cfg, r, n, turns, left)
      && r.trace.executions == Unflagged(WellFormedCalls(cfg.tools, r.outcome.messages, n, turns))
    decreases left
  {
    hide TurnOf, TurnAt, EndsAt, WellFormedCalls;
    var n, r := |out.messages|, AdvanceFrom(cfg, out, left);
    turns := 0;
    AdvanceAppends(cfg, out, left);
    if left == 0 {
      CappedAtOnce(cfg, out);
    } else {
      var t := TurnOf(cfg, out);
      TurnFacts(cfg, out);
      OneTurn(cfg, out);
      if t.over {
        NoCalls(cfg.tools, r.outcome.messages, n);
        EndAtOnce(cfg, r, n, left);
      } else {
        var rest := AdvanceFrom(cfg, t.outcome, left - 1);
        var more := AdvanceExplained(cfg, t.outcome, left - 1);
        turns := more + 1;
        forall k | 0 <= k < turns ensures TurnAt(cfg, r.outcome.messages, r.trace, n, k) {
          if k == 0 {
            TurnStays(cfg, t.outcome.messages, t.trace, r.outcome.messages, rest.trace, n);
          } else {
            TurnShifts(cfg, r.outcome.messages, t.trace, rest.trace, n, k - 1);
          }
        }
        EndShifts(cfg, rest, t.trace, n, more, left - 1);
        TurnProposes(cfg, t.outcome.messages, t.trace, n);
        CallsUnfold(cfg.tools, t.outcome.messages, r.outcome.messages, n, more);
      }
    }
  }

  lemma TurnProposes(cfg: SessionConfig, ms: seq<Message>, tr: Trace, n: nat)
    requires TurnAt(cfg, ms, tr, n, 0)
    ensures n < |ms| && ms[n].toolCalls != []
  {
  }

  lemma NoCalls(tools: seq<Tool>, ms: seq<Message>, n: nat)
    ensures WellFormedCalls(tools, ms, n, 0) == [] && Unflagged([]) == []
  {
  }

  lemma CappedAtOnce(cfg: SessionConfig, out: Outcome)
    requires Fresh(out)
    ensures var r := AdvanceFrom(cfg, out, 0);
      EndsAt(cfg, r, |out.messages|, 0, 0) && WellFormedCalls(cfg.tools, r.outcome.messages, |out.messages|, 0) == []
      && r.trace.executions == []
  {
  }

  /** A resumed run begins with the answer to the decided call (a denial, or what the tool gave for this
      conversation with the flag set), and goes on as an Advance from there. */
  lemma ResumeExplained(cfg: SessionConfig, messages: seq<Message>, call: ToolCall, approved: bool)
    returns (first: Message)
    ensures var r, rest := Resume(cfg, messages, call, approved), Advance(cfg, messages + [first]);
      && r.outcome == rest.outcome && r.error == rest.error
      && r.trace.completions == rest.trace.completions && r.trace.emitted == [first] + rest.trace.emitted
      && (if !approved then
            && IsReply(first, call, DeniedText(call), true)
            && r.trace.audits == [Audit(Denied, call.tool)] + rest.trace.audits
            && r.trace.executions == rest.trace.executions
          else
            && r.trace.executions == [Execution(call, true)] + rest.trace.executions
            && match cfg.execute(messages, call, true).result
               case Ok(out) =>
                 && IsReply(first, call, out, false)
                 && r.trace.audits == [Audit(Executed, call.tool)] + rest.trace.audits
               case Err(e) =>
                 && IsReply(first, call, ErroredText(call, e), true)
                 && r.trace.audits == [Audit(Errored, call.tool)] + rest.trace.audits)
  {
    hide Advance, DeniedText, ErroredText;
    var (decided, _) := Decided(cfg, messages, call, approved);
    first := decided[|messages|];
    assert decided == messages + [first];
  }

  // ----- Loop -----

  /** Turn k of a Loop's conversation, and the activity and the audits that it reported: the call was
      rejected by its schema, denied, or executed, and the step says which and with what. */
  predicate LoopTurnAt(cfg: LoopConfig, ms: seq<Message>, tr: LoopTrace, n: nat, k: nat) {
    && n + 2 * k + 1 < |ms| && k < |tr.completions| && 2 * k + 1 < |tr.audits| && k < |tr.activity|
    && var said, reply, h := ms[n + 2 * k], ms[n + 2 * k + 1], ms[..n + 2 * k + 1];
    && tr.completions[k] == cfg.complete(ms[..n + 2 * k]) && tr.completions[k].Ok?
    && var resp := tr.completions[k].value;
    && IsSaid(said, resp) && resp.toolCalls != []
    && var call, settled, act := resp.toolCalls[0], tr.audits[2 * k + 1], tr.activity[k];
    && var st := act.step;
    && tr.audits[2 * k] == Audit(Proposed, call.tool)
    && st.call == call && st.note == Trim(resp.text, GoSpace)
    && match ValidateCall(cfg.tools, call)
       case Some(e) =>
         && IsReply(reply, call, InvalidText(call, e), true) && settled == Audit(Invalid, call.tool)
         && !st.approved && st.error == e && st.result == "" && act.spawned == []
       case None =>
         match cfg.approve(h, call)
         case Err(_) => false
         case Ok(false) =>
           && IsReply(reply, call, DeniedText(call), true) && settled == Audit(Denied, call.tool)
           && !st.approved && st.error == "" && st.result == "(denied)" && act.spawned == []
         case Ok(true) =>
           var run := cfg.execute(h, call);
           && st.approved && act.spawned == run.spawned
           && match run.result
              case Ok(out) =>
                && IsReply(reply, call, out, false) && settled == Audit(Executed, call.tool)
                && st.error == "" && st.result == out
              case Err(e) =>
                && IsReply(reply, call, ErroredText(call, e), true) && settled == Audit(Errored, call.tool)
                && st.error == e && st.result == ""
  }

  predicate LoopEndsAt(cfg: LoopConfig, r: LoopRun, ms: seq<Message>, n: nat, turns: nat, left: nat) {
    var tr, res := r.trace, r.result;
    if turns == left then
      && |tr.completions| == left && |ms| == n + 2 * left && |tr.audits| == 2 * left
      && r.error.None? && res.stopped && res.answer == cfg.wording.loopCapped && res.transcript == ms
    else
      && |tr.completions| == turns + 1 && n + 2 * turns <= |ms| && |tr.audits| >= 2 * turns && !res.stopped
      && tr.completions[turns] == cfg.complete(ms[..n + 2 * turns])
      && match tr.completions[turns]
         case Err(e) => r.error == Some(e) && |ms| == n + 2 * turns && |tr.audits| == 2 * turns && res.answer == ""
         case Ok(resp) =>
           && |ms| == n + 2 * turns + 1 && IsSaid(ms[n + 2 * turns], resp)
           && if resp.toolCalls == [] then
                && r.error.None? && |tr.audits| == 2 * turns
                && res.answer == Trim(resp.text, GoSpace) && res.transcript == ms
              else
                var call := resp.toolCalls[0];
                && ValidateCall(cfg.tools, call).None? && cfg.approve(ms, call).Err?
                && r.error == Some(cfg.approve(ms, call).error)
                && tr.audits[2 * turns..] == [Audit(Proposed, call.tool)]
  }

  /** The calls of the steps that were approved: those that ran. */
  function ApprovedSteps(acts: seq<Activity>): seq<ToolCall> {
    if acts == [] then [] else ApprovedStep(acts[0].step) + ApprovedSteps(acts[1..])
  }

  function ApprovedStep(st: Step): seq<ToolCall> { if st.approved then [st.call] else [] }

  lemma LoopTurnStays(cfg: LoopConfig, ms: seq<Message>, tr: LoopTrace, ms': seq<Message>, next: LoopTrace, n: nat)
    requires LoopTurnAt(cfg, ms, tr, n, 0) && ms <= ms'
    ensures LoopTurnAt(cfg, ms', tr.Then(next), n, 0)
  {
    hide InvalidText, ErroredText, DeniedText, ValidateCall, Trim;
    assert ms'[..n] == ms[..n] && ms'[..n + 1] == ms[..n + 1];
  }

  lemma LoopTurnShifts(cfg: LoopConfig, ms: seq<Message>, first: LoopTrace, tr: LoopTrace, n: nat, k: nat)
    requires LoopTurnAt(cfg, ms, tr, n + 2, k)
    requires |first.completions| == 1 && |first.audits| == 2 && |first.activity| == 1
    ensures LoopTurnAt(cfg, ms, first.Then(tr), n, k + 1)
  {
    hide InvalidText, ErroredText, DeniedText, ValidateCall, Trim;
    assert n + 2 + 2 * k == n + 2 * (k + 1);
    assert first.Then(tr).completions[k + 1] == tr.completions[k];
    assert first.Then(tr).activity[k + 1] == tr.activity[k];
    assert first.Then(tr).audits[2 * (k + 1)] == tr.audits[2 * k];
    assert first.Then(tr).audits[2 * (k + 1) + 1] == tr.audits[2 * k + 1];
  }

  lemma LoopEndShifts(cfg: LoopConfig, r: LoopRun, first: LoopTrace, ms: seq<Message>, n: nat, turns: nat, left: nat)
    requires LoopEndsAt(cfg, r, ms, n + 2, turns, left) && |first.completions| == 1 && |first.audits| == 2
    ensures LoopEndsAt(cfg, r.(trace := first.Then(r.trace)), ms, n, turns + 1, left + 1)
  {
    hide Trim, ValidateCall;
    var all := first.Then(r.trace);
    assert n + 2 + 2 * turns == n + 2 * (turns + 1);
    assert turns < |r.trace.completions| ==> all.completions[turns + 1] == r.trace.completions[turns];
    assert 2 * turns <= |r.trace.audits| ==> all.audits[2 * (turns + 1)..] == r.trace.audits[2 * turns..];
  }

  lemma OneLoopTurn(cfg: LoopConfig, st: LoopState) returns (ms: seq<Message>)
    ensures st.messages <= ms
    ensures match LoopTurnOf(cfg, st)
      case Returned(res, error, trace) =>
        && LoopEndsAt(cfg, LoopRun(res, error, trace), ms, |st.messages|, 0, 1)
        && trace.executions == [] && trace.activity == []
      case Continued(next, trace) =>
        && ms == next.messages && |ms| == |st.messages| + 2
        && LoopTurnAt(cfg, ms, trace, |st.messages|, 0)
        && |trace.completions| == 1 && |trace.audits| == 2 && |trace.activity| == 1
        && trace.executions == ApprovedSteps(trace.activity)
  {
    hide InvalidText, ErroredText, DeniedText, Trim, ValidateCall;
    var n := |st.messages|;
    match LoopTurnOf(cfg, st)
    case Returned(res, error, trace) =>
      match cfg.complete(st.messages)
      {
        case Err(_) => ms := st.messages;
        case Ok(resp) => ms := st.messages + [AssistantMessage(resp.text, resp.toolCalls)];
      }
      assert ms[..n] == st.messages;
      assert trace.audits[0..] == trace.audits;
    case Continued(next, trace) =>
      ms := next.messages;
      assert ms[..n] == st.messages && ms[..n + 1] == st.messages + [ms[n]];
      assert trace.activity[1..] == [];
  }

  lemma LoopEndAtOnce(cfg: LoopConfig, r: LoopRun, ms: seq<Message>, n: nat, left: nat)
    requires LoopEndsAt(cfg, r, ms, n, 0, 1) && left > 0
    ensures LoopEndsAt(cfg, r, ms, n, 0, left)
  {
  }

  lemma LoopCappedAtOnce(cfg: LoopConfig, st: LoopState)
    ensures LoopEndsAt(cfg, LoopFrom(cfg, st, 0), st.messages, |st.messages|, 0, 0)
    ensures LoopFrom(cfg, st, 0).trace == LoopTrace([], [], [], [])
  {
  }

  lemma {:induction false} ApprovedConcat(a: seq<Activity>, b: seq<Activity>)
    ensures ApprovedSteps(a + b) == ApprovedSteps(a) + ApprovedSteps(b)
  {
    hide ApprovedStep;
    if a == [] {
      assert a + b == b;
    } else {
      assert (a + b)[1..] == a[1..] + b && (a + b)[0] == a[0];
      ApprovedConcat(a[1..], b);
    }
  }

  /** For every run of a Loop, failed ones included: `ms` is its conversation, of which each turn is
      accounted for by its step, and which ended as its last response says. */
  lemma {:induction false} LoopExplained(cfg: LoopConfig, st: LoopState, left: nat)
    returns (turns: nat, ms: seq<Message>)
    ensures var r, n := LoopFrom(cfg, st, left), |st.messages|;
      && turns <= left && st.messages <= ms && |r.trace.activity| == turns
      && (forall k :: 0 <= k < turns ==> LoopTurnAt(cfg, ms, r.trace, n, k))
      && LoopEndsAt(cfg, r, ms, n, turns, left)
      && r.trace.executions == ApprovedSteps(r.trace.activity)
    decreases left
  {
    hide LoopTurnOf, LoopTurnAt, LoopEndsAt, ApprovedSteps;
    var n, r := |st.messages|, LoopFrom(cfg, st, left);
    turns, ms := 0, st.messages;
    if left == 0 {
      LoopCappedAtOnce(cfg, st);
      NoApproved();
    } else {
      var first := OneLoopTurn(cfg, st);
      match LoopTurnOf(cfg, st)
      case Returned(_, _, _) =>
        ms := first;
        NoApproved();
        LoopEndAtOnce(cfg, r, ms, n, left);
      case Continued(next, trace) =>
        var rest := LoopFrom(cfg, next, left - 1);
        var more;
        more, ms := LoopExplained(cfg, next, left - 1);
        turns := more + 1;
        forall k | 0 <= k < turns ensures LoopTurnAt(cfg, ms, r.trace, n, k) {
          if k == 0 {
            LoopTurnStays(cfg, next.messages, trace, ms, rest.trace, n);
          } else {
            LoopTurnShifts(cfg, ms, trace, rest.trace, n, k - 1);
          }
        }
        LoopEndShifts(cfg, rest, trace, ms, n, more, left - 1);
        ApprovedConcat(trace.activity, rest.trace.activity);
    }
  }

  /** A run from its opening: the system prompt, or the built-in persona if there is none, the user's
      message, and at most the given number of steps, or eight. */
  lemma RunExplained(cfg: LoopConfig, system: string, user: string) returns (turns: nat, ms: seq<Message>)
    ensures var r, left := RunLoop(cfg, system, user), if cfg.maxSteps <= 0 then 8 else cfg.maxSteps;
      && turns <= left && |ms| >= 2 && |r.trace.activity| == turns
      && ms[0] == Message(RoleSystem, if system == "" then cfg.wording.persona else system, [], "", false)
      && ms[1] == Message(RoleUser, user, [], "", false)
      && (forall k :: 0 <= k < turns ==> LoopTurnAt(cfg, ms, r.trace, 2, k))
      && LoopEndsAt(cfg, r, ms, 2, turns, left)
      && r.trace.executions == ApprovedSteps(r.trace.activity)
      && r.result.steps == StepsOf(r.trace.activity)
      && r.result.inputTokens == InputSum(r.trace.completions)
      && r.result.outputTokens == OutputSum(r.trace.completions)
  {
    hide LoopFrom, LoopTurnAt, LoopEndsAt, ApprovedSteps;
    var st, left := OpeningState(cfg.wording, system, user), StepCap(cfg.maxSteps);
    turns, ms := LoopExplained(cfg, st, left);
    LoopConserves(cfg, st, left);
    LoopTells(cfg, st, left);
    assert [] + StepsOf(RunLoop(cfg, system, user).trace.activity)
        == StepsOf(RunLoop(cfg, system, user).trace.activity);
    assert ms[0] == st.messages[0] && ms[1] == st.messages[1];
  }

  /** And an Advance on a conversation, which may take as many. */
  lemma AdvanceIsExplained(cfg: SessionConfig, messages: seq<Message>) returns (turns: nat)
    ensures var r, n, left := Advance(cfg, messages), |messages|, if cfg.maxSteps <= 0 then 8 else cfg.maxSteps;
      && turns <= left && messages <= r.outcome.messages
      && (forall k :: 0 <= k < turns ==> TurnAt(cfg, r.outcome.messages, r.trace, n, k))
      && EndsAt(cfg, r, n, turns, left)
      && r.trace.executions == Unflagged(WellFormedCalls(cfg.tools, r.outcome.messages, n, turns))
      && r.outcome.messages == messages + r.trace.emitted
  {
    hide AdvanceFrom, TurnAt, EndsAt, WellFormedCalls;
    turns := AdvanceExplained(cfg, Start(messages), StepCap(cfg.maxSteps));
    AdvanceAppends(cfg, Start(messages), StepCap(cfg.maxSteps));
  }

  lemma NoApproved()
    ensures ApprovedSteps([]) == []
  {
  }
}
