/** What every run of a Loop keeps. */
module LoopTheorems {
  import opened Llm
  import opened Schema
  import opened Text
  import opened Agent
  import opened SessionTheorems

  function StepsOf(acts: seq<Activity>): seq<Step> {
    if acts == [] then [] else [acts[0].step] + StepsOf(acts[1..])
  }

  /** The conversation that a run adds, read against its activity: for each activity an assistant
      turn whose first call is the step's, then the one tool turn that answers it; and at the end
      a final assistant turn without calls, unless the run stopped at its cap. */
  predicate Tells(ms: seq<Message>, acts: seq<Activity>, stopped: bool)
    decreases |acts|
  {
    if acts == [] then
      if stopped then ms == [] else |ms| == 1 && ms[0].role == RoleAssistant && ms[0].toolCalls == []
    else
      && |ms| >= 2
      && TellsStep(ms[0], ms[1], acts[0].step)
      && Tells(ms[2..], acts[1..], stopped)
  }

  predicate TellsStep(said: Message, answer: Message, st: Step) {
    && said.role == RoleAssistant && said.toolCalls != [] && said.toolCalls[0] == st.call
    && st.note == Trim(said.content, GoSpace)
    && answer.role == RoleTool && answer.toolCallId == st.call.id
    && (answer.toolError ==> st.result == "" || (!st.approved && st.result == "(denied)"))
    && (!answer.toolError ==> st.approved && st.error == "" && answer.content == st.result)
  }

  lemma LoopTurnFacts(cfg: LoopConfig, st: LoopState)
    ensures match LoopTurnOf(cfg, st)
      case Returned(res, error, trace) =>
        && res.steps == st.steps && trace.activity == [] && trace.executions == [] && !res.stopped
        && Settled(trace.audits) == 0
        && (error.None? ==> Count(Proposed, trace.audits) == 0)
        && Count(Proposed, trace.audits) <= 1
        && res.inputTokens == st.inputTokens + InputSum(trace.completions)
        && res.outputTokens == st.outputTokens + OutputSum(trace.completions)
        && |trace.completions| == 1
        && (error.None? ==>
              && res.transcript != []
              && res.transcript == st.messages + [res.transcript[|res.transcript| - 1]]
              && Tells([res.transcript[|res.transcript| - 1]], [], false)
              && res.answer == Trim(res.transcript[|res.transcript| - 1].content, GoSpace))
      case Continued(next, trace) =>
        && |trace.activity| == 1 && next.steps == st.steps + [trace.activity[0].step]
        && |next.messages| == |st.messages| + 2 && next.messages[..|st.messages|] == st.messages
        && TellsStep(next.messages[|st.messages|], next.messages[|st.messages| + 1], trace.activity[0].step)
        && next.inputTokens == st.inputTokens + InputSum(trace.completions)
        && next.outputTokens == st.outputTokens + OutputSum(trace.completions)
        && |trace.completions| == 1
  {
    hide InvalidText, ErroredText, DeniedText, Trim;
    var t := LoopTurnOf(cfg, st);
    if t.Returned? && t.trace.audits != [] {
      CountOne(t.trace.audits[0]);
      assert t.trace.audits == [t.trace.audits[0]];
    }
  }

  lemma LoopTurnAudits(cfg: LoopConfig, st: LoopState)
    ensures var t := LoopTurnOf(cfg, st); t.Continued? ==>
      && Count(Proposed, t.trace.audits) == 1 && Settled(t.trace.audits) == 1
      && |t.trace.executions| == Count(Executed, t.trace.audits) + Count(Errored, t.trace.audits)
  {
    hide InvalidText, ErroredText, DeniedText, Trim;
    var t := LoopTurnOf(cfg, st);
    if t.Continued? {
      CountPair(t.trace.audits[0], t.trace.audits[1]);
      assert t.trace.audits == [t.trace.audits[0], t.trace.audits[1]];
    }
  }

  /** On any return without error the proposed calls, their settlements, the recorded steps and the
      activity callbacks are equally many, and the recorded steps are those reported. An error
      leaves at most the one call it interrupted unsettled. */
  lemma {:induction false} LoopConserves(cfg: LoopConfig, st: LoopState, left: nat)
    ensures var r := LoopFrom(cfg, st, left);
      && r.result.steps == st.steps + StepsOf(r.trace.activity)
      && Settled(r.trace.audits) == |r.trace.activity|
      && |r.trace.executions| == Count(Executed, r.trace.audits) + Count(Errored, r.trace.audits)
      && (r.error.None? ==> Count(Proposed, r.trace.audits) == |r.trace.activity|)
      && |r.trace.activity| <= Count(Proposed, r.trace.audits) <= |r.trace.activity| + 1
    decreases left
  {
    hide LoopTurnOf, Settled, Count, Tells, TellsStep;
    if left == 0 {
      NoAudits();
    } else {
      LoopTurnFacts(cfg, st);
      LoopTurnAudits(cfg, st);
      match LoopTurnOf(cfg, st)
      case Returned(_, _, trace) => NothingExecuted(cfg, st);
      case Continued(next, trace) =>
        LoopConserves(cfg, next, left - 1);
        var rest := LoopFrom(cfg, next, left - 1);
        TalliesConcat(trace.audits, rest.trace.audits);
        assert (trace.activity + rest.trace.activity)[1..] == rest.trace.activity;
    }
  }

  lemma NoAudits()
    ensures Settled([]) == Count(Proposed, []) == Count(Executed, []) == Count(Errored, []) == 0
  {
  }

  lemma TalliesConcat(a: seq<Audit>, b: seq<Audit>)
    ensures Settled(a + b) == Settled(a) + Settled(b)
    ensures Count(Proposed, a + b) == Count(Proposed, a) + Count(Proposed, b)
    ensures Count(Executed, a + b) == Count(Executed, a) + Count(Executed, b)
    ensures Count(Errored, a + b) == Count(Errored, a) + Count(Errored, b)
  {
    hide Count;
    CountsConcat(a, b);
  }

  lemma NothingExecuted(cfg: LoopConfig, st: LoopState)
    ensures var t := LoopTurnOf(cfg, st); t.Returned? ==>
      Count(Executed, t.trace.audits) == 0 && Count(Errored, t.trace.audits) == 0
  {
    hide InvalidText, ErroredText, DeniedText, Trim;
    LoopTurnFacts(cfg, st);
  }

  /** A Loop asks for at most `left` completions, counts their tokens exactly, and a run without
      error appends to its conversation what its activity tells. */
  lemma {:induction false} LoopTells(cfg: LoopConfig, st: LoopState, left: nat)
    ensures var r := LoopFrom(cfg, st, left);
      && |r.trace.completions| <= left
      && |r.trace.activity| <= |r.trace.completions|
      && r.result.inputTokens == st.inputTokens + InputSum(r.trace.completions)
      && r.result.outputTokens == st.outputTokens + OutputSum(r.trace.completions)
      && (if r.result.stopped then r.error.None? && |r.trace.completions| == |r.trace.activity| == left
          else |r.trace.completions| == |r.trace.activity| + 1)
      && (r.error.None? ==>
            && |st.messages| <= |r.result.transcript| && r.result.transcript[..|st.messages|] == st.messages
            && Tells(r.result.transcript[|st.messages|..], r.trace.activity, r.result.stopped))
    decreases left
  {
    hide LoopTurnOf;
    if left > 0 {
      LoopTurnFacts(cfg, st);
      match LoopTurnOf(cfg, st)
      case Returned(res, error, trace) =>
        if error.None? {
          assert res.transcript[|st.messages|..] == [res.transcript[|res.transcript| - 1]];
        }
      case Continued(next, trace) =>
        LoopTells(cfg, next, left - 1);
        var rest := LoopFrom(cfg, next, left - 1);
        SumsConcat(trace.completions, rest.trace.completions);
        assert (trace.activity + rest.trace.activity)[1..] == rest.trace.activity;
        if rest.error.None? {
          var n, ms := |st.messages|, rest.result.transcript;
          assert ms[..n] == ms[..|next.messages|][..n] == st.messages;
          assert ms[n] == ms[..|next.messages|][n] && ms[n + 1] == ms[..|next.messages|][n + 1];
          assert ms[n..][2..] == ms[|next.messages|..];
        }
    }
  }

  /** Only well-formed calls that the approver accepted are executed. */
  lemma {:induction false} LoopExecutes(cfg: LoopConfig, st: LoopState, left: nat)
    ensures forall c <- LoopFrom(cfg, st, left).trace.executions ::
      WellFormed(cfg.tools, c) && exists h :: cfg.approve(h, c) == Ok(true)
    decreases left
  {
    hide WellFormed, InvalidText, ErroredText, DeniedText, Trim;
    if left > 0 {
      match LoopTurnOf(cfg, st)
      case Returned(_, _, _) =>
      case Continued(next, trace) =>
        LoopExecutes(cfg, next, left - 1);
        forall c | c in trace.executions ensures WellFormed(cfg.tools, c) && exists h :: cfg.approve(h, c) == Ok(true) {
          var resp := cfg.complete(st.messages).value;
          var h := st.messages + [AssistantMessage(resp.text, resp.toolCalls)];
          assert cfg.approve(h, c) == Ok(true);
        }
    }
  }

  /** A first completion that proposes a well-formed call: the call is executed exactly when the
      approver accepts it, and its step, with what it spawned, comes first in the activity. */
  lemma FirstCall(cfg: LoopConfig, st: LoopState, left: nat, resp: Response, ok: bool)
    requires left > 0 && cfg.complete(st.messages) == Ok(resp)
    requires resp.toolCalls != [] && ValidateCall(cfg.tools, resp.toolCalls[0]).None?
    requires cfg.approve(st.messages + [AssistantMessage(resp.text, resp.toolCalls)], resp.toolCalls[0]) == Ok(ok)
    ensures var trace, c := LoopFrom(cfg, st, left).trace, resp.toolCalls[0];
      && trace.activity != [] && trace.activity[0].step.call == c && trace.activity[0].step.approved == ok
      && (if ok then
            && trace.executions != [] && trace.executions[0] == c
            && trace.activity[0].spawned
               == cfg.execute(st.messages + [AssistantMessage(resp.text, resp.toolCalls)], c).spawned
          else
            trace.activity[0].spawned == [])
  {
    hide InvalidText, ErroredText, DeniedText, Trim, WellFormed;
    var t := LoopTurnOf(cfg, st);
    assert t.Continued?;
    assert LoopFrom(cfg, st, left).trace == t.trace.Then(LoopFrom(cfg, t.state, left - 1).trace);
  }
}
