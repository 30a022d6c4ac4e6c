/** What every Advance and every Resume keeps. */
module SessionTheorems {
  import opened Llm
  import opened Schema
  import opened Agent
  import opened Text

  // ----- Measures over what the observers saw -----

  function InputSum(cs: seq<Result<Response>>): int {
    if cs == [] then 0 else (if cs[0].Ok? then cs[0].value.inputTokens else 0) + InputSum(cs[1..])
  }

  function OutputSum(cs: seq<Result<Response>>): int {
    if cs == [] then 0 else (if cs[0].Ok? then cs[0].value.outputTokens else 0) + OutputSum(cs[1..])
  }

  function Spent(cs: seq<Result<Response>>): int { InputSum(cs) + OutputSum(cs) }

  lemma {:induction false} SumsConcat(a: seq<Result<Response>>, b: seq<Result<Response>>)
    ensures InputSum(a + b) == InputSum(a) + InputSum(b)
    ensures OutputSum(a + b) == OutputSum(a) + OutputSum(b)
  {
    if a == [] {
      assert a + b == b;
    } else {
      SumsConcat(a[1..], b);
      assert (a + b)[1..] == a[1..] + b;
    }
  }

  function Count(kind: AuditKind, audits: seq<Audit>): nat {
    if audits == [] then 0 else (if audits[0].kind == kind then 1 else 0) + Count(kind, audits[1..])
  }

  lemma {:induction false} CountConcat(kind: AuditKind, a: seq<Audit>, b: seq<Audit>)
    ensures Count(kind, a + b) == Count(kind, a) + Count(kind, b)
  {
    if a == [] {
      assert a + b == b;
    } else {
      CountConcat(kind, a[1..], b);
      assert (a + b)[1..] == a[1..] + b;
    }
  }

  lemma CountsConcat(a: seq<Audit>, b: seq<Audit>)
    ensures forall kind :: Count(kind, a + b) == Count(kind, a) + Count(kind, b)
  {
    forall kind ensures Count(kind, a + b) == Count(kind, a) + Count(kind, b) { CountConcat(kind, a, b); }
  }

  lemma CountOne(a: Audit)
    ensures forall kind :: Count(kind, [a]) == if a.kind == kind then 1 else 0
  {
    forall kind ensures Count(kind, [a]) == if a.kind == kind then 1 else 0 {
      assert [a][1..] == [];
    }
  }

  lemma CountPair(a: Audit, b: Audit)
    ensures forall kind :: Count(kind, [a, b]) == (if a.kind == kind then 1 else 0) + (if b.kind == kind then 1 else 0)
  {
    CountOne(a);
    CountOne(b);
    CountsConcat([a], [b]);
    assert [a, b] == [a] + [b];
  }

  /** The audits that settle a proposed call. */
  function Settled(audits: seq<Audit>): nat {
    Count(Invalid, audits) + Count(Denied, audits) + Count(Executed, audits) + Count(Errored, audits)
  }

  function Total(out: Outcome): int { out.inputTokens + out.outputTokens }

  // ----- One turn -----

  predicate Fresh(out: Outcome) { !out.done && out.pending.None? }

  /** What one turn adds to the conversation and to the meters. */
  lemma TurnFacts(cfg: SessionConfig, out: Outcome)
    requires Fresh(out)
    ensures var t := TurnOf(cfg, out);
      && t.outcome.messages == out.messages + t.trace.emitted
      && |t.trace.completions| == 1
      && t.outcome.inputTokens == out.inputTokens + InputSum(t.trace.completions)
      && t.outcome.outputTokens == out.outputTokens + OutputSum(t.trace.completions)
      && (!t.over ==> Fresh(t.outcome) && t.error.None?)
      && (t.over && t.error.Some? ==> t.outcome == out)
      && (t.over && t.error.None? ==> t.outcome.done != t.outcome.pending.Some?)
  {
    hide InvalidText, ErroredText, Trim;
  }

  /** What one turn adds to the audit trail: at most one proposal, and its settlement unless the
      call is now pending. */
  lemma TurnAudits(cfg: SessionConfig, out: Outcome)
    requires Fresh(out)
    ensures var t := TurnOf(cfg, out);
      && Settled(t.trace.audits) + (if t.outcome.pending.Some? then 1 else 0) == Count(Proposed, t.trace.audits)
      && Count(Denied, t.trace.audits) == 0
      && |t.trace.executions| == Count(Executed, t.trace.audits) + Count(Errored, t.trace.audits)
  {
    hide InvalidText, ErroredText, Trim;
    var t := TurnOf(cfg, out);
    if |t.trace.audits| == 2 {
      CountPair(t.trace.audits[0], t.trace.audits[1]);
      assert t.trace.audits == [t.trace.audits[0], t.trace.audits[1]];
    } else if |t.trace.audits| == 1 {
      CountOne(t.trace.audits[0]);
      assert t.trace.audits == [t.trace.audits[0]];
    }
  }

  // ----- A whole Advance, from any fresh state with `left` steps to go -----

  /** Advance only appends: the messages streamed to OnMessage are exactly what it adds, in order. */
  lemma {:induction false} AdvanceAppends(cfg: SessionConfig, out: Outcome, left: nat)
    requires Fresh(out)
    ensures var r := AdvanceFrom(cfg, out, left);
      r.outcome.messages == out.messages + r.trace.emitted
    decreases left
  {
    hide TurnOf;
    if left > 0 {
      TurnFacts(cfg, out);
      var t := TurnOf(cfg, out);
      if !t.over {
        AdvanceAppends(cfg, t.outcome, left - 1);
      }
    }
  }

  /** An Advance that returns without error has exactly one of Done and Pending; one that returns
      with an error has neither. */
  lemma {:induction false} AdvanceVerdict(cfg: SessionConfig, out: Outcome, left: nat)
    requires Fresh(out)
    ensures var r := AdvanceFrom(cfg, out, left);
      if r.error.None? then r.outcome.done != r.outcome.pending.Some? else Fresh(r.outcome)
    decreases left
  {
    hide TurnOf;
    if left > 0 {
      TurnFacts(cfg, out);
      var t := TurnOf(cfg, out);
      if !t.over {
        AdvanceVerdict(cfg, t.outcome, left - 1);
      }
    }
  }

  /** At most `left` completions are asked for, and the meters advance by exactly the tokens of
      the responses received. */
  lemma {:induction false} AdvanceMeters(cfg: SessionConfig, out: Outcome, left: nat)
    requires Fresh(out)
    ensures var r := AdvanceFrom(cfg, out, left);
      && |r.trace.completions| <= left
      && r.outcome.inputTokens == out.inputTokens + InputSum(r.trace.completions)
      && r.outcome.outputTokens == out.outputTokens + OutputSum(r.trace.completions)
    decreases left
  {
    hide TurnOf;
    if left > 0 {
      TurnFacts(cfg, out);
      var t := TurnOf(cfg, out);
      if !t.over {
        AdvanceMeters(cfg, t.outcome, left - 1);
        SumsConcat(t.trace.completions, AdvanceFrom(cfg, t.outcome, left - 1).trace.completions);
      }
    }
  }

  /** With a positive budget, the spending before every completion is strictly below it; and the
      run records that the budget was exceeded exactly when its final total is not. */
  lemma {:induction false} AdvanceBudget(cfg: SessionConfig, out: Outcome, left: nat)
    requires Fresh(out) && cfg.tokenBudget > 0 && Total(out) < cfg.tokenBudget
    ensures var r := AdvanceFrom(cfg, out, left);
      && (forall k :: 0 <= k < |r.trace.completions| ==> Total(out) + Spent(r.trace.completions[..k]) < cfg.tokenBudget)
      && (Total(r.outcome) >= cfg.tokenBudget <==> Count(BudgetExceeded, r.trace.audits) == 1)
      && Count(BudgetExceeded, r.trace.audits) <= 1
    decreases left
  {
    hide TurnOf;
    if left > 0 {
      TurnFacts(cfg, out);
      TurnBudget(cfg, out);
      var t := TurnOf(cfg, out);
      if !t.over {
        AdvanceBudget(cfg, t.outcome, left - 1);
        var rest := AdvanceFrom(cfg, t.outcome, left - 1);
        CountsConcat(t.trace.audits, rest.trace.audits);
        var all := t.trace.completions + rest.trace.completions;
        forall k | 0 <= k < |all| ensures Total(out) + Spent(all[..k]) < cfg.tokenBudget {
          if k > 0 {
            assert all[..k] == t.trace.completions + rest.trace.completions[..k - 1];
            SumsConcat(t.trace.completions, rest.trace.completions[..k - 1]);
          }
        }
      } else {
        assert t.trace.completions[..0] == [];
      }
    }
  }

  lemma TurnBudget(cfg: SessionConfig, out: Outcome)
    requires Fresh(out) && cfg.tokenBudget > 0 && Total(out) < cfg.tokenBudget
    ensures var t := TurnOf(cfg, out);
      && (!t.over ==> Total(t.outcome) < cfg.tokenBudget)
      && Count(BudgetExceeded, t.trace.audits) == if Total(t.outcome) >= cfg.tokenBudget then 1 else 0
  {
    hide InvalidText, ErroredText, Trim;
    var t := TurnOf(cfg, out);
    if |t.trace.audits| == 2 {
      CountPair(t.trace.audits[0], t.trace.audits[1]);
      assert t.trace.audits == [t.trace.audits[0], t.trace.audits[1]];
    } else if |t.trace.audits| == 1 {
      CountOne(t.trace.audits[0]);
      assert t.trace.audits == [t.trace.audits[0]];
    }
  }

  /** Every proposed call is settled once, as invalid, executed or errored, except the one that is
      pending when the run pauses; nothing is denied, and every execution leaves one audit. */
  lemma {:induction false} AdvanceAudits(cfg: SessionConfig, out: Outcome, left: nat)
    requires Fresh(out)
    ensures var r := AdvanceFrom(cfg, out, left);
      && Count(Proposed, r.trace.audits) == Settled(r.trace.audits) + (if r.outcome.pending.Some? then 1 else 0)
      && Count(Denied, r.trace.audits) == 0
      && |r.trace.executions| == Count(Executed, r.trace.audits) + Count(Errored, r.trace.audits)
    decreases left
  {
    hide TurnOf;
    if left > 0 {
      TurnFacts(cfg, out);
      TurnAudits(cfg, out);
      var t := TurnOf(cfg, out);
      if !t.over {
        AdvanceAudits(cfg, t.outcome, left - 1);
        CountsConcat(t.trace.audits, AdvanceFrom(cfg, t.outcome, left - 1).trace.audits);
      }
    }
  }

  /** Every execution inside an Advance is of a well-formed call that the gate lets through, and
      none sees the approval flag; a pending call is well formed and gated. */
  lemma {:induction false} AdvanceExecutions(cfg: SessionConfig, out: Outcome, left: nat)
    requires Fresh(out)
    ensures var r := AdvanceFrom(cfg, out, left);
      && (forall e <- r.trace.executions :: !e.flagged && !cfg.gate(e.call) && WellFormed(cfg.tools, e.call))
      && (r.outcome.pending.Some? ==>
            cfg.gate(r.outcome.pending.value) && WellFormed(cfg.tools, r.outcome.pending.value))
    decreases left
  {
    hide InvalidText, ErroredText, Trim, WellFormed;
    if left > 0 {
      TurnFacts(cfg, out);
      var t := TurnOf(cfg, out);
      if !t.over {
        AdvanceExecutions(cfg, t.outcome, left - 1);
      }
    }
  }

  /** How a run of turns can end. */
  datatype Ending = Answered | Paused(call: ToolCall) | OverBudget | Capped | Failed

  /** Assistant turns alternate with the one tool turn that answers the first call of each, up to
      the last assistant turn, which is as the ending says. */
  predicate Alternates(w: Wording, ms: seq<Message>, end: Ending)
    decreases |ms|
  {
    if ms == [] then end.Failed?
    else if |ms| == 1 then
      ms[0].role == RoleAssistant
      && match end
         case Answered => ms[0].toolCalls == []
         case Paused(call) => ms[0].toolCalls != [] && ms[0].toolCalls[0] == call
         case OverBudget => true
         case Capped => ms[0] == AssistantMessage(w.capped, [])
         case Failed => false
    else
      && ms[0].role == RoleAssistant && ms[0].toolCalls != []
      && ms[1].role == RoleTool && ms[1].toolCallId == ms[0].toolCalls[0].id
      && Alternates(w, ms[2..], end)
  }

  /** The ending is the one the outcome reports. */
  predicate Reports(w: Wording, r: Advanced, end: Ending, left: nat) {
    && (end.Failed? <==> r.error.Some?)
    && (r.outcome.pending == if end.Paused? then Some(end.call) else None)
    && (end.Answered? || end.OverBudget? || end.Capped? <==> r.outcome.done)
    && (end.Answered? ==>
          && r.trace.emitted != []
          && r.outcome.answer == Trim(r.trace.emitted[|r.trace.emitted| - 1].content, GoSpace))
    && (end.OverBudget? ==> r.outcome.answer == w.overBudget)
    && (end.Capped? ==> r.outcome.answer == w.capped && |r.trace.completions| == left)
  }

  lemma {:induction false} AdvanceShape(cfg: SessionConfig, out: Outcome, left: nat) returns (end: Ending)
    requires Fresh(out)
    ensures var r := AdvanceFrom(cfg, out, left);
      Alternates(cfg.wording, r.trace.emitted, end) && Reports(cfg.wording, r, end, left)
    ensures EndsByBudget(cfg, out, AdvanceFrom(cfg, out, left), end)
    decreases left
  {
    hide TurnOf, EndsByBudget;
    if left == 0 {
      CapKeepsBudget(cfg, out);
      end := Capped;
    } else {
      TurnFacts(cfg, out);
      end := TurnShape(cfg, out);
      var t := TurnOf(cfg, out);
      if !t.over {
        end := AdvanceShape(cfg, t.outcome, left - 1);
        var rest := AdvanceFrom(cfg, t.outcome, left - 1);
        assert (t.trace.emitted + rest.trace.emitted)[2..] == rest.trace.emitted;
        BudgetLater(cfg, out, rest, t.trace, end);
      } else {
        BudgetNow(cfg, out, AdvanceFrom(cfg, out, left), end);
      }
    }
  }

  /** The run ended over its budget exactly when it had one and its tokens reached it. */
  predicate EndsByBudget(cfg: SessionConfig, out: Outcome, r: Advanced, end: Ending) {
    cfg.tokenBudget <= 0 || Total(out) < cfg.tokenBudget ==>
      (end.OverBudget? <==> r.error.None? && cfg.tokenBudget > 0 && Total(r.outcome) >= cfg.tokenBudget)
  }

  lemma CapKeepsBudget(cfg: SessionConfig, out: Outcome)
    ensures EndsByBudget(cfg, out, AdvanceFrom(cfg, out, 0), Capped)
  {
  }

  lemma BudgetNow(cfg: SessionConfig, out: Outcome, r: Advanced, end: Ending)
    requires r.error.None? ==> (end.OverBudget? <==> cfg.tokenBudget > 0 && Total(r.outcome) >= cfg.tokenBudget)
    requires end.OverBudget? ==> r.error.None?
    ensures EndsByBudget(cfg, out, r, end)
  {
  }

  lemma BudgetLater(cfg: SessionConfig, out: Outcome, rest: Advanced, first: Trace, end: Ending)
    requires Fresh(out) && !TurnOf(cfg, out).over && EndsByBudget(cfg, TurnOf(cfg, out).outcome, rest, end)
    ensures EndsByBudget(cfg, out, rest.(trace := first.Then(rest.trace)), end)
  {
    hide TurnOf;
    if cfg.tokenBudget > 0 && Total(out) < cfg.tokenBudget { TurnBudget(cfg, out); }
  }

  lemma TurnShape(cfg: SessionConfig, out: Outcome) returns (end: Ending)
    requires Fresh(out)
    ensures var t := TurnOf(cfg, out); t.over ==>
      && Alternates(cfg.wording, t.trace.emitted, end)
      && Reports(cfg.wording, Advanced(t.outcome, t.error, t.trace), end, 0) && !end.Capped?
      && (t.error.None? ==> (end.OverBudget? <==> cfg.tokenBudget > 0 && Total(t.outcome) >= cfg.tokenBudget))
    ensures var t := TurnOf(cfg, out); !t.over ==>
      && |t.trace.emitted| == 2
      && t.trace.emitted[0].role == RoleAssistant && t.trace.emitted[0].toolCalls != []
      && t.trace.emitted[1].role == RoleTool && t.trace.emitted[1].toolCallId == t.trace.emitted[0].toolCalls[0].id
  {
    hide InvalidText, ErroredText, Trim;
    var t := TurnOf(cfg, out);
    end := if t.error.Some? then Failed
           else if t.outcome.pending.Some? then Paused(t.outcome.pending.value)
           else if cfg.tokenBudget > 0 && Total(t.outcome) >= cfg.tokenBudget then OverBudget
           else Answered;
  }

  /** A run whose tokens reach a positive budget answers with the budget notice, whatever its last
      response says. */
  lemma OverBudgetAnswers(cfg: SessionConfig, out: Outcome, left: nat)
    requires Fresh(out) && cfg.tokenBudget > 0 && Total(out) < cfg.tokenBudget
    ensures var r := AdvanceFrom(cfg, out, left);
      r.error.None? && Total(r.outcome) >= cfg.tokenBudget ==>
        r.outcome.done && r.outcome.answer == cfg.wording.overBudget && r.outcome.pending.None?
  {
    hide AdvanceFrom, Alternates;
    var end := AdvanceShape(cfg, out, left);
  }

  // ----- Resume -----

  /** Resume only appends too; the first turn it adds answers the call it was given. */
  lemma ResumeAppends(cfg: SessionConfig, messages: seq<Message>, call: ToolCall, approved: bool)
    ensures var r := Resume(cfg, messages, call, approved);
      && r.outcome.messages == messages + r.trace.emitted
      && r.trace.emitted != []
      && r.trace.emitted[0].role == RoleTool && r.trace.emitted[0].toolCallId == call.id
  {
    hide DeniedText, ErroredText, AdvanceFrom;
    var (decided, _) := Decided(cfg, messages, call, approved);
    AdvanceAppends(cfg, Start(decided), StepCap(cfg.maxSteps));
  }
}
