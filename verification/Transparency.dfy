/** Pausing is transparent: a Session that stops at every gated call and is resumed from nothing
    but its message list does what a Loop with a synchronous approver does. */
module Transparency {
  import opened Llm
  import opened Schema
  import opened Text
  import opened Agent
  import opened AgentMachines
  import opened SessionTheorems

  /** The human's decision on a pending call, given the conversation. */
  type Human = (seq<Message>, ToolCall) -> bool

  /** The Loop with the same provider, tools and decisions: it asks the human exactly where the
      Session would pause, and a call the human approved is executed as an approved one. */
  function AsLoop(cfg: SessionConfig, human: Human): LoopConfig {
    LoopConfig(cfg.complete, cfg.tools,
               (h: seq<Message>, c: ToolCall) => Ok(!cfg.gate(c) || human(h, c)),
               (h: seq<Message>, c: ToolCall) => cfg.execute(h, c, cfg.gate(c)),
               cfg.maxSteps, cfg.wording)
  }

  /** Resumes at each pending call, up to `rounds` times, and sums the token counts. */
  function Drive(cfg: SessionConfig, human: Human, r: Advanced, rounds: nat): Advanced
    decreases rounds
  {
    if rounds == 0 || r.error.Some? || r.outcome.pending.None? then r
    else
      var call := r.outcome.pending.value;
      var next := Resume(cfg, r.outcome.messages, call, human(r.outcome.messages, call));
      var rest := Drive(cfg, human, next, rounds - 1);
      Advanced(rest.outcome.(inputTokens := r.outcome.inputTokens + rest.outcome.inputTokens,
                             outputTokens := r.outcome.outputTokens + rest.outcome.outputTokens),
               rest.error, r.trace.Then(rest.trace))
  }

  function CallsOf(es: seq<Execution>): seq<ToolCall> {
    if es == [] then [] else [es[0].call] + CallsOf(es[1..])
  }

  lemma {:induction false} CallsConcat(a: seq<Execution>, b: seq<Execution>)
    ensures CallsOf(a + b) == CallsOf(a) + CallsOf(b)
  {
    if a == [] {
      assert a + b == b;
    } else {
      CallsConcat(a[1..], b);
      assert (a + b)[1..] == a[1..] + b;
    }
  }

  /** What came before a pause stays in front of what follows it. */
  lemma {:induction false} DrivePrefix(cfg: SessionConfig, human: Human, p: Trace, r: Advanced, rounds: nat)
    ensures var d := Drive(cfg, human, r, rounds);
      Drive(cfg, human, r.(trace := p.Then(r.trace)), rounds) == d.(trace := p.Then(d.trace))
    decreases rounds
  {
    hide Resume;
    if !(rounds == 0 || r.error.Some? || r.outcome.pending.None?) {
      var call := r.outcome.pending.value;
      var next := Resume(cfg, r.outcome.messages, call, human(r.outcome.messages, call));
      TraceAssoc(p, r.trace, Drive(cfg, human, next, rounds - 1).trace);
    }
  }

  lemma {:induction false} DriveAppends(cfg: SessionConfig, human: Human, r: Advanced, rounds: nat)
    ensures r.outcome.messages <= Drive(cfg, human, r, rounds).outcome.messages
    ensures r.trace.audits <= Drive(cfg, human, r, rounds).trace.audits
    decreases rounds
  {
    hide Resume;
    if !(rounds == 0 || r.error.Some? || r.outcome.pending.None?) {
      var call := r.outcome.pending.value;
      var ok := human(r.outcome.messages, call);
      ResumeAppends(cfg, r.outcome.messages, call, ok);
      DriveAppends(cfg, human, Resume(cfg, r.outcome.messages, call, ok), rounds - 1);
    }
  }

  /** The drive did what the loop did: the same provider calls, audits and executed calls, and the
      same ending. A loop that stopped at its cap may be outlived by the drive, whose cap starts
      anew at each resume; then everything the loop did is where the drive began. */
  predicate Agree(l: LoopRun, d: Advanced, st: LoopState, out: Outcome) {
    if l.result.stopped then
      && l.result.transcript <= d.outcome.messages
      && l.trace.audits <= d.trace.audits
      && l.trace.completions <= d.trace.completions
      && l.trace.executions <= CallsOf(d.trace.executions)
    else
      && d.error == l.error
      && d.outcome.inputTokens - out.inputTokens == l.result.inputTokens - st.inputTokens
      && d.outcome.outputTokens - out.outputTokens == l.result.outputTokens - st.outputTokens
      && d.trace.audits == l.trace.audits
      && d.trace.completions == l.trace.completions
      && CallsOf(d.trace.executions) == l.trace.executions
      && (l.error.None? ==>
            && d.outcome.done
            && d.outcome.answer == l.result.answer
            && d.outcome.messages == l.result.transcript)
  }

  /** What the two machines see of one turn is the same. */
  predicate SameView(l: LoopTrace, d: Trace) {
    l.completions == d.completions && l.audits == d.audits && l.executions == CallsOf(d.executions)
  }

  /** One turn: both go on alike, or both end alike, or the Session pauses where the Loop asks, and
      then the decision makes up for the rest of the Loop's turn. */
  lemma TurnsMatch(cfg: SessionConfig, human: Human, st: LoopState, out: Outcome)
    requires cfg.tokenBudget <= 0 && Fresh(out) && out.messages == st.messages
    ensures var t, lt := TurnOf(cfg, out), LoopTurnOf(AsLoop(cfg, human), st);
      && t.outcome.inputTokens - out.inputTokens
          == (if lt.Continued? then lt.state.inputTokens else lt.result.inputTokens) - st.inputTokens
      && t.outcome.outputTokens - out.outputTokens
          == (if lt.Continued? then lt.state.outputTokens else lt.result.outputTokens) - st.outputTokens
      && (if t.outcome.pending.Some? then
            var call := t.outcome.pending.value;
            var (decided, first) := Decided(cfg, t.outcome.messages, call, human(t.outcome.messages, call));
            && t.over && t.error.None? && lt.Continued? && lt.state.messages == decided
            && SameView(lt.trace, t.trace.Then(first))
          else
            && SameView(lt.trace, t.trace)
            && (if t.over then lt.Returned? && !lt.result.stopped && lt.error == t.error
                               && (t.error.None? ==> t.outcome.done && t.outcome.answer == lt.result.answer
                                                     && t.outcome.messages == lt.result.transcript)
                else lt.Continued? && lt.state.messages == t.outcome.messages && Fresh(t.outcome)))
  {
    hide InvalidText, ErroredText, DeniedText, Trim, WellFormed;
    var t := TurnOf(cfg, out);
    CallsSmall(t.trace.executions);
    if t.outcome.pending.Some? {
      var call := t.outcome.pending.value;
      CallsSmall(t.trace.Then(Decided(cfg, t.outcome.messages, call, human(t.outcome.messages, call)).1).executions);
    }
  }

  lemma CallsSmall(es: seq<Execution>)
    ensures |es| <= 1 ==> CallsOf(es) == if es == [] then [] else [es[0].call]
  {
    if |es| == 1 {
      assert es[1..] == [];
    }
  }

  /** A shared turn in front of runs that agree gives runs that agree. */
  lemma Prepend(l: LoopRun, d: Advanced, st: LoopState, out: Outcome, lt: LoopTrace, t: Trace)
    requires Agree(l, d, st, out) && SameView(lt, t)
    ensures Agree(l.(trace := lt.Then(l.trace)), d.(trace := t.Then(d.trace)), st, out)
  {
    CallsConcat(t.executions, d.trace.executions);
  }

  /** The two machines keep step from equal conversations, as long as the Session has at least as
      many steps to go as the Loop. */
  lemma {:induction false} KeepStep(cfg: SessionConfig, human: Human, st: LoopState, out: Outcome, left: nat,
                                    sleft: nat, rounds: nat)
    requires cfg.tokenBudget <= 0
    requires Fresh(out) && out.messages == st.messages
    requires left <= sleft && left <= StepCap(cfg.maxSteps) && left <= rounds
    ensures Agree(LoopFrom(AsLoop(cfg, human), st, left), Drive(cfg, human, AdvanceFrom(cfg, out, sleft), rounds),
                  st, out)
    decreases left
  {
    hide TurnOf, LoopTurnOf, Decided;
    var lcfg := AsLoop(cfg, human);
    if left == 0 {
      AdvanceAppends(cfg, out, sleft);
      DriveAppends(cfg, human, AdvanceFrom(cfg, out, sleft), rounds);
    } else {
      TurnsMatch(cfg, human, st, out);
      var t, lt := TurnOf(cfg, out), LoopTurnOf(lcfg, st);
      if t.outcome.pending.Some? {
        StepOverPause(cfg, human, st, out, left, sleft, rounds);
      } else if !t.over {
        var next := AdvanceFrom(cfg, t.outcome, sleft - 1);
        KeepStep(cfg, human, lt.state, t.outcome, left - 1, sleft - 1, rounds);
        Prepend(LoopFrom(lcfg, lt.state, left - 1), Drive(cfg, human, next, rounds), lt.state, t.outcome, lt.trace,
                t.trace);
        DrivePrefix(cfg, human, t.trace, next, rounds);
      }
    }
  }

  lemma {:induction false} StepOverPause(cfg: SessionConfig, human: Human, st: LoopState, out: Outcome, left: nat,
                                         sleft: nat, rounds: nat)
    requires cfg.tokenBudget <= 0
    requires Fresh(out) && out.messages == st.messages
    requires 0 < left <= sleft && left <= StepCap(cfg.maxSteps) && left <= rounds
    requires TurnOf(cfg, out).outcome.pending.Some?
    ensures Agree(LoopFrom(AsLoop(cfg, human), st, left), Drive(cfg, human, AdvanceFrom(cfg, out, sleft), rounds),
                  st, out)
    decreases left, 0
  {
    hide TurnOf, LoopTurnOf, Decided, AdvanceFrom, SameView, CallsOf, StepCap;
    TurnsMatch(cfg, human, st, out);
    var t, lt := TurnOf(cfg, out), LoopTurnOf(AsLoop(cfg, human), st);
    var call := t.outcome.pending.value;
    var (decided, first) := Decided(cfg, t.outcome.messages, call, human(t.outcome.messages, call));
    var next := Advance(cfg, decided);
    KeepStep(cfg, human, lt.state, Start(decided), left - 1, StepCap(cfg.maxSteps), rounds - 1);
    var l, d := LoopFrom(AsLoop(cfg, human), lt.state, left - 1), Drive(cfg, human, next, rounds - 1);
    Prepend(l, d, lt.state, Start(decided), lt.trace, t.trace.Then(first));
    DrivePrefix(cfg, human, first, next, rounds - 1);
    TraceAssoc(t.trace, first, d.trace);
    assert AdvanceFrom(cfg, out, sleft) == Advanced(t.outcome, None, t.trace) by { PausesAt(cfg, out, sleft); }
  }

  lemma PausesAt(cfg: SessionConfig, out: Outcome, left: nat)
    requires Fresh(out) && left > 0 && TurnOf(cfg, out).outcome.pending.Some?
    ensures AdvanceFrom(cfg, out, left) == Advanced(TurnOf(cfg, out).outcome, None, TurnOf(cfg, out).trace)
  {
    hide TurnOf;
    TurnFacts(cfg, out);
  }

  /** For every conversation opening, whatever the provider, the tools, the gate and the human do,
      and with no token budget: resuming at each pause gives the Loop's answer, message list, token
      counts, provider calls, audit trail and executed calls, and fails where the Loop fails. A Loop
      cut off at its step cap has done exactly what the drive did first. */
  lemma PausingIsTransparent(cfg: SessionConfig, human: Human, system: string, user: string, rounds: nat)
    requires cfg.tokenBudget <= 0 && rounds >= StepCap(cfg.maxSteps)
    ensures var opening := OpeningState(cfg.wording, system, user);
      Agree(RunLoop(AsLoop(cfg, human), system, user),
            Drive(cfg, human, Advance(cfg, opening.messages), rounds), opening, Start(opening.messages))
  {
    hide LoopFrom, AdvanceFrom;
    var opening, cap := OpeningState(cfg.wording, system, user), StepCap(cfg.maxSteps);
    KeepStep(cfg, human, opening, Start(opening.messages), cap, cap, rounds);
  }
}
