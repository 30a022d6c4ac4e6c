/** A thread: a Session used over and over on one persisted conversation. The user may send a message
    at any time, and a human decides each call that is waiting for approval, in any order and each
    once (pkg/analyst/service.go, pkg/store/threads.go). */
module Threads {
  import opened Llm
  import opened Schema
  import opened Agent
  import opened AgentMachines
  import opened SessionTheorems
  import opened Transcripts

  /** A message from the user, with what the service puts around it, or a decision on one of the
      calls waiting for approval. Policy, profile and target are loaded anew for each. */
  datatype Op = Send(cfg: SessionConfig, extra: seq<Message>) | Decide(cfg: SessionConfig, which: nat, approved: bool)

  datatype Decision = Decision(call: ToolCall, approved: bool)

  /** A call that awaits a decision, and the configuration under which it was proposed. */
  datatype Held = Held(call: ToolCall, cfg: SessionConfig)

  /** A call that ran, and the configuration under which it was proposed. */
  datatype Ran = Ran(call: ToolCall, flagged: bool, cfg: SessionConfig)

  /** `open` holds the undecided approvals; `paused` says that the last operation left one. */
  datatype Thread = Thread(
    messages: seq<Message>, open: seq<Held>, paused: bool, decisions: seq<Decision>, ran: seq<Ran>, trace: Trace)

  const EMPTY := Thread([], [], false, [], [], SILENT)

  /** What an approval record keeps of a call: its tool and its arguments, not its id. */
  function Stored(call: ToolCall): ToolCall { call.(id := "") }

  function Opened(cfg: SessionConfig, r: Advanced): seq<Held> {
    if r.error.None? && r.outcome.pending.Some? then [Held(Stored(r.outcome.pending.value), cfg)] else []
  }

  function Under(cfg: SessionConfig, es: seq<Execution>): seq<Ran> {
    if es == [] then [] else [Ran(es[0].call, es[0].flagged, cfg)] + Under(cfg, es[1..])
  }

  /** After an error only what was stored before the call remains. */
  function Settle(cfg: SessionConfig, t: Thread, stored: seq<Message>, r: Advanced): Thread {
    t.(messages := if r.error.None? then r.outcome.messages else stored,
       open := t.open + Opened(cfg, r),
       paused := Opened(cfg, r) != [],
       ran := t.ran + Under(cfg, r.trace.executions),
       trace := t.trace.Then(r.trace))
  }

  /** The decided call itself was proposed under another configuration than the run that goes on; it
      is not checked again. */
  function SettleDecided(cfg: SessionConfig, t: Thread, held: Held, approved: bool, r: Advanced): Thread {
    var own := if approved then 1 else 0;
    var ran := t.ran + (if approved then [Ran(held.call, true, held.cfg)] else []);
    Settle(cfg, t, t.messages, r).(
      ran := ran + Under(cfg, if own <= |r.trace.executions| then r.trace.executions[own..] else []))
  }

  /** A decision on an approval that does not exist, or that was decided before, is refused. */
  function Apply(t: Thread, op: Op): Thread {
    match op
    case Send(cfg, extra) => Settle(cfg, t, t.messages + extra, Advance(cfg, t.messages + extra))
    case Decide(cfg, which, approved) =>
      if which >= |t.open| then t
      else
        var held := t.open[which];
        SettleDecided(cfg,
                      t.(open := t.open[..which] + t.open[which + 1..],
                         decisions := t.decisions + [Decision(held.call, approved)]),
                      held, approved, Resume(cfg, t.messages, held.call, approved))
  }

  function ApplyAll(t: Thread, ops: seq<Op>): Thread
    decreases |ops|
  {
    if ops == [] then t else ApplyAll(Apply(t, ops[0]), ops[1..])
  }

  /** The calls that ran with the approval flag, and the calls a human approved, in order. */
  function FlaggedCall(e: Execution): seq<ToolCall> { if e.flagged then [e.call] else [] }

  function FlaggedCalls(es: seq<Execution>): seq<ToolCall> {
    if es == [] then [] else FlaggedCall(es[0]) + FlaggedCalls(es[1..])
  }

  function ApprovedCalls(ds: seq<Decision>): seq<ToolCall> {
    if ds == [] then [] else (if ds[0].approved then [ds[0].call] else []) + ApprovedCalls(ds[1..])
  }

  function DenialCount(ds: seq<Decision>): nat {
    if ds == [] then 0 else (if ds[0].approved then 0 else 1) + DenialCount(ds[1..])
  }

  lemma {:induction false} FlaggedConcat(a: seq<Execution>, b: seq<Execution>)
    ensures FlaggedCalls(a + b) == FlaggedCalls(a) + FlaggedCalls(b)
  {
    hide FlaggedCall;
    if a == [] {
      assert a + b == b;
    } else {
      FlaggedConcat(a[1..], b);
      assert (a + b)[1..] == a[1..] + b && (a + b)[0] == a[0];
    }
  }

  lemma {:induction false} NoneFlagged(es: seq<Execution>)
    requires forall e <- es :: !e.flagged
    ensures FlaggedCalls(es) == []
  {
    if es != [] {
      NoneFlagged(es[1..]);
    }
  }

  lemma {:induction false} DecisionsConcat(a: seq<Decision>, d: Decision)
    ensures ApprovedCalls(a + [d]) == ApprovedCalls(a) + (if d.approved then [d.call] else [])
    ensures DenialCount(a + [d]) == DenialCount(a) + (if d.approved then 0 else 1)
  {
    if a == [] {
      assert a + [d] == [d];
    } else {
      DecisionsConcat(a[1..], d);
      assert (a + [d])[1..] == a[1..] + [d];
    }
  }

  lemma {:induction false} UnderFacts(cfg: SessionConfig, es: seq<Execution>)
    ensures Executions(Under(cfg, es)) == es
    ensures forall r <- Under(cfg, es) :: r.cfg == cfg && Execution(r.call, r.flagged) in es
  {
    if es != [] {
      UnderFacts(cfg, es[1..]);
      assert es == [es[0]] + es[1..];
    }
  }

  function Executions(ran: seq<Ran>): (es: seq<Execution>)
    ensures |es| == |ran|
    ensures forall i :: 0 <= i < |es| ==> es[i] == Execution(ran[i].call, ran[i].flagged)
  {
    seq(|ran|, i requires 0 <= i < |ran| => Execution(ran[i].call, ran[i].flagged))
  }

  lemma ExecutionsConcat(a: seq<Ran>, b: seq<Ran>)
    ensures Executions(a + b) == Executions(a) + Executions(b)
  {
  }

  /** The gate looks at a call's tool and arguments only. */
  ghost predicate GateIgnoresIds(cfg: SessionConfig) { forall c :: cfg.gate(Stored(c)) == cfg.gate(c) }

  ghost predicate Waits(held: Held) { held.cfg.gate(held.call) && WellFormed(held.cfg.tools, held.call) }

  /** By the configuration that proposed it, the call passed its schema, and was let through by the
      gate, or gated and then run as an approved one. */
  ghost predicate Permitted(r: Ran) { WellFormed(r.cfg.tools, r.call) && (r.flagged <==> r.cfg.gate(r.call)) }

  /** Every call that ran was permitted; the flagged runs are exactly the approved decisions, in order;
      and every call that waits is well formed and gated. */
  ghost predicate Authorized(t: Thread) {
    && Executions(t.ran) == t.trace.executions
    && (forall r <- t.ran :: Permitted(r))
    && FlaggedCalls(t.trace.executions) == ApprovedCalls(t.decisions)
    && (forall h <- t.open :: Waits(h))
  }

  /** Every proposed call is settled in one way, except those that await a decision; every denial
      is a human's and every execution is audited. */
  ghost predicate Conserved(t: Thread) {
    && Count(Proposed, t.trace.audits) == Settled(t.trace.audits) + |t.open|
    && Count(Denied, t.trace.audits) == DenialCount(t.decisions)
    && |t.trace.executions| == Count(Executed, t.trace.audits) + Count(Errored, t.trace.audits)
  }

  /** The call that a paused thread waits for is the first call of its last turn. */
  predicate Waiting(t: Thread) {
    t.paused ==>
      t.messages != [] && t.open != [] && var last := t.messages[|t.messages| - 1];
      last.role == RoleAssistant && last.toolCalls != [] && Stored(last.toolCalls[0]) == t.open[|t.open| - 1].call
  }

  lemma StoredWaits(cfg: SessionConfig, call: ToolCall)
    requires GateIgnoresIds(cfg) && Waits(Held(call, cfg))
    ensures Waits(Held(Stored(call), cfg))
  {
  }

  lemma OpenedWaits(cfg: SessionConfig, out: Outcome, left: nat)
    requires GateIgnoresIds(cfg) && Fresh(out)
    ensures forall h <- Opened(cfg, AdvanceFrom(cfg, out, left)) :: Waits(h)
  {
    hide AdvanceFrom, WellFormed;
    AdvanceExecutions(cfg, out, left);
    var r := AdvanceFrom(cfg, out, left);
    if r.outcome.pending.Some? { StoredWaits(cfg, r.outcome.pending.value); }
  }

  /** A decision has been carried out, and the run has not gone on yet. */
  function CarriedOut(cfg: SessionConfig, t: Thread, which: nat, approved: bool): Thread
    requires which < |t.open|
  {
    var held := t.open[which];
    t.(open := t.open[..which] + t.open[which + 1..], decisions := t.decisions + [Decision(held.call, approved)],
       ran := t.ran + (if approved then [Ran(held.call, true, held.cfg)] else []),
       trace := t.trace.Then(Decided(cfg, t.messages, held.call, approved).1))
  }

  lemma DecidedRuns(cfg: SessionConfig, messages: seq<Message>, call: ToolCall, approved: bool)
    ensures Decided(cfg, messages, call, approved).1.executions == if approved then [Execution(call, true)] else []
  {
    hide DeniedText, ErroredText;
  }

  lemma DecideGoesOn(cfg: SessionConfig, t: Thread, which: nat, approved: bool)
    requires which < |t.open|
    ensures Apply(t, Decide(cfg, which, approved))
         == Settle(cfg, CarriedOut(cfg, t, which, approved), t.messages,
                   Advance(cfg, Decided(cfg, t.messages, t.open[which].call, approved).0))
  {
    hide Advance, Decided, Under;
    var call := t.open[which].call;
    var (decided, first) := Decided(cfg, t.messages, call, approved);
    var rest := Advance(cfg, decided);
    DecidedRuns(cfg, t.messages, call, approved);
    TraceAssoc(t.trace, first, rest.trace);
    var all := first.executions + rest.trace.executions;
    assert all[|first.executions|..] == rest.trace.executions;
  }

  lemma SettleAuthorized(cfg: SessionConfig, t: Thread, stored: seq<Message>, messages: seq<Message>)
    requires GateIgnoresIds(cfg) && Authorized(t)
    ensures Authorized(Settle(cfg, t, stored, Advance(cfg, messages)))
  {
    hide AdvanceFrom, WellFormed, GateIgnoresIds, FlaggedCalls, ApprovedCalls, Opened, Under, Executions;
    var start, cap := Start(messages), StepCap(cfg.maxSteps);
    var es := AdvanceFrom(cfg, start, cap).trace.executions;
    OpenedWaits(cfg, start, cap);
    AdvanceExecutions(cfg, start, cap);
    UnderFacts(cfg, es);
    ExecutionsConcat(t.ran, Under(cfg, es));
    NoneFlagged(es);
    FlaggedConcat(t.trace.executions, es);
    forall r | r in Under(cfg, es) ensures Permitted(r) { assert Execution(r.call, r.flagged) in es; }
  }

  lemma CarriedOutAuthorized(cfg: SessionConfig, t: Thread, which: nat, approved: bool)
    requires Authorized(t) && which < |t.open|
    ensures Authorized(CarriedOut(cfg, t, which, approved))
  {
    hide Decided, WellFormed, ApprovedCalls;
    var held := t.open[which];
    assert Waits(held);
    var own := if approved then [Ran(held.call, true, held.cfg)] else [];
    var ran := Decided(cfg, t.messages, held.call, approved).1.executions;
    DecidedRuns(cfg, t.messages, held.call, approved);
    ExecutionsConcat(t.ran, own);
    assert Executions(own) == ran;
    assert FlaggedCalls(ran) == if approved then [held.call] else [];
    FlaggedConcat(t.trace.executions, ran);
    DecisionsConcat(t.decisions, Decision(held.call, approved));
  }

  lemma ApplyAuthorized(t: Thread, op: Op)
    requires GateIgnoresIds(op.cfg) && Authorized(t)
    ensures Authorized(Apply(t, op))
  {
    hide Advance, Decided, GateIgnoresIds, Authorized, Settle, CarriedOut, SettleDecided;
    match op
    case Send(cfg, extra) => SettleAuthorized(cfg, t, t.messages + extra, t.messages + extra);
    case Decide(cfg, which, approved) =>
      if which < |t.open| {
        DecideGoesOn(cfg, t, which, approved);
        CarriedOutAuthorized(cfg, t, which, approved);
        var decided := Decided(cfg, t.messages, t.open[which].call, approved).0;
        SettleAuthorized(cfg, CarriedOut(cfg, t, which, approved), t.messages, decided);
      }
  }

  lemma SettleConserved(cfg: SessionConfig, t: Thread, stored: seq<Message>, messages: seq<Message>)
    requires Conserved(t)
    ensures Conserved(Settle(cfg, t, stored, Advance(cfg, messages)))
  {
    hide AdvanceFrom, Stored, Count, DenialCount, Under;
    var start, cap := Start(messages), StepCap(cfg.maxSteps);
    AdvanceAudits(cfg, start, cap);
    AdvanceVerdict(cfg, start, cap);
    CountsConcat(t.trace.audits, AdvanceFrom(cfg, start, cap).trace.audits);
  }

  lemma CarriedOutConserved(cfg: SessionConfig, t: Thread, which: nat, approved: bool)
    requires Conserved(t) && which < |t.open|
    ensures Conserved(CarriedOut(cfg, t, which, approved))
  {
    hide DeniedText, ErroredText, Count, DenialCount;
    var call := t.open[which].call;
    var audits := Decided(cfg, t.messages, call, approved).1.audits;
    CountOne(audits[0]);
    assert audits == [audits[0]];
    CountsConcat(t.trace.audits, audits);
    DecisionsConcat(t.decisions, Decision(call, approved));
  }

  lemma ApplyConserved(t: Thread, op: Op)
    requires Conserved(t)
    ensures Conserved(Apply(t, op))
  {
    hide Advance, Decided, Conserved, Settle, CarriedOut, SettleDecided;
    match op
    case Send(cfg, extra) => SettleConserved(cfg, t, t.messages + extra, t.messages + extra);
    case Decide(cfg, which, approved) =>
      if which < |t.open| {
        DecideGoesOn(cfg, t, which, approved);
        CarriedOutConserved(cfg, t, which, approved);
        var decided := Decided(cfg, t.messages, t.open[which].call, approved).0;
        SettleConserved(cfg, CarriedOut(cfg, t, which, approved), t.messages, decided);
      }
  }

  lemma {:induction false} AlternatesEnd(w: Wording, ms: seq<Message>, call: ToolCall)
    requires Alternates(w, ms, Paused(call))
    ensures ms != [] && var last := ms[|ms| - 1];
      last.role == RoleAssistant && last.toolCalls != [] && last.toolCalls[0] == call
    decreases |ms|
  {
    if |ms| >= 2 {
      AlternatesEnd(w, ms[2..], call);
    }
  }

  /** A run that pauses ends with the turn that proposed the pending call. */
  lemma PausesAtLast(cfg: SessionConfig, messages: seq<Message>)
    ensures var r := Advance(cfg, messages); Opened(cfg, r) != [] ==>
      r.outcome.messages != [] && var last := r.outcome.messages[|r.outcome.messages| - 1];
      last.role == RoleAssistant && last.toolCalls != [] && last.toolCalls[0] == r.outcome.pending.value
  {
    hide AdvanceFrom;
    var start, cap := Start(messages), StepCap(cfg.maxSteps);
    var end := AdvanceShape(cfg, start, cap);
    AdvanceAppends(cfg, start, cap);
    var r := AdvanceFrom(cfg, start, cap);
    if r.outcome.pending.Some? { AlternatesEnd(cfg.wording, r.trace.emitted, r.outcome.pending.value); }
  }

  lemma ApplyWaiting(t: Thread, op: Op)
    requires Waiting(t)
    ensures Waiting(Apply(t, op))
  {
    hide Advance, Decided, Under;
    match op
    case Send(cfg, extra) => PausesAtLast(cfg, t.messages + extra);
    case Decide(cfg, which, approved) =>
      if which < |t.open| {
        PausesAtLast(cfg, Decided(cfg, t.messages, t.open[which].call, approved).0);
      }
  }

  /** Over every sequence of sends and decisions on a new thread, in any order and under settings that
      change from one to the next: only calls that were well formed when they were proposed run, each
      either ungated then or explicitly approved, with the flag on exactly the approved ones; the audit
      trail is conserved; and a paused thread waits for the call its conversation ends with. */
  lemma {:induction false} ThreadsAreSafe(ops: seq<Op>)
    requires forall op <- ops :: GateIgnoresIds(op.cfg)
    ensures var t := ApplyAll(EMPTY, ops); Authorized(t) && Conserved(t) && Waiting(t)
  {
    hide Apply, GateIgnoresIds;
    KeepsAll(EMPTY, ops);
  }

  lemma {:induction false} KeepsAll(t: Thread, ops: seq<Op>)
    requires Authorized(t) && Conserved(t) && Waiting(t) && forall op <- ops :: GateIgnoresIds(op.cfg)
    ensures var t' := ApplyAll(t, ops); Authorized(t') && Conserved(t') && Waiting(t')
    decreases |ops|
  {
    hide Authorized, Conserved, Waiting, Apply, GateIgnoresIds;
    if ops != [] {
      assert ops[0] in ops;
      ApplyAuthorized(t, ops[0]);
      ApplyConserved(t, ops[0]);
      ApplyWaiting(t, ops[0]);
      KeepsAll(Apply(t, ops[0]), ops[1..]);
    }
  }

  // ----- What one operation does -----

  predicate NoneFailed(cs: seq<Result<Response>>) { forall c <- cs :: c.Ok? }

  /** The failure of a run is that of its last provider call. */
  lemma FailsIff(cfg: SessionConfig, messages: seq<Message>)
    ensures var r := Advance(cfg, messages);
      && (r.error.None? <==> NoneFailed(r.trace.completions))
      && r.trace.completions != [] && r.trace.completions[0] == cfg.complete(messages)
  {
    hide Advance, WellFormedCalls, TurnAt, EndsAt;
    var turns := AdvanceIsExplained(cfg, messages);
    var r := Advance(cfg, messages);
    var cs, n := r.trace.completions, |messages|;
    forall k | 0 <= k < turns ensures k < |cs| && cs[k].Ok? { TurnSucceeds(cfg, r.outcome.messages, r.trace, n, k); }
    EndFails(cfg, r, n, turns, if cfg.maxSteps <= 0 then 8 else cfg.maxSteps);
    if turns > 0 { TurnSucceeds(cfg, r.outcome.messages, r.trace, n, 0); }
    assert r.outcome.messages[..n] == messages;
  }

  lemma TurnSucceeds(cfg: SessionConfig, ms: seq<Message>, tr: Trace, n: nat, k: nat)
    requires TurnAt(cfg, ms, tr, n, k)
    ensures k < |tr.completions| && tr.completions[k].Ok? && n + 2 * k <= |ms|
    ensures tr.completions[k] == cfg.complete(ms[..n + 2 * k])
  {
    hide ValidateCall, InvalidText, ErroredText;
  }

  lemma EndFails(cfg: SessionConfig, r: Advanced, n: nat, turns: nat, left: nat)
    requires EndsAt(cfg, r, n, turns, left) && turns <= left && left > 0
    ensures if turns == left then |r.trace.completions| == left && r.error.None?
            else |r.trace.completions| == turns + 1 && (r.error.None? <==> r.trace.completions[turns].Ok?)
    ensures turns == 0 ==> n <= |r.outcome.messages| && r.trace.completions[0] == cfg.complete(r.outcome.messages[..n])
  {
    hide ValidateCall;
  }

  /** Sending adds the user's messages to the whole conversation so far, shows it to the model, and appends
      what the run produces, or after an error nothing more; it decides nothing and may leave one more
      call waiting. */
  lemma SendContinues(cfg: SessionConfig, t: Thread, extra: seq<Message>)
    ensures var t', all := Apply(t, Send(cfg, extra)), t.messages + extra;
      && t.trace.completions <= t'.trace.completions && t.trace.emitted <= t'.trace.emitted
      && var cs, said := t'.trace.completions[|t.trace.completions|..], t'.trace.emitted[|t.trace.emitted|..];
      && cs != [] && cs[0] == cfg.complete(all)
      && t'.messages == all + (if NoneFailed(cs) then said else [])
      && t'.decisions == t.decisions
      && t.open <= t'.open && |t'.open| == |t.open| + (if t'.paused then 1 else 0)
  {
    hide Advance, Under, Stored;
    var all := t.messages + extra;
    var r := Advance(cfg, all);
    FailsIff(cfg, all);
    AppendedIs(cfg, all);
    var t' := Apply(t, Send(cfg, extra));
    assert t'.trace.completions[|t.trace.completions|..] == r.trace.completions;
    assert t'.trace.emitted[|t.trace.emitted|..] == r.trace.emitted;
    assert all + [] == all;
  }

  lemma AppendedIs(cfg: SessionConfig, messages: seq<Message>)
    ensures Advance(cfg, messages).outcome.messages == messages + Advance(cfg, messages).trace.emitted
  {
    hide AdvanceFrom;
    AdvanceAppends(cfg, Start(messages), StepCap(cfg.maxSteps));
  }

  /** Deciding takes the chosen call, and no other, off the list; its answer, made for the whole conversation
      so far, is put behind that conversation and shown to the model, and what the run produces follows; after
      an error the conversation stays as it was. */
  lemma DecideContinues(cfg: SessionConfig, t: Thread, which: nat, approved: bool) returns (first: Message)
    requires which < |t.open|
    ensures var t', call := Apply(t, Decide(cfg, which, approved)), t.open[which].call;
      && t'.decisions == t.decisions + [Decision(call, approved)]
      && t.open[..which] + t.open[which + 1..] <= t'.open && |t'.open| == |t.open| - (if t'.paused then 0 else 1)
      && t.trace.completions <= t'.trace.completions && t.trace.emitted <= t'.trace.emitted
      && var cs, said := t'.trace.completions[|t.trace.completions|..], t'.trace.emitted[|t.trace.emitted|..];
      && cs != [] && cs[0] == cfg.complete(t.messages + [first])
      && said != [] && said[0] == first
      && t'.messages == t.messages + (if NoneFailed(cs) then said else [])
      && if !approved then IsReply(first, call, DeniedText(call), true)
         else
           match cfg.execute(t.messages, call, true).result
           case Ok(out) => IsReply(first, call, out, false)
           case Err(e) => IsReply(first, call, ErroredText(call, e), true)
  {
    hide Advance, Resume, Under, Stored, DeniedText, ErroredText;
    var call := t.open[which].call;
    first := ResumeExplained(cfg, t.messages, call, approved);
    var all := t.messages + [first];
    FailsIff(cfg, all);
    AppendedIs(cfg, all);
    var r, t' := Resume(cfg, t.messages, call, approved), Apply(t, Decide(cfg, which, approved));
    assert t'.trace.completions[|t.trace.completions|..] == r.trace.completions;
    assert t'.trace.emitted[|t.trace.emitted|..] == r.trace.emitted;
    assert r.outcome.messages == t.messages + r.trace.emitted;
    assert t.messages + [] == t.messages;
  }

  /** And a decision on anything else does nothing. */
  lemma DecideRefused(cfg: SessionConfig, t: Thread, which: nat, approved: bool)
    requires which >= |t.open|
    ensures Apply(t, Decide(cfg, which, approved)) == t
  {
  }
}
