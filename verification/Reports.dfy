/** What a delegation returns to its caller, and what its sub-agent did, in terms of the world alone: the
    provider's responses, the tools' results and the settings at its place in the tree. */
module Reports {
  import opened Llm
  import opened Schema
  import opened Text
  import opened Agent
  import opened SessionTheorems
  import opened LoopTheorems
  import opened Transcripts
  import opened Policy
  import opened Delegation
  import opened DelegationTheorems

  /** The result is that of the recorded run: its answer, its counts, and its tools at their first use. */
  predicate ReportsRun(profile: string, s: SubAgent, result: Result<DelegationResult>) {
    match s.outcome
    case Err(e) => result == Err(e)
    case Ok(run) =>
      && result.Ok?
      && var v := result.value;
      && v.profile == profile && v.answer == run.answer && v.stopped == run.stopped
      && v.stepCount == |s.activity| && FirstUsesOf(v.toolsUsed, ToolsOf(s.activity))
      && v.inputTokens == run.inputTokens && v.outputTokens == run.outputTokens
  }

  function ToolsOf(acts: seq<Activity>): (names: seq<string>)
    ensures |names| == |acts| && forall i :: 0 <= i < |acts| ==> names[i] == acts[i].step.call.tool
  {
    seq(|acts|, i requires 0 <= i < |acts| => acts[i].step.call.tool)
  }

  /** Each name once, in the order of first use. */
  predicate FirstUsesOf(tools: seq<string>, names: seq<string>)
    decreases |names|
  {
    if names == [] then tools == []
    else
      var n := |names| - 1;
      if names[n] in names[..n] then FirstUsesOf(tools, names[..n])
      else tools != [] && tools[|tools| - 1] == names[n] && FirstUsesOf(tools[..|tools| - 1], names[..n])
  }

  lemma {:induction false} ListIsFirstUses(names: seq<string>)
    ensures FirstUsesOf(FirstUses(names), names)
    decreases |names|
  {
    hide FirstUses;
    if names == [] {
      NoUses(names);
    } else {
      var n := |names| - 1;
      ListIsFirstUses(names[..n]);
      FirstUsesFacts(names[..n], 0);
      LastUse(names);
      var before := FirstUses(names[..n]);
      assert (before + [names[n]])[..|before|] == before && before + [] == before;
    }
  }

  lemma NoUses(names: seq<string>)
    requires names == []
    ensures FirstUses(names) == []
  {
  }

  lemma LastUse(names: seq<string>)
    requires names != []
    ensures var n := |names| - 1;
      FirstUses(names) == FirstUses(names[..n]) + if names[n] in FirstUses(names[..n]) then [] else [names[n]]
  {
  }

  lemma {:induction false} StepsAre(acts: seq<Activity>)
    ensures |StepsOf(acts)| == |acts| && forall i :: 0 <= i < |acts| ==> StepsOf(acts)[i] == acts[i].step
  {
    if acts != [] { StepsAre(acts[1..]); }
  }

  /** A delegation starts a sub-agent exactly if it is configured, has a task and gets a slot; it then
      returns what that sub-agent's run came to, and an error otherwise. */
  lemma DelegateReports(w: World, site: Site, depth: nat, flagged: bool, profileId: string, task: string,
                        authorize: seq<string>)
    ensures var d := Delegate(w, site, depth, flagged, profileId, task, authorize);
      && |d.spawned| == (if w.configured && task != "" && !w.cancelled(site) then 1 else 0)
      && (d.spawned == [] ==>
            d.result == Err(if !w.configured then "no LLM provider configured"
                            else if task == "" then "delegate requires a task" else "context canceled"))
      && forall s <- d.spawned ::
           && ReportsRun(w.resolve(profileId).id, s, d.result)
           && s.requested == profileId && s.resolved == w.resolve(profileId).id && s.task == task && s.site == site
           && s.depth == depth + 1 && s.flagged == flagged && s.authorized == authorize
           && s.durationMs == w.durationMs(site)
  {
    hide LoopFrom, LoopFor, FirstUses, FirstUsesOf, ToolNames;
    if w.configured && task != "" && !w.cancelled(site) {
      var profile := w.resolve(profileId);
      var cfg := LoopFor(w, site, depth, flagged, profile, authorize);
      var st := OpeningState(cfg.wording, w.systemPrompt(profile), TaskText(w.notes(site), task));
      LoopForWording(w, site, depth, flagged, profile, authorize);
      LoopConserves(cfg, st, StepCap(cfg.maxSteps));
      var acts := LoopFrom(cfg, st, StepCap(cfg.maxSteps)).trace.activity;
      assert [] + StepsOf(acts) == StepsOf(acts);
      StepsAre(acts);
      assert ToolNames(StepsOf(acts)) == ToolsOf(acts);
      ListIsFirstUses(ToolsOf(acts));
    }
  }

  lemma LoopForWording(w: World, site: Site, depth: nat, flagged: bool, profile: Profile, authorize: seq<string>)
    ensures LoopFor(w, site, depth, flagged, profile, authorize).wording == w.wording
  {
  }

  /** The `delegate` tool refuses a call without its arguments, to a coordinator, or from the deepest
      level, in this order. */
  lemma RunDelegateRefuses(w: World, site: Site, depth: nat, flagged: bool, call: ToolCall)
    ensures var run, target, task := RunDelegate(w, site, depth, flagged, call), StringArg(call, "agent"),
    StringArg(call, "task");
      if target == "" || task == "" then run == ToolRun(Err("delegate requires 'agent' and 'task'"), [])
      else if target in ["lead", "generalist"] then
        run == ToolRun(Err("cannot delegate to " + Quoted(target) + "; choose a specialist"), [])
      else depth >= w.maxDepth ==>
        run == ToolRun(Err("maximum delegation depth (" + Decimal(w.maxDepth)
                           + ") reached — complete this sub-task directly rather than delegating further"), [])
  {
    hide Delegate, Authorized, Decimal;
  }

  predicate Refused(w: World, depth: nat, call: ToolCall) {
    || StringArg(call, "agent") in ["", "lead", "generalist"]
    || StringArg(call, "task") == ""
    || depth >= w.maxDepth
  }

  /** Otherwise it delegates the task to the agent, and returns the report of what that came to. */
  lemma RunDelegateReports(w: World, site: Site, depth: nat, flagged: bool, call: ToolCall)
    requires !Refused(w, depth, call)
    ensures var run, target := RunDelegate(w, site, depth, flagged, call), StringArg(call, "agent");
      && |run.spawned| == (if w.configured && !w.cancelled(site) then 1 else 0)
      && (run.spawned == [] ==> run.result.Err?)
      && forall s <- run.spawned ::
           && s.requested == target && s.task == StringArg(call, "task") && s.site == site
           && s.depth == depth + 1 && s.flagged == flagged
           && PassedOn(w, w.resolve(target).id, s, run.result)
  {
    hide Delegate, Authorized, ReportsRun, Decimal, PassedOn;
    var target, task := StringArg(call, "agent"), StringArg(call, "task");
    var profile := w.resolve(target);
    var authorize := Authorized(Names(profile.tools), w.policyAt(site), profile.id, flagged);
    var d := Delegate(w, site, depth, flagged, target, task, authorize);
    DelegateReports(w, site, depth, flagged, target, task, authorize);
    RunDelegateIs(w, site, depth, flagged, call);
    forall s | s in d.spawned ensures PassedOn(w, profile.id, s, RunDelegate(w, site, depth, flagged, call).result) {
      OutcomeIsResult(profile.id, s, d.result);
      Passes(w, profile.id, s, d.result);
    }
  }

  /** The tool's result is the report of what the delegation returned for this run, or its error. */
  ghost predicate PassedOn(w: World, profile: string, s: SubAgent, result: Result<string>) {
    match s.outcome
    case Err(e) => result == Err(e)
    case Ok(_) => exists v :: ReportsRun(profile, s, Ok(v)) && result == Ok(w.report(v))
  }

  lemma Passes(w: World, profile: string, s: SubAgent, result: Result<DelegationResult>)
    requires ReportsRun(profile, s, result)
    ensures PassedOn(w, profile, s, match result case Err(e) => Err(e) case Ok(v) => Ok(w.report(v)))
  {
    hide FirstUsesOf;
    if s.outcome.Ok? { assert ReportsRun(profile, s, Ok(result.value)); }
  }

  lemma RunDelegateIs(w: World, site: Site, depth: nat, flagged: bool, call: ToolCall)
    requires !Refused(w, depth, call)
    ensures var run, target := RunDelegate(w, site, depth, flagged, call), StringArg(call, "agent");
      var profile := w.resolve(target);
      var d := Delegate(w, site, depth, flagged, target, StringArg(call, "task"),
                        Authorized(Names(profile.tools), w.policyAt(site), profile.id, flagged));
      && run.spawned == d.spawned
      && run.result == match d.result case Err(e) => Err(e) case Ok(v) => Ok(w.report(v))
  {
    hide Delegate, Authorized;
  }

  lemma OutcomeIsResult(profile: string, s: SubAgent, result: Result<DelegationResult>)
    requires ReportsRun(profile, s, result)
    ensures if s.outcome.Err? then result == Err(s.outcome.error) else result.Ok? && result == Ok(result.value)
  {
    hide FirstUsesOf;
  }

  // ----- What a sub-agent did -----

  /** One recorded step of a sub-agent: what was proposed at this point of its conversation, and what the
      schema, the approver, the tool or a nested delegation made of it. */
  predicate SubStep(w: World, s: SubAgent, h: seq<Message>, resp: Response, reply: Message, act: Activity)
    requires resp.toolCalls != []
  {
    var call, st := resp.toolCalls[0], act.step;
    && st.call == call && st.note == Trim(resp.text, GoSpace)
    && match ValidateCall(w.resolve(s.requested).tools, call)
       case Some(e) =>
         && IsReply(reply, call, InvalidText(call, e), true)
         && !st.approved && st.error == e && st.result == "" && act.spawned == []
       case None =>
         if !Approver(s.authorized, w.preapproved, call) then
           && IsReply(reply, call, DeniedText(call), true)
           && !st.approved && st.error == "" && st.result == "(denied)" && act.spawned == []
         else
           && st.approved
           && var result := SubResult(w, s, h, call);
           && act.spawned ==
                (if call.tool == "delegate" then RunDelegate(w, s.site + [|h|], s.depth, s.flagged, call).spawned
                 else [])
           && match result
              case Ok(out) => IsReply(reply, call, out, false) && st.error == "" && st.result == out
              case Err(e) => IsReply(reply, call, ErroredText(call, e), true) && st.error == e && st.result == ""
  }

  /** What an accepted call gives: a nested delegation's report, or the tool's own result. */
  function SubResult(w: World, s: SubAgent, h: seq<Message>, call: ToolCall): Result<string> {
    if call.tool == "delegate" then RunDelegate(w, s.site + [|h|], s.depth, s.flagged, call).result
    else w.runTool(s.site, h, call, s.flagged)
  }

  /** The whole of a sub-agent: its conversation `ms` and the responses `cs` it got. */
  predicate SubAgentRan(w: World, s: SubAgent, ms: seq<Message>, cs: seq<Result<Response>>) {
    var profile, turns := w.resolve(s.requested), |s.activity|;
    && |ms| >= 2 && turns <= |cs| == s.completions && 2 + 2 * turns <= |ms|
    && (s.outcome.Ok? ==>
          && s.outcome.value.inputTokens == InputSum(cs) && s.outcome.value.outputTokens == OutputSum(cs))
    && ms[0].role == RoleSystem
    && ms[0].content == (if w.systemPrompt(profile) == "" then w.wording.persona else w.systemPrompt(profile))
    && ms[1].role == RoleUser
    && ms[1].content == (if w.notes(s.site) == "" then s.task else w.notes(s.site) + "\n\n" + s.task)
    && (forall k :: 0 <= k < |cs| ==> 2 + 2 * k <= |ms| && cs[k] == w.provider(s.site, ms[..2 + 2 * k]))
    && (forall k :: 0 <= k < turns ==>
          && cs[k].Ok? && cs[k].value.toolCalls != [] && IsSaid(ms[2 + 2 * k], cs[k].value)
          && SubStep(w, s, ms[..3 + 2 * k], cs[k].value, ms[3 + 2 * k], s.activity[k]))
    && if turns == w.stepCap then
         && |cs| == turns && s.outcome.Ok? && s.outcome.value.stopped && s.outcome.value.answer == w.wording.loopCapped
       else
         && |cs| == turns + 1
         && Ended(s.outcome, cs[turns])
  }

  /** How a run ends whose last response has no calls, or is an error. */
  predicate Ended(outcome: Result<RunResult>, last: Result<Response>) {
    match last
    case Err(e) => outcome == Err(e)
    case Ok(resp) =>
      && resp.toolCalls == [] && outcome.Ok?
      && !outcome.value.stopped && outcome.value.answer == Trim(resp.text, GoSpace)
  }

  /** What the Loop of a sub-agent at this depth calls. */
  ghost predicate IsLoopOf(w: World, site: Site, depth: nat, flagged: bool, profile: Profile, authorize: seq<string>,
                           cfg: LoopConfig) {
    && cfg.tools == profile.tools && cfg.maxSteps == w.stepCap && cfg.wording == w.wording
    && (forall h :: cfg.complete(h) == w.provider(site, h))
    && (forall h, c :: cfg.approve(h, c) == Ok(Approver(authorize, w.preapproved, c)))
    && forall h, c :: cfg.execute(h, c) ==
         if c.tool == "delegate" then RunDelegate(w, site + [|h|], depth, flagged, c)
         else ToolRun(w.runTool(site, h, c, flagged), [])
  }

  lemma LoopIs(w: World, site: Site, depth: nat, flagged: bool, profile: Profile, authorize: seq<string>)
    ensures var cfg := LoopFor(w, site, depth, flagged, profile, authorize);
      && IsLoopOf(w, site, depth + 1, flagged, profile, authorize, cfg)
      && cfg.maxSteps == w.stepCap && cfg.wording == w.wording
  {
    hide RunDelegate;
  }

  lemma StepOfTurn(w: World, s: SubAgent, cfg: LoopConfig, ms: seq<Message>, tr: LoopTrace, k: nat)
    requires LoopTurnAt(cfg, ms, tr, 2, k) && k < |s.activity| && tr.activity == s.activity
    requires IsLoopOf(w, s.site, s.depth, s.flagged, w.resolve(s.requested), s.authorized, cfg)
    ensures 3 + 2 * k < |ms| && k < |tr.completions|
    ensures var c := tr.completions[k];
      && c == w.provider(s.site, ms[..2 + 2 * k])
      && c.Ok? && c.value.toolCalls != [] && IsSaid(ms[2 + 2 * k], c.value)
      && SubStep(w, s, ms[..3 + 2 * k], c.value, ms[3 + 2 * k], s.activity[k])
  {
    hide RunDelegate, Approver, ValidateCall, InvalidText, ErroredText, DeniedText, Trim;
  }

  /** For every delegation that starts a sub-agent: its conversation opens with its persona and its task, is
      made of its provider's responses and of what its schema, its approver, its tools and the delegations
      below it gave for exactly the conversation so far, and it came to what its last response says. */
  lemma DelegateRan(w: World, site: Site, depth: nat, flagged: bool, profileId: string, task: string,
                    authorize: seq<string>)
    returns (ms: seq<Message>, cs: seq<Result<Response>>)
    ensures forall s <- Delegate(w, site, depth, flagged, profileId, task, authorize).spawned ::
        SubAgentRan(w, s, ms, cs)
  {
    hide LoopFrom, LoopFor, FirstUses, ToolNames, LoopTurnAt, LoopEndsAt, ApprovedSteps, IsLoopOf, SubAgentRan;
    ms, cs := [], [];
    if w.configured && task != "" && !w.cancelled(site) {
      var profile := w.resolve(profileId);
      var cfg := LoopFor(w, site, depth, flagged, profile, authorize);
      var run := RunLoop(cfg, w.systemPrompt(profile), TaskText(w.notes(site), task));
      var turns;
      LoopIs(w, site, depth, flagged, profile, authorize);
      turns, ms := RunExplained(cfg, w.systemPrompt(profile), TaskText(w.notes(site), task));
      cs := run.trace.completions;
      var s := RecordOf(w, site, depth, flagged, profileId, profile, task, authorize, run);
      assert Delegate(w, site, depth, flagged, profileId, task, authorize).spawned == [s];
      LoopIsRecord(w, s, cfg, run, ms, turns);
    }
  }

  /** The facts about a Loop's run, as facts about the record made of it. */
  lemma LoopIsRecord(w: World, s: SubAgent, cfg: LoopConfig, run: LoopRun, ms: seq<Message>, turns: nat)
    requires IsLoopOf(w, s.site, s.depth, s.flagged, w.resolve(s.requested), s.authorized, cfg)
    requires s.activity == run.trace.activity && |s.activity| == turns && s.completions == |run.trace.completions|
    requires s.outcome == if run.error.Some? then Err(run.error.value) else Ok(run.result)
    requires |ms| >= 2
    requires var system := w.systemPrompt(w.resolve(s.requested));
      ms[0] == Message(RoleSystem, if system == "" then w.wording.persona else system, [], "", false)
    requires ms[1] == Message(RoleUser, TaskText(w.notes(s.site), s.task), [], "", false)
    requires forall k :: 0 <= k < turns ==> LoopTurnAt(cfg, ms, run.trace, 2, k)
    requires LoopEndsAt(cfg, run, ms, 2, turns, w.stepCap)
    requires run.result.inputTokens == InputSum(run.trace.completions)
    requires run.result.outputTokens == OutputSum(run.trace.completions)
    ensures SubAgentRan(w, s, ms, run.trace.completions)
  {
    hide LoopTurnAt, LoopEndsAt, SubStep, Ended, Trim, RunDelegate, Approver;
    forall k | 0 <= k < turns
      ensures 3 + 2 * k < |ms| && k < |run.trace.completions|
      ensures var c := run.trace.completions[k];
        && c == w.provider(s.site, ms[..2 + 2 * k]) && c.Ok? && c.value.toolCalls != []
            && IsSaid(ms[2 + 2 * k], c.value)
        && SubStep(w, s, ms[..3 + 2 * k], c.value, ms[3 + 2 * k], s.activity[k])
    {
      StepOfTurn(w, s, cfg, ms, run.trace, k);
    }
    LoopEnded(cfg, run, ms, turns, s.outcome);
  }

  lemma LoopEnded(cfg: LoopConfig, run: LoopRun, ms: seq<Message>, turns: nat, outcome: Result<RunResult>)
    requires cfg.maxSteps > 0 && LoopEndsAt(cfg, run, ms, 2, turns, cfg.maxSteps)
    requires forall h, c :: cfg.approve(h, c).Ok?
    requires outcome == if run.error.Some? then Err(run.error.value) else Ok(run.result)
    ensures var cs := run.trace.completions;
      if turns == cfg.maxSteps then
        && |cs| == turns && |ms| == 2 + 2 * turns && outcome.Ok? && outcome.value.stopped
        && outcome.value.answer == cfg.wording.loopCapped
      else
        && |cs| == turns + 1 && 2 + 2 * turns <= |ms|
        && cs[turns] == cfg.complete(ms[..2 + 2 * turns]) && Ended(outcome, cs[turns])
  {
    hide Trim, ValidateCall;
  }
}
