/** The delegation tree of pkg/analyst/delegate.go: the `delegate` tool runs a specialist as a Loop
    whose own tools may delegate again. The outside world (provider, tools, cancellation, settings)
    is a function of the place in the tree, so each use of it may answer differently. */
module Delegation {
  import opened Llm
  import opened Schema
  import opened Agent
  import opened Policy

  /** The path of a sub-agent in the tree: one number for each delegation above it, the length of
      the delegating conversation at that moment. */
  type Site = seq<nat>

  type Positive = n: nat | n > 0 witness 1

  datatype DelegationResult = DelegationResult(
    profile: string, answer: string, stopped: bool, stepCount: nat, toolsUsed: seq<string>, inputTokens: int,
    outputTokens: int)

  datatype World = World(
    configured: bool,
    provider: (Site, seq<Message>) -> Result<Response>,
    runTool: (Site, seq<Message>, ToolCall, bool) -> Result<string>,
    cancelled: Site -> bool,
    resolve: string -> Profile,
    policyAt: Site -> Policy,
    preapproved: string -> bool,
    systemPrompt: Profile -> string,
    notes: Site -> string,
    report: DelegationResult -> string,
    durationMs: Site -> nat,
    wording: Wording,
    stepCap: Positive,
    maxDepth: Positive)

  /** What a delegation returns, and the sub-agents it ran: none when it is refused before it
      starts, one otherwise. */
  datatype Delegated = Delegated(result: Result<DelegationResult>, spawned: seq<SubAgent>)

  /** The tool executor of a sub-agent's Loop at this depth: `delegate` is handled here. */
  function ExecuteFor(w: World, site: Site, depth: nat, flagged: bool, history: seq<Message>, call: ToolCall): ToolRun
    decreases Levels(w, depth), 2
  {
    if call.tool == "delegate" then RunDelegate(w, site + [|history|], depth, flagged, call)
    else ToolRun(w.runTool(site, history, call, flagged), [])
  }

  function Levels(w: World, depth: nat): nat { if depth < w.maxDepth then w.maxDepth - depth else 0 }

  function RunDelegate(w: World, site: Site, depth: nat, flagged: bool, call: ToolCall): ToolRun
    decreases Levels(w, depth), 1, 1
  {
    var target, task := StringArg(call, "agent"), StringArg(call, "task");
    if target == "" || task == "" then ToolRun(Err("delegate requires 'agent' and 'task'"), [])
    else if target == "lead" || target == "generalist" then
      ToolRun(Err("cannot delegate to " + Quoted(target) + "; choose a specialist"), [])
    else if depth >= w.maxDepth then
      ToolRun(Err("maximum delegation depth (" + Text.Decimal(w.maxDepth)
                  + ") reached — complete this sub-task directly rather than delegating further"), [])
    else
      var profile := w.resolve(target);
      var authorize := Authorized(Names(profile.tools), w.policyAt(site), profile.id, flagged);
      var d := Delegate(w, site, depth, flagged, target, task, authorize);
      match d.result
      case Err(e) => ToolRun(Err(e), d.spawned)
      case Ok(res) => ToolRun(Ok(w.report(res)), d.spawned)
  }

  /** The Loop that a delegation builds. */
  function LoopFor(w: World, site: Site, depth: nat, flagged: bool, profile: Profile,
                   authorize: seq<string>): LoopConfig
    decreases Levels(w, depth), if depth < w.maxDepth then 1 else 3, 0, 0
  {
    LoopConfig(
      (h: seq<Message>) => w.provider(site, h),
      profile.tools,
      (h: seq<Message>, c: ToolCall) => Ok(Approver(authorize, w.preapproved, c)),
      (h: seq<Message>, c: ToolCall) => ExecuteFor(w, site, depth + 1, flagged, h, c),
      w.stepCap,
      w.wording)
  }

  function Delegate(w: World, site: Site, depth: nat, flagged: bool, profileId: string, task: string,
                    authorize: seq<string>): Delegated
    decreases Levels(w, depth), if depth < w.maxDepth then 1 else 3, 0
  {
    if !w.configured then Delegated(Err("no LLM provider configured"), [])
    else if task == "" then Delegated(Err("delegate requires a task"), [])
    else if w.cancelled(site) then Delegated(Err("context canceled"), [])
    else
      var profile := w.resolve(profileId);
      var run := RunLoop(LoopFor(w, site, depth, flagged, profile, authorize), w.systemPrompt(profile),
                         TaskText(w.notes(site), task));
      var sub := RecordOf(w, site, depth, flagged, profileId, profile, task, authorize, run);
      if run.error.Some? then Delegated(Err(run.error.value), [sub])
      else
        var res := run.result;
        Delegated(Ok(DelegationResult(profile.id, res.answer, res.stopped, |res.steps|,
                                      FirstUses(ToolNames(res.steps)), res.inputTokens, res.outputTokens)), [sub])
  }

  /** Flagged notes ride in front of the task. */
  function TaskText(notes: string, task: string): string { if notes != "" then notes + "\n\n" + task else task }

  function RecordOf(w: World, site: Site, depth: nat, flagged: bool, profileId: string, profile: Profile, task: string,
                    authorize: seq<string>, run: LoopRun): SubAgent {
    SubAgent(profileId, profile.id, task, site, depth + 1, flagged, authorize,
             run.trace.activity, run.trace.executions, |run.trace.completions|,
             if run.error.Some? then Err(run.error.value) else Ok(run.result), w.durationMs(site))
  }

  // ----- The tools a run used -----

  function ToolNames(steps: seq<Step>): (names: seq<string>)
    ensures |names| == |steps|
    ensures forall i :: 0 <= i < |names| ==> names[i] == steps[i].call.tool
  {
    seq(|steps|, i requires 0 <= i < |steps| => steps[i].call.tool)
  }

  /** The distinct names, each at its first use. */
  function FirstUses(names: seq<string>): seq<string> {
    if names == [] then []
    else
      var before, name := FirstUses(names[..|names| - 1]), names[|names| - 1];
      if name in before then before else before + [name]
  }

  /** The list has every name once, and grows only at its end as names are added; so it is in the
      order of first use. */
  lemma {:induction false} FirstUsesFacts(names: seq<string>, k: nat)
    requires k <= |names|
    ensures forall t :: t in FirstUses(names) <==> t in names
    ensures forall i, j :: 0 <= i < j < |FirstUses(names)| ==> FirstUses(names)[i] != FirstUses(names)[j]
    ensures FirstUses(names[..k]) <= FirstUses(names)
    decreases |names|
  {
    if names != [] {
      var n := |names| - 1;
      FirstUsesFacts(names[..n], if k <= n then k else n);
      assert names == names[..n] + [names[n]];
      if k <= n {
        assert names[..n][..k] == names[..k];
      } else {
        assert names[..k] == names;
      }
    }
  }

  method ToolsUsed(steps: seq<Step>) returns (tools: seq<string>)
    ensures tools == FirstUses(ToolNames(steps))
  {
    ghost var names := ToolNames(steps);
    var seen: set<string> := {};
    tools := [];
    for i := 0 to |steps|
      invariant tools == FirstUses(names[..i])
      invariant forall t :: t in seen <==> t in tools
    {
      assert names[..i + 1][..i] == names[..i];
      if steps[i].call.tool !in seen {
        seen := seen + {steps[i].call.tool};
        tools := tools + [steps[i].call.tool];
      }
    }
    assert names[..|steps|] == names;
  }
}
