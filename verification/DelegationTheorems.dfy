/** What every delegation tree keeps: bounded depth and model use, one approval flag throughout, and
    no sensitive call beyond what each boundary authorized. */
module DelegationTheorems {
  import opened Llm
  import opened Schema
  import opened Agent
  import opened LoopTheorems
  import opened Policy
  import opened Delegation

  /** Some accepted call of the run had this execution. */
  ghost predicate RanBy(cfg: LoopConfig, spawned: seq<SubAgent>) {
    exists h, c :: cfg.approve(h, c) == Ok(true) && spawned == cfg.execute(h, c).spawned
  }

  /** The sub-agents below a run all come from executions of calls that its approver accepted. */
  lemma {:induction false} LoopSpawns(cfg: LoopConfig, st: LoopState, left: nat)
    ensures forall a <- LoopFrom(cfg, st, left).trace.activity :: a.spawned == [] || RanBy(cfg, a.spawned)
    decreases left
  {
    hide LoopTurnOf, RanBy;
    if left > 0 {
      TurnSpawns(cfg, st);
      match LoopTurnOf(cfg, st)
      case Returned(_, _, _) =>
      case Continued(next, _) => LoopSpawns(cfg, next, left - 1);
    }
  }

  lemma TurnSpawns(cfg: LoopConfig, st: LoopState)
    ensures forall a <- LoopTurnOf(cfg, st).trace.activity :: a.spawned == [] || RanBy(cfg, a.spawned)
  {
    hide WellFormed, InvalidText, ErroredText, DeniedText, Text.Trim;
    forall a | a in LoopTurnOf(cfg, st).trace.activity ensures a.spawned == [] || RanBy(cfg, a.spawned) {
      var resp := cfg.complete(st.messages).value;
      var h, c := st.messages + [AssistantMessage(resp.text, resp.toolCalls)], resp.toolCalls[0];
      if ValidateCall(cfg.tools, c).None? && cfg.approve(h, c) == Ok(true) {
        assert a.spawned == cfg.execute(h, c).spawned;
      }
    }
  }

  /** A run delegated at `depth` and everything below it: it sits one level deeper and never below
      the cap when delegated by another agent, sees the given flag, stays within the step cap (its
      last completion ends it, unless all were spent on tool turns), ran only calls its approver
      accepts, and delegated only if it was authorized to. */
  ghost predicate Sound(w: World, sub: SubAgent, depth: nat, flagged: bool)
    decreases sub
  {
    && sub.depth == depth + 1 && sub.flagged == flagged && sub.resolved == w.resolve(sub.requested).id
    && |sub.activity| <= sub.completions <= w.stepCap
    && (sub.completions == |sub.activity| + 1 || sub.completions == |sub.activity| == w.stepCap)
    && (forall c <- sub.executions :: Approver(sub.authorized, w.preapproved, c))
    && (forall a <- sub.activity ::
          && |a.spawned| <= 1
          && (a.spawned != [] ==> "delegate" in sub.authorized)
          && forall s <- a.spawned ::
               Narrowed(w, s, flagged) && depth + 1 < w.maxDepth && Sound(w, s, depth + 1, flagged))
  }

  /** The authorization that runDelegate hands down. */
  ghost predicate Narrowed(w: World, sub: SubAgent, flagged: bool) {
    sub.authorized == Authorized(Names(w.resolve(sub.requested).tools), w.policyAt(sub.site), sub.resolved, flagged)
  }

  lemma DelegateSound(w: World, site: Site, depth: nat, flagged: bool, profileId: string, task: string,
                      authorize: seq<string>)
    ensures var d := Delegate(w, site, depth, flagged, profileId, task, authorize);
      |d.spawned| <= 1 && forall s <- d.spawned ::
        Sound(w, s, depth, flagged) && s.requested == profileId && s.site == site && s.authorized == authorize
    decreases Levels(w, depth), if depth < w.maxDepth then 1 else 3, 0
  {
    hide Approver, Authorized, FirstUses, LoopFrom, NeedsApproval, ExecuteFor;
    var d := Delegate(w, site, depth, flagged, profileId, task, authorize);
    if d.spawned != [] {
      var profile := w.resolve(profileId);
      var cfg := LoopFor(w, site, depth, flagged, profile, authorize);
      var st := OpeningState(w.wording, w.systemPrompt(profile), TaskText(w.notes(site), task));
      var run := LoopFrom(cfg, st, StepCap(cfg.maxSteps));
      LoopTells(cfg, st, StepCap(cfg.maxSteps));
      LoopExecutes(cfg, st, StepCap(cfg.maxSteps));
      LoopSpawns(cfg, st, StepCap(cfg.maxSteps));
      forall a | a in run.trace.activity
        ensures |a.spawned| <= 1
        ensures a.spawned != [] ==> "delegate" in authorize
        ensures forall s <- a.spawned ::
          Narrowed(w, s, flagged) && depth + 1 < w.maxDepth && Sound(w, s, depth + 1, flagged)
      {
        if a.spawned != [] {
          var h, c :| cfg.approve(h, c) == Ok(true) && a.spawned == cfg.execute(h, c).spawned;
          ExecuteSound(w, site, depth + 1, flagged, h, c);
          DelegateNeedsAuthority(authorize, w.preapproved, c);
        }
      }
    }
  }

  lemma DelegateNeedsAuthority(allow: seq<string>, preapproved: string -> bool, c: ToolCall)
    requires c.tool == "delegate" && Approver(allow, preapproved, c)
    ensures "delegate" in allow
  {
  }

  lemma ExecuteSound(w: World, site: Site, depth: nat, flagged: bool, history: seq<Message>, call: ToolCall)
    ensures var run := ExecuteFor(w, site, depth, flagged, history, call);
      && |run.spawned| <= 1
      && (run.spawned != [] ==> call.tool == "delegate")
      && forall s <- run.spawned :: Narrowed(w, s, flagged) && depth < w.maxDepth && Sound(w, s, depth, flagged)
    decreases Levels(w, depth), 2
  {
    hide Sound;
    if call.tool == "delegate" {
      RunDelegateSound(w, site + [|history|], depth, flagged, call);
    }
  }

  lemma RunDelegateSound(w: World, site: Site, depth: nat, flagged: bool, call: ToolCall)
    ensures var run := RunDelegate(w, site, depth, flagged, call);
      && |run.spawned| <= 1
      && forall s <- run.spawned ::
           s.site == site && Narrowed(w, s, flagged) && depth < w.maxDepth && Sound(w, s, depth, flagged)
    decreases Levels(w, depth), 1, 1
  {
    hide Sound, Authorized, Delegate;
    var target, task := StringArg(call, "agent"), StringArg(call, "task");
    if depth < w.maxDepth && target != "" && task != "" && target != "lead" && target != "generalist" {
      var profile := w.resolve(target);
      var authorize := Authorized(Names(profile.tools), w.policyAt(site), profile.id, flagged);
      DelegateSound(w, site, depth, flagged, target, task, authorize);
      forall s | s in Delegate(w, site, depth, flagged, target, task, authorize).spawned
        ensures Narrowed(w, s, flagged) { SoundResolved(w, s, depth, flagged); }
    }
  }

  lemma SoundResolved(w: World, s: SubAgent, depth: nat, flagged: bool)
    requires Sound(w, s, depth, flagged)
    ensures s.resolved == w.resolve(s.requested).id
  {
  }

  // ----- Bounded use of the model -----

  /** The completions that a run and everything below it asked for. */
  function Completions(sub: SubAgent): nat
    decreases sub
  {
    sub.completions + CompletionsBelow(sub.activity)
  }

  function CompletionsBelow(acts: seq<Activity>): nat
    decreases acts
  {
    if acts == [] then 0 else CompletionsOf(acts[0].spawned) + CompletionsBelow(acts[1..])
  }

  function CompletionsOf(subs: seq<SubAgent>): nat
    decreases subs
  {
    if subs == [] then 0 else Completions(subs[0]) + CompletionsOf(subs[1..])
  }

  function Power(base: nat, n: nat): nat { if n == 0 then 1 else base * Power(base, n - 1) }

  /** S + S^2 + ... + S^n. */
  function PowerSum(base: nat, n: nat): nat { if n == 0 then 0 else PowerSum(base, n - 1) + Power(base, n) }

  lemma Distributes(a: nat, b: nat, c: nat)
    ensures a * (b + c) == a * b + a * c
  {
  }

  lemma {:induction false} PowerSumUnfolds(base: nat, n: nat)
    ensures PowerSum(base, n + 1) == base + base * PowerSum(base, n)
  {
    assert Power(base, n + 1) == base * Power(base, n);
    if n > 0 {
      PowerSumUnfolds(base, n - 1);
      Distributes(base, PowerSum(base, n - 1), Power(base, n));
    }
  }

  lemma {:induction false} SumBelow(w: World, acts: seq<Activity>, depth: nat, flagged: bool, bound: nat)
    requires forall a <- acts :: |a.spawned| <= 1
    requires forall a <- acts, s <- a.spawned :: Completions(s) <= bound
    ensures CompletionsBelow(acts) <= |acts| * bound
    decreases acts
  {
    if acts != [] {
      SumBelow(w, acts[1..], depth, flagged, bound);
      var subs := acts[0].spawned;
      if subs != [] {
        assert subs[1..] == [];
        assert subs[0] in subs && acts[0] in acts;
      }
      assert CompletionsOf(subs) <= bound;
      assert |acts| * bound == bound + |acts[1..]| * bound;
    }
  }

  lemma {:induction false} CompletionsBounded(w: World, sub: SubAgent, depth: nat, flagged: bool)
    requires Sound(w, sub, depth, flagged) && depth < w.maxDepth
    ensures Completions(sub) <= PowerSum(w.stepCap, w.maxDepth - depth)
    decreases sub
  {
    hide Narrowed, Approver;
    var below := w.maxDepth - depth - 1;
    var bound := PowerSum(w.stepCap, below);
    forall a, s | a in sub.activity && s in a.spawned ensures Completions(s) <= bound {
      CompletionsBounded(w, s, depth + 1, flagged);
    }
    SumBelow(w, sub.activity, depth + 1, flagged, bound);
    Scale(|sub.activity|, w.stepCap, bound);
    PowerSumUnfolds(w.stepCap, below);
  }

  lemma Scale(a: nat, b: nat, c: nat)
    requires a <= b
    ensures a * c <= b * c
  {
  }

  /** A root delegation (one issued outside any sub-agent, at depth 0) makes at most
      S + S^2 + ... + S^D completions in all, whatever the model and the tools do. */
  lemma RootDelegationIsBounded(w: World, site: Site, flagged: bool, profileId: string, task: string,
                                authorize: seq<string>)
    ensures CompletionsOf(Delegate(w, site, 0, flagged, profileId, task, authorize).spawned)
        <= PowerSum(w.stepCap, w.maxDepth)
  {
    hide Delegate;
    var subs := Delegate(w, site, 0, flagged, profileId, task, authorize).spawned;
    DelegateSound(w, site, 0, flagged, profileId, task, authorize);
    if subs != [] {
      assert subs[0] in subs && subs[1..] == [];
      CompletionsBounded(w, subs[0], 0, flagged);
    }
  }

  // ----- Statements about every sub-agent of a tree -----

  /** s is the root of the tree or one of the sub-agents below it. */
  ghost predicate Within(s: SubAgent, root: SubAgent)
    decreases root
  {
    s == root || exists a <- root.activity, t <- a.spawned :: Within(s, t)
  }

  lemma {:induction false} WithinSound(w: World, root: SubAgent, depth: nat, flagged: bool, s: SubAgent)
    returns (d: nat)
    requires Sound(w, root, depth, flagged) && Within(s, root)
    ensures Sound(w, s, d, flagged) && (s == root || (Narrowed(w, s, flagged) && d < w.maxDepth))
    decreases root
  {
    hide Narrowed, Approver;
    d := depth;
    if s != root {
      var a, t :| a in root.activity && t in a.spawned && Within(s, t);
      d := WithinSound(w, t, depth + 1, flagged, s);
    }
  }

  /** No sub-agent of a root delegation runs deeper than the cap. */
  lemma NoneTooDeep(w: World, site: Site, flagged: bool, profileId: string, task: string, authorize: seq<string>,
                    s: SubAgent)
    requires exists root <- Delegate(w, site, 0, flagged, profileId, task, authorize).spawned :: Within(s, root)
    ensures 1 <= s.depth <= w.maxDepth
  {
    hide Delegate;
    DelegateSound(w, site, 0, flagged, profileId, task, authorize);
    var root :| root in Delegate(w, site, 0, flagged, profileId, task, authorize).spawned && Within(s, root);
    var d := WithinSound(w, root, 0, flagged, s);
  }

  /** In any delegation, at every depth: a fetch that a sub-agent ran was from a preapproved source,
      whatever was authorized and by whom; and every other sensitive call that it ran was on the list
      authorized at its own boundary. */
  lemma SensitiveCallsAreAuthorized(w: World, site: Site, depth: nat, flagged: bool, profileId: string, task: string,
                                    authorize: seq<string>, s: SubAgent, c: ToolCall)
    requires exists root <- Delegate(w, site, depth, flagged, profileId, task, authorize).spawned :: Within(s, root)
    requires c in s.executions && Sensitive(c.tool)
    ensures if IsFetch(c) then PreapprovedFetch(w.preapproved, c) else c.tool in s.authorized
  {
    hide Delegate, Sensitive;
    DelegateSound(w, site, depth, flagged, profileId, task, authorize);
    var root :| root in Delegate(w, site, depth, flagged, profileId, task, authorize).spawned && Within(s, root);
    var d := WithinSound(w, root, depth, flagged, s);
  }

  /** So approving a delegation never opens the network to a specialist: in the tree of any `delegate`
      call, approved or not, every fetch was from a preapproved source. */
  lemma FetchesArePreapproved(w: World, site: Site, depth: nat, flagged: bool, call: ToolCall, s: SubAgent, c: ToolCall)
    requires exists root <- RunDelegate(w, site, depth, flagged, call).spawned :: Within(s, root)
    requires c in s.executions && IsFetch(c)
    ensures PreapprovedFetch(w.preapproved, c)
  {
    hide RunDelegate, Authorized;
    RunDelegateSound(w, site, depth, flagged, call);
    var root :| root in RunDelegate(w, site, depth, flagged, call).spawned && Within(s, root);
    var d := WithinSound(w, root, depth, flagged, s);
  }

  /** In the tree of a `delegate` call that carries no human approval, at every depth, a call that
      its agent's policy gates ran only if the approver lets it through unasked: a tool that it does
      not count as sensitive, or a preapproved fetch. */
  lemma UnapprovedDelegationRunsNothingGated(w: World, site: Site, depth: nat, call: ToolCall, s: SubAgent, c: ToolCall)
    requires exists root <- RunDelegate(w, site, depth, false, call).spawned :: Within(s, root)
    requires c in s.executions && NeedsApproval(w.policyAt(s.site), c.tool, s.resolved)
    ensures !Sensitive(c.tool) || PreapprovedFetch(w.preapproved, c)
  {
    hide RunDelegate, NeedsApproval, Sensitive, PreapprovedFetch, Approver, Authorized;
    RunDelegateSound(w, site, depth, false, call);
    var root :| root in RunDelegate(w, site, depth, false, call).spawned && Within(s, root);
    var d := WithinSound(w, root, depth, false, s);
    GatedCallPassesIff(w.resolve(s.requested), w.policyAt(s.site), w.preapproved, c);
  }

  /** So at every depth no call runs on which an interactive session of its agent would pause, when the
      agent's policy gates sensitive tools only; and no gated call at all, if no source is preapproved. */
  lemma PlainPoliciesHoldEverywhere(w: World, site: Site, depth: nat, call: ToolCall, s: SubAgent, c: ToolCall)
    requires forall tool | NeedsApproval(w.policyAt(s.site), tool, s.resolved) :: Sensitive(tool)
    requires exists root <- RunDelegate(w, site, depth, false, call).spawned :: Within(s, root)
    requires c in s.executions
    ensures !Pauses(w.policyAt(s.site), s.resolved, w.preapproved, c)
    ensures (forall url :: !w.preapproved(url)) ==> !NeedsApproval(w.policyAt(s.site), c.tool, s.resolved)
  {
    hide RunDelegate, NeedsApproval, Sensitive;
    if NeedsApproval(w.policyAt(s.site), c.tool, s.resolved) {
      UnapprovedDelegationRunsNothingGated(w, site, depth, call, s, c);
    }
  }

  /** As under the default policy, or any without rules. */
  lemma RulelessPoliciesHoldEverywhere(w: World, site: Site, depth: nat, call: ToolCall, s: SubAgent, c: ToolCall)
    requires w.policyAt(s.site).rules == []
    requires exists root <- RunDelegate(w, site, depth, false, call).spawned :: Within(s, root)
    requires c in s.executions
    ensures !Pauses(w.policyAt(s.site), s.resolved, w.preapproved, c)
  {
    hide RunDelegate, NeedsApproval, Sensitive, Pauses;
    var p := w.policyAt(s.site);
    forall tool | NeedsApproval(p, tool, s.resolved) ensures Sensitive(tool) {
      RulelessGatesSensitiveOnly(p, tool, s.resolved);
    }
    PlainPoliciesHoldEverywhere(w, site, depth, call, s, c);
  }

  /** The approval flag is inherited: below an approved delegation every nested delegation counts as
      approved too, and hands its specialist the whole of its toolset. */
  lemma ApprovalReachesEveryLevel(w: World, site: Site, depth: nat, call: ToolCall, s: SubAgent)
    requires exists root <- RunDelegate(w, site, depth, true, call).spawned :: Within(s, root)
    ensures s.flagged && s.authorized == Names(w.resolve(s.requested).tools)
  {
    hide RunDelegate, NeedsApproval, Sensitive;
    RunDelegateSound(w, site, depth, true, call);
    var root :| root in RunDelegate(w, site, depth, true, call).spawned && Within(s, root);
    var d := WithinSound(w, root, depth, true, s);
    ApprovalRestoresAll(Names(w.resolve(s.requested).tools), w.policyAt(s.site), s.resolved);
  }

  /** Where every policy gates `delegate`, an unapproved delegation is the last: the specialist it
      starts cannot delegate further. */
  lemma UnapprovedTreeIsFlat(w: World, site: Site, depth: nat, call: ToolCall)
    requires forall at, profile :: NeedsApproval(w.policyAt(at), "delegate", profile)
    ensures forall s <- RunDelegate(w, site, depth, false, call).spawned, a <- s.activity :: a.spawned == []
  {
    hide RunDelegate, NeedsApproval, Approver;
    RunDelegateSound(w, site, depth, false, call);
    forall s | s in RunDelegate(w, site, depth, false, call).spawned ensures forall a <- s.activity :: a.spawned == [] {
      ListsPartition(Names(w.resolve(s.requested).tools), w.policyAt(s.site), s.resolved);
      assert NeedsApproval(w.policyAt(s.site), "delegate", s.resolved);
    }
  }

  /** And the boundary does let such a call through: the first call a sub-agent's model proposes, if
      well formed, runs exactly when the approver accepts it; and what it spawns is below it. */
  lemma FirstCallRunsIffAccepted(w: World, site: Site, depth: nat, flagged: bool, profileId: string, task: string,
                                 authorize: seq<string>, resp: Response)
    requires w.configured && task != "" && !w.cancelled(site)
    requires w.provider(site, Opening(w, site, profileId, task)) == Ok(resp)
    requires resp.toolCalls != [] && ValidateCall(w.resolve(profileId).tools, resp.toolCalls[0]).None?
    ensures var d, c := Delegate(w, site, depth, flagged, profileId, task, authorize), resp.toolCalls[0];
      var ok := Approver(authorize, w.preapproved, c);
      && |d.spawned| == 1 && d.spawned[0].activity != []
      && d.spawned[0].activity[0].step.call == c
      && d.spawned[0].activity[0].step.approved == ok
      && (ok ==> d.spawned[0].executions != [] && d.spawned[0].executions[0] == c)
      && d.spawned[0].activity[0].spawned
          == if ok then SpawnedBy(w, site, depth + 1, flagged, profileId, task, resp) else []
  {
    hide Approver, FirstUses, ExecuteFor, LoopFrom;
    var profile := w.resolve(profileId);
    var cfg := LoopFor(w, site, depth, flagged, profile, authorize);
    var st := OpeningState(w.wording, w.systemPrompt(profile), TaskText(w.notes(site), task));
    FirstCall(cfg, st, StepCap(cfg.maxSteps), resp, Approver(authorize, w.preapproved, resp.toolCalls[0]));
  }

  /** The conversation a sub-agent opens with. */
  function Opening(w: World, site: Site, profileId: string, task: string): seq<Message> {
    OpeningState(w.wording, w.systemPrompt(w.resolve(profileId)), TaskText(w.notes(site), task)).messages
  }

  /** What the execution of the first call of a response starts. */
  function SpawnedBy(w: World, site: Site, depth: nat, flagged: bool, profileId: string, task: string,
                     resp: Response): seq<SubAgent>
    requires resp.toolCalls != []
  {
    var h := Opening(w, site, profileId, task) + [AssistantMessage(resp.text, resp.toolCalls)];
    ExecuteFor(w, site, depth, flagged, h, resp.toolCalls[0]).spawned
  }

  // ----- A nested delegation below an approved one -----

  /** The delegate tool as the program declares it. */
  function DelegateTool(): Tool {
    Tool("delegate", [
      Param("agent", TEnum, true, ["code-analysis", "vuln-validator", "pentester", "triage", "report-writer"]),
      Param("task", TString, true, [])])
  }

  function HandOff(): ToolCall {
    ToolCall("", "delegate", map["agent" := JString("pentester"), "task" := JString("go on")])
  }

  lemma HandOffIsValid()
    ensures ValidateCall([DelegateTool()], HandOff()).None?
  {
    var params := DelegateTool().params;
    forall p | p in params ensures Satisfied(p, HandOff().args) {
      assert p == params[0] || p == params[1];
      assert "pentester" == params[0].options[2];
    }
  }

  /** A world in which every agent may delegate, its model always does, and the policy has no rules. */
  function Eager(wording: Wording): World {
    World(true, (at: Site, h: seq<Message>) => Ok(Response("", [HandOff()], 0, 0)),
          (at: Site, h: seq<Message>, c: ToolCall, flagged: bool) => Ok(""), at => false,
          id => Profile(id, [DelegateTool()]), at => DefaultPolicy(), url => false,
          p => "", at => "", r => "", at => 0, wording, 1, 2)
  }

  lemma RunDelegateSpawns(w: World, site: Site, depth: nat, flagged: bool, call: ToolCall)
    requires StringArg(call, "agent") !in ["", "lead", "generalist"] && StringArg(call, "task") != ""
        && depth < w.maxDepth
    ensures var target := StringArg(call, "agent");
      var profile := w.resolve(target);
      RunDelegate(w, site, depth, flagged, call).spawned
      == Delegate(w, site, depth, flagged, target, StringArg(call, "task"),
                  Authorized(Names(profile.tools), w.policyAt(site), profile.id, flagged)).spawned
  {
    hide Authorized, Delegate;
  }

  lemma HandOffArguments()
    ensures StringArg(HandOff(), "agent") == "pentester" && StringArg(HandOff(), "task") == "go on"
    ensures "pentester" !in ["", "lead", "generalist"]
  {
  }

  lemma EagerRuns(wording: Wording, site: Site, depth: nat)
    requires depth < 2
    ensures var w, h := Eager(wording), Opening(Eager(wording), site, "pentester", "go on");
      var subs := RunDelegate(w, site, depth, true, HandOff()).spawned;
      && |subs| == 1 && "delegate" in subs[0].authorized && subs[0].activity != []
      && subs[0].activity[0].spawned
         == ExecuteFor(w, site, depth + 1, true, h + [AssistantMessage("", [HandOff()])], HandOff()).spawned
  {
    hide RunDelegate, Delegate, ExecuteFor, Authorized, ValidateCall;
    var w, resp := Eager(wording), Response("", [HandOff()], 0, 0);
    HandOffArguments();
    HandOffIsValid();
    RunDelegateSpawns(w, site, depth, true, HandOff());
    RunDelegateSound(w, site, depth, true, HandOff());
    var names := Names(w.resolve("pentester").tools);
    ApprovalRestoresAll(names, w.policyAt(site), "pentester");
    assert names[0] == "delegate";
    FirstCallRunsIffAccepted(w, site, depth, true, "pentester", "go on", names, resp);
    var subs := RunDelegate(w, site, depth, true, HandOff()).spawned;
    DelegateSound(w, site, depth, true, "pentester", "go on", names);
  }

  /** The source's account of nested delegations, refuted by one run: the policy gates `delegate`, only
      the outer delegation was approved, and a nested one was started and holds `delegate` too. */
  lemma NestedDelegationCountsAsApproved(wording: Wording) returns (root: SubAgent, nested: SubAgent)
    ensures var w := Eager(wording);
      && RunDelegate(w, [], 0, true, HandOff()).spawned == [root] && Within(nested, root) && nested.depth == 2
      && NeedsApproval(w.policyAt(nested.site), "delegate", nested.resolved)
      && nested.flagged && "delegate" in nested.authorized
  {
    hide RunDelegate, Delegate, Authorized;
    var w := Eager(wording);
    var h := Opening(w, [], "pentester", "go on") + [AssistantMessage("", [HandOff()])];
    EagerRuns(wording, [], 0);
    EagerRuns(wording, [] + [|h|], 1);
    root := RunDelegate(w, [], 0, true, HandOff()).spawned[0];
    nested := RunDelegate(w, [] + [|h|], 1, true, HandOff()).spawned[0];
    RunDelegateSound(w, [] + [|h|], 1, true, HandOff());
    assert root.activity[0].spawned == [nested];
    assert root.activity[0] in root.activity && nested in root.activity[0].spawned;
    assert Within(nested, nested);
    assert Sound(w, nested, 1, true);
  }
}
