/** The lines that pkg/analyst/delegate.go appends while it runs: Delegate brackets its Loop with a start
    and an end marker, the Loop reports each step when it is done, and a `delegate` call inside a step
    appends its own lines first. They are the trail of the tree that the run leaves behind. */
module Emission {
  import opened Llm
  import opened Schema
  import opened Text
  import opened Agent
  import opened Policy
  import opened Delegation
  import opened Trail
  import opened Reports

  /** What an execution appends, by the conversation and the call. */
  type Emitter = (seq<Message>, ToolCall) -> seq<Entry>

  /** The rest of a turn that proposes a call: the lines of its execution, if it is executed, and then the
      line of its step. */
  function CallLines(cfg: LoopConfig, emits: Emitter, depth: nat, h: seq<Message>, call: ToolCall,
                     note: string): seq<Entry> {
    var st := Step(call, false, "", "", note);
    match ValidateCall(cfg.tools, call)
    case Some(e) => [TurnEntry(st.(error := e), depth)]
    case None =>
      match cfg.approve(h, call)
      case Err(_) => []
      case Ok(approved) =>
        if !approved then [TurnEntry(st.(result := "(denied)"), depth)]
        else emits(h, call) + [TurnEntry(RanStep(st, cfg.execute(h, call)), depth)]
  }

  function TurnLines(cfg: LoopConfig, emits: Emitter, depth: nat, h: seq<Message>): seq<Entry> {
    match cfg.complete(h)
    case Err(_) => []
    case Ok(resp) =>
      if resp.toolCalls == [] then []
      else
        var said := h + [AssistantMessage(resp.text, resp.toolCalls)];
        CallLines(cfg, emits, depth, said, resp.toolCalls[0], Trim(resp.text, GoSpace))
  }

  function LoopLines(cfg: LoopConfig, emits: Emitter, depth: nat, st: LoopState, left: nat): seq<Entry>
    decreases left
  {
    if left == 0 then []
    else
      TurnLines(cfg, emits, depth, st.messages)
      + match LoopTurnOf(cfg, st)
        case Returned(_, _, _) => []
        case Continued(next, _) => LoopLines(cfg, emits, depth, next, left - 1)
  }

  function ExecuteLines(w: World, site: Site, depth: nat, flagged: bool, history: seq<Message>,
                        call: ToolCall): seq<Entry>
    decreases Levels(w, depth), 2
  {
    if call.tool == "delegate" then RunDelegateLines(w, site + [|history|], depth, flagged, call) else []
  }

  function RunDelegateLines(w: World, site: Site, depth: nat, flagged: bool, call: ToolCall): seq<Entry>
    decreases Levels(w, depth), 1, 1
  {
    var target, task := StringArg(call, "agent"), StringArg(call, "task");
    if target == "" || task == "" then []
    else if target == "lead" || target == "generalist" then []
    else if depth >= w.maxDepth then []
    else
      var profile := w.resolve(target);
      DelegateLines(w, site, depth, flagged, target, task,
                    Authorized(Names(profile.tools), w.policyAt(site), profile.id, flagged))
  }

  function DelegateLines(w: World, site: Site, depth: nat, flagged: bool, profileId: string, task: string,
                         authorize: seq<string>): seq<Entry>
    decreases Levels(w, depth), if depth < w.maxDepth then 1 else 3, 0
  {
    if !w.configured then []
    else if task == "" then []
    else if w.cancelled(site) then []
    else
      var profile := w.resolve(profileId);
      var emits := (h: seq<Message>, c: ToolCall) => ExecuteLines(w, site, depth + 1, flagged, h, c);
      RunLines(LoopFor(w, site, depth, flagged, profile, authorize), emits, w.systemPrompt(profile),
               TaskText(w.notes(site), task), profileId, task, depth + 1, w.durationMs(site))
  }

  /** The markers around the lines of the Loop; the end marker comes also when the Loop failed. */
  function RunLines(cfg: LoopConfig, emits: Emitter, system: string, user: string, profileId: string, task: string,
                    depth: nat, durMs: nat): seq<Entry> {
    var run := RunLoop(cfg, system, user);
    var (answer, steps) := if run.error.None? then (run.result.answer, |run.result.steps|) else ("", 0);
    [StartLine(profileId, task, depth)]
    + LoopLines(cfg, emits, depth, OpeningState(cfg.wording, system, user), StepCap(cfg.maxSteps))
    + [EndLine(profileId, depth, answer, steps, durMs)]
  }

  // ----- What is emitted is the trail -----

  /** What an executor appends is the trail of what it spawned. */
  ghost predicate Faithful(cfg: LoopConfig, emits: Emitter) {
    forall h, c :: emits(h, c) == TrailOfAll(cfg.execute(h, c).spawned)
  }

  lemma TurnEmits(cfg: LoopConfig, emits: Emitter, depth: nat, st: LoopState)
    requires Faithful(cfg, emits)
    ensures TurnLines(cfg, emits, depth, st.messages) == TrailOfActs(LoopTurnOf(cfg, st).trace.activity, depth)
  {
    hide InvalidText, DeniedText, ErroredText, Trim, TurnEntry, TrailOf;
    var acts := LoopTurnOf(cfg, st).trace.activity;
    if acts != [] {
      assert acts[1..] == [];
      OneAct(acts[0], depth);
      assert acts == [acts[0]];
    }
  }

  lemma OneAct(a: Activity, depth: nat)
    ensures TrailOfActs([a], depth) == TrailOfAll(a.spawned) + [TurnEntry(a.step, depth)]
    ensures a.spawned == [] ==> TrailOfActs([a], depth) == [TurnEntry(a.step, depth)]
  {
    hide TurnEntry, TrailOf;
    assert [a][1..] == [];
  }

  lemma {:induction false} ActsConcat(a: seq<Activity>, b: seq<Activity>, depth: nat)
    ensures TrailOfActs(a + b, depth) == TrailOfActs(a, depth) + TrailOfActs(b, depth)
    decreases |a|
  {
    hide TurnEntry, TrailOfAll;
    if a == [] {
      assert a + b == b;
    } else {
      assert (a + b)[1..] == a[1..] + b && (a + b)[0] == a[0];
      ActsConcat(a[1..], b, depth);
    }
  }

  lemma {:induction false} LoopEmits(cfg: LoopConfig, emits: Emitter, depth: nat, st: LoopState, left: nat)
    requires Faithful(cfg, emits)
    ensures LoopLines(cfg, emits, depth, st, left) == TrailOfActs(LoopFrom(cfg, st, left).trace.activity, depth)
    decreases left
  {
    hide LoopTurnOf, TurnLines, Faithful, TurnEntry, TrailOfAll;
    if left > 0 {
      TurnEmits(cfg, emits, depth, st);
      match LoopTurnOf(cfg, st)
      case Returned(_, _, _) =>
      case Continued(next, trace) =>
        LoopEmits(cfg, emits, depth, next, left - 1);
        ActsConcat(trace.activity, LoopFrom(cfg, next, left - 1).trace.activity, depth);
    }
  }

  lemma ExecuteEmits(w: World, site: Site, depth: nat, flagged: bool, history: seq<Message>, call: ToolCall)
    ensures ExecuteLines(w, site, depth, flagged, history, call)
         == TrailOfAll(ExecuteFor(w, site, depth, flagged, history, call).spawned)
    decreases Levels(w, depth), 2
  {
    hide RunDelegate, RunDelegateLines, TrailOf;
    if call.tool == "delegate" {
      RunDelegateEmits(w, site + [|history|], depth, flagged, call);
    }
  }

  lemma RunDelegateEmits(w: World, site: Site, depth: nat, flagged: bool, call: ToolCall)
    ensures RunDelegateLines(w, site, depth, flagged, call)
        == TrailOfAll(RunDelegate(w, site, depth, flagged, call).spawned)
    decreases Levels(w, depth), 1, 1
  {
    hide Delegate, DelegateLines, Authorized, TrailOf;
    var target, task := StringArg(call, "agent"), StringArg(call, "task");
    if depth < w.maxDepth && target != "" && task != "" && target != "lead" && target != "generalist" {
      var profile := w.resolve(target);
      var authorize := Authorized(Names(profile.tools), w.policyAt(site), profile.id, flagged);
      DelegateEmits(w, site, depth, flagged, target, task, authorize);
    }
  }

  /** Whatever a delegation does, and whether it is refused, fails or finishes: the lines that it and
      everything below it append are the trail of the sub-agent that it leaves behind. */
  lemma DelegateEmits(w: World, site: Site, depth: nat, flagged: bool, profileId: string, task: string,
                      authorize: seq<string>)
    ensures DelegateLines(w, site, depth, flagged, profileId, task, authorize)
         == TrailOfAll(Delegate(w, site, depth, flagged, profileId, task, authorize).spawned)
    decreases Levels(w, depth), if depth < w.maxDepth then 1 else 3, 0
  {
    hide LoopFrom, LoopLines, ExecuteFor, ExecuteLines, Approver, FirstUses, StartLine, EndLine, TurnEntry;
    if w.configured && task != "" && !w.cancelled(site) {
      var profile := w.resolve(profileId);
      var cfg := LoopFor(w, site, depth, flagged, profile, authorize);
      var emits := (h: seq<Message>, c: ToolCall) => ExecuteLines(w, site, depth + 1, flagged, h, c);
      forall h, c ensures emits(h, c) == TrailOfAll(cfg.execute(h, c).spawned) {
        ExecuteEmits(w, site, depth + 1, flagged, h, c);
      }
      var st := OpeningState(cfg.wording, w.systemPrompt(profile), TaskText(w.notes(site), task));
      LoopEmits(cfg, emits, depth + 1, st, StepCap(cfg.maxSteps));
      var subs := Delegate(w, site, depth, flagged, profileId, task, authorize).spawned;
      OneTrail(subs);
    }
  }

  lemma OneTrail(subs: seq<SubAgent>)
    requires |subs| == 1
    ensures TrailOfAll(subs) == TrailOf(subs[0])
  {
    hide TrailOf;
    assert subs[1..] == [];
  }

  /** So StepProgress, reading what a delegation emitted, shows exactly the tree of that delegation. */
  lemma EmittedRebuildsTree(w: World, site: Site, depth: nat, flagged: bool, profileId: string, task: string,
                            authorize: seq<string>)
    ensures ReadAll(BLANK, 0, Lines(DelegateLines(w, site, depth, flagged, profileId, task, authorize)))
         == View(NodesOf(Delegate(w, site, depth, flagged, profileId, task, authorize).spawned, 0), [])
  {
    hide Delegate, DelegateLines, ReadAll, TrailOf, NodeOf;
    DelegateEmits(w, site, depth, flagged, profileId, task, authorize);
    TrailRebuildsTree(Delegate(w, site, depth, flagged, profileId, task, authorize).spawned);
  }

  /** How the reader shows a step that a sub-agent took: a rejected or failed call as an error with its text, a
      denied one as denied, and any other with its output; except that an output that spells "(denied)" looks
      denied, and a failure without a text looks like a success. */
  lemma StepShows(w: World, s: SubAgent, h: seq<Message>, resp: Response, reply: Message, act: Activity, key: nat)
    requires resp.toolCalls != [] && SubStep(w, s, h, resp, reply, act)
    ensures var call, el := resp.toolCalls[0], StepElement(key, act.step, s.depth);
      && el.tool == call.tool && el.args == call.args && el.depth == s.depth
      && match ValidateCall(w.resolve(s.requested).tools, call)
         case Some(e) => e != "" ==> el.kind == KErr && el.out == Clip(e, 600)
         case None =>
           if !Approver(s.authorized, w.preapproved, call) then el.kind == KDeny && el.out == ""
           else
             match SubResult(w, s, h, call)
             case Err(e) => if e != "" then el.kind == KErr && el.out == Clip(e, 600) else el.kind == KOk
             case Ok(out) => if out != "(denied)" then el.kind == KOk && el.out == Clip(out, 600) else el.kind == KDeny
  {
    hide RunDelegate, Approver, ValidateCall, Clip, Trim, InvalidText, ErroredText, DeniedText;
  }
}
