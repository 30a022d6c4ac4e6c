# Verified model of the agent runtime

A Dafny model of how OpenSecBench runs its agents, and proofs of what those runs keep. The core is the
runtime: the resumable `Session`, the run-to-completion `Loop`, the bounded tree of delegations and the
semaphore it shares, and the activity trail from which the user interface rebuilds that tree. Beside it
stand seven self-contained algorithms of the repository. `dafny verify dfyconfig.toml` checks the whole
project.

The model provider, tool execution, the human and the settings are functions of the conversation so far,
or of the place in the delegation tree. A conversation grows at every use, so such a function may answer
differently each time; nothing is assumed about it. A session's gate is a function of the proposed call, and
each send and each decision on a thread brings its own configuration. The approver of a delegation and the
policy are modelled as they are written. Objects that the source
updates in place (`Session`, `Loop`, the traffic list, the event reader, the walk callbacks) are classes
whose methods are proved to compute a specification function; the theorems are about those functions.

## How it is laid out

- `Llm`, `Text`, `Schema`: conversation types, string operations, argument checking.
- `Agent`: one turn and one whole call of `Session.Advance`, `Session.Resume` and `Loop.Run` as functions.
  `AgentMachines`: the same as classes with observers, proved equal to those functions.
- `SessionTheorems`, `LoopTheorems`, `Threads`, `Transparency`: what every run keeps, what every thread of
  runs keeps, and that pausing changes nothing. `Transcripts`: every run read off the conversation it left.
- `ToolIds`: how results are linked to calls again before a conversation goes to a native provider.
- `Policy`, `Delegation`, `DelegationTheorems`: the approval policy, the delegation tree, and its bounds.
  `Reports`: what a delegation returns, and what its sub-agent did.
- `Semaphore`: the concurrent view of delegation. `Schedules`: every delegation tree is one of its schedules.
- `Trail`, `Emission`: the trail of a delegation and its reader, and the lines that a delegation appends.
- `CodeView`, `ExchangeActions`, `ProxyTab`, `EventStream`, `Action`, `GraphLayout`, `CodeTools`: the
  stand-alone algorithms.

## What turned out otherwise

Some statements that the code's comments suggest do not hold of the code. The code is modelled as it is,
and the exact condition is proved.

- *The slots never run out for good.* With the default limits (four slots, depth three) two root
  delegations can hold all slots while every holder waits for another. It can happen exactly when
  R * (D - 1) >= cap: `Semaphore.DeadlocksIff`, `Semaphore.DefaultLimits`.
- *Without a human's approval nothing that the policy gates runs in a delegation* (delegate.go:215-218). The
  synchronous approver lets through whatever it does not count as sensitive, so a rule that tightens a read
  has no effect there: `Policy.BoundaryWithholdsIff`, `Policy.TightenedReadStillRuns`,
  `DelegationTheorems.FirstCallRunsIffAccepted`.
- *Authorized tools run without further prompting inside the sub-agent* (delegate.go:94). A `web_fetch` does
  not: its source alone decides, so even under an approved delegation of the whole toolset every fetch is
  from a preapproved source: `Policy.ListRunsUnaskedIff`, `DelegationTheorems.FetchesArePreapproved`.
- *An approval scopes to exactly one call* (session.go:14-15), *and nested delegations count as unattended*
  (delegate.go:216-217). The first is true of the calls that a thread runs (`Threads.ThreadsAreSafe`). But
  the flag travels in the context, so every delegation below an approved one counts as approved:
  `DelegationTheorems.ApprovalReachesEveryLevel`, with a run in
  `DelegationTheorems.NestedDelegationCountsAsApproved`.
- *A trail is streamed live.* A delegation that is still open shows nothing at all:
  `Trail.RunningDelegationIsInvisible`.
- *A denied step is one that was denied* (planrunner.go:60). A tool whose output is `(denied)` is shown as
  denied too, and one that fails without a text as a success: `Emission.StepShows`.
- *Only the newest 300 can survive the merge, so the buffer may be cut at 400* (ProxyTab.tsx:148). It may
  exactly when the 400 kept events name 300 exchanges or all that were dropped:
  `ProxyTab.DroppingIsHarmlessIff`.
- *Only binary and invalid files are skipped by grep* (codetools.go:288). A well-formed UTF-8 file is skipped
  too when its first 1024 bytes end inside a character: `CodeTools.Utf8SourceIsScannedIff`.
- *A result's id equals its call's* (native.go:59-60). A decision loses the id (service.go:848), and the id
  is restored from the last call of the last turn that proposed one. That is another call where a turn has
  several, and where the user sent another message before deciding, even with one call a turn.
  `ToolIds.RelinkedIff` gives the exact condition, wherever the result stands;
  `ToolIds.PutOffDecisionIsMislinked` is a conversation that fails.
- *Render does not depend on map order.* It does not for a template of brace-free literals and tokens whose
  fields hold no braces (`Action.RenderIsSimultaneous`). For any text with placeholders of one key, whatever
  stands around them, it does not exactly when the filled text holds no placeholder of another key that
  stands for something else: `Action.OneKeyIff`. It fails for a title that spells a token
  (`Action.OrderMattersWithBraces`) and for `{{subject.{{subject.title}}}}` with the title `id`
  (`Action.OrderMattersWhenNested`).
- *A command is copy-pasteable for every exchange* (exchangeActions.ts:28). The method is not quoted, so
  this holds exactly for methods that need no quotes, neither for the tokenizer nor against the expansion
  of tildes and file name patterns: `ExchangeActions.RoundTripsIff`.
- *Each highlighted line is independently valid* (CodeView.tsx:77-79). It is exactly when no line break cuts
  a tag, except one that nothing completes where nothing is open: `CodeView.SplitKeepsSpans`.

## Model

| member | source | states |
|---|---|---|
| Schema.ValidateArgs | pkg/agent/agent.go:39-95 | accepts exactly the arguments that satisfy every parameter's presence, type and enum; else reports the first parameter that is not satisfied |
| Schema.ValidateCall | pkg/agent/agent.go:98-105 | accepts a call exactly when the first tool of its name accepts the arguments; an unknown name is accepted |
| Schema.TypesByValue | pkg/agent/agent.go:55-95 | told by the value: what each kind of JSON value may stand for |
| AgentMachines.Session.Advance | pkg/agent/session.go:68-135 | the imperative run, with every message streamed, audit written and call executed, is the function that the theorems are about |
| AgentMachines.Session.Resume | pkg/agent/session.go:138-149 | the same for a resumed run, with the approval flag on the decided call only |
| AgentMachines.Session.Execute | pkg/agent/session.go:152-164 | one execution leaves one audit, one streamed result turn and the same turn at the end of the conversation |
| AgentMachines.Loop.Run | pkg/agent/agent.go:149-232 | the imperative loop, with its audits, activity callbacks and executions, is the function that the theorems are about |
| SessionTheorems.AdvanceAppends | pkg/agent/session.go:89-134 | the input is a prefix of the output and the appended suffix is exactly what OnMessage received, in order |
| SessionTheorems.AdvanceVerdict | pkg/agent/session.go:52-60 | without an error exactly one of Done and Pending holds; with one, neither |
| SessionTheorems.AdvanceMeters | pkg/agent/session.go:76-88 | at most the step cap of completions, and the token counts are the exact sums of the responses |
| SessionTheorems.AdvanceBudget | pkg/agent/session.go:93-98 | with a positive budget the total before every completion is strictly below it, and the budget audit is written once exactly when the final total reaches it |
| SessionTheorems.AdvanceAudits | pkg/agent/session.go:106-124 | proposed calls are invalid, executed or errored, one each, plus the pending one |
| SessionTheorems.AdvanceExecutions | pkg/agent/session.go:109-124 | every call run inside an Advance is well formed, ungated and unflagged; a pending call is well formed and gated |
| SessionTheorems.AdvanceShape | pkg/agent/session.go:76-134 | assistant turns alternate with one result turn that bears the first call's id, up to an answer, a pending call, a budget stop, the stop notice or a failure, as the outcome reports; it is a budget stop exactly when the tokens reach a positive budget |
| SessionTheorems.OverBudgetAnswers | pkg/agent/session.go:93-98 | a run whose tokens reach the budget answers with the budget notice, whatever its last response says |
| SessionTheorems.ResumeAppends | pkg/agent/session.go:138-163 | Resume only appends, and what it adds first answers the call it was given |
| Transcripts.AdvanceIsExplained | pkg/agent/session.go:76-134 | every provider call is shown exactly the conversation before it; every turn, audit and execution is what provider, schema, gate and tool gave there; and the run ends as its last response says, in the order budget, answer, gate |
| Transcripts.ResumeExplained | pkg/agent/session.go:138-163 | the first turn is the denial or what the tool gave for the stored conversation with the flag set, and the rest is an Advance from there |
| Threads.ApplyAuthorized | pkg/agent/session.go:14-23 | one send or decision, under its own configuration, keeps: only calls that were well formed when proposed run, flagged exactly if gated then, and the flagged ones are the approved ones in order |
| Threads.ApplyConserved | pkg/agent/session.go:106-163 | one send or decision keeps the audit balance, with open approvals as the remainder |
| Threads.ApplyWaiting | pkg/analyst/service.go:861-905 | a paused thread waits for the first call of its last turn |
| Threads.SendContinues | pkg/analyst/service.go:764-818 | a send shows the model the whole conversation with the new message, and appends what the run produces, or after an error nothing more |
| Threads.DecideContinues | pkg/analyst/service.go:820-857 | a decision takes the chosen call and no other off the list; its answer for the conversation so far follows that conversation and is shown to the model |
| Threads.ThreadsAreSafe | pkg/analyst/service.go:764-857 | all three over every sequence of sends and decisions on a new thread, decisions in any order and each once, with settings that change from one to the next |
| ToolIds.NormalizeToolIds | pkg/llm/native.go:63-86 | the two nested loops compute the function below |
| ToolIds.OnlyIdsChange | pkg/llm/native.go:58-62 | only missing ids are filled in, present ones are preserved, and every call has one afterwards |
| ToolIds.TurnGetsIds | pkg/llm/native.go:70-80 | the calls of a turn that have no id get the numbers after those made up before the turn |
| ToolIds.ResultGetsLast | pkg/llm/native.go:67-83 | a result without an id gets that of the last call of the last proposing turn before it, however far back, and one with an id keeps it |
| ToolIds.RelinkedIff | pkg/llm/native.go:75-83 | a result of turn i at any later place names that turn's first call afterwards exactly when it did before, or when that call and the last call of the last proposing turn before the result get one id, told from the given ids and their numbers |
| ToolIds.SingleCallsRelink | pkg/analyst/service.go:846-848 | with one call a turn, and ids that differ or are absent, a decided call's result is linked to it exactly when no later turn proposed a call before the decision |
| ToolIds.SeveralCallsMislink | pkg/llm/native.go:78 | with several calls of different ids in the turn a decided first call is linked to another one |
| ToolIds.PutOffDecisionIsMislinked | pkg/analyst/service.go:764-848 | a conversation with one call a turn in which a decision is put off and its result is linked to the later call |
| LoopTheorems.LoopConserves | pkg/agent/agent.go:165-231 | without an error proposed calls, settlements, recorded steps and activity callbacks are equally many; an error leaves at most one call open |
| LoopTheorems.LoopTells | pkg/agent/agent.go:172-231 | completions and tokens are counted exactly, and the transcript is the opening plus, for each step, its assistant turn and its one result turn, then the answer unless stopped |
| LoopTheorems.LoopExecutes | pkg/agent/agent.go:191-215 | only well-formed calls that the approver accepted are executed |
| Transcripts.RunExplained | pkg/agent/agent.go:149-231 | the opening turns; every step with its approval, result, error and commentary, and the turn that answers it, is what schema, approver and tool gave for the conversation before it; and how the run ends, failed ones included |
| Transparency.TurnsMatch | pkg/agent/session.go:76-125 | one turn of Session, with the decision if it pauses, is one turn of Loop |
| Transparency.KeepStep | pkg/agent/agent.go:172-226 | from equal conversations the two machines keep step to the end |
| Transparency.PausingIsTransparent | pkg/agent/session.go:25-28 | without a token budget, resuming at each pause gives the Loop's answer, messages, token counts, provider calls, audits and executed calls, and fails where it fails; a Loop cut off at its cap has done what the drive did first |
| Policy.Decide | pkg/analyst/policy.go:117-143 | the decision is that of the first rule for the profile, else of the first for any profile, else approval for the ten listed tools unless the envelope trusts them |
| Policy.DelegateAuthorization | pkg/analyst/delegate.go:219-228 | the loop keeps the profile's tools that are approved or not gated, in order |
| Policy.DelegateGatedTools | pkg/analyst/delegate.go:233-241 | the loop keeps the gated ones |
| Policy.ListsPartition | pkg/analyst/delegate.go:211-241 | without approval the two lists partition the profile's tools, as multisets and by membership |
| Policy.ApprovalRestoresAll | pkg/analyst/delegate.go:222-226 | with approval the authorized list is the whole toolset |
| Policy.ListRunsUnaskedIff | pkg/analyst/analyst.go:349-361 | every call of an authorized list runs unasked exactly when the list has no fetch or every source is preapproved |
| Policy.GatedCallPassesIff | pkg/analyst/analyst.go:344-362 | a gated call passes an unapproved boundary exactly when its tool is not sensitive or it is a preapproved fetch |
| Policy.BoundaryWithholdsIff | pkg/analyst/delegate.go:215-218 | the boundary withholds every gated call exactly when the policy gates sensitive tools only and no gated fetch is preapproved |
| Policy.BoundaryMatchesGateIff | pkg/analyst/service.go:473-479 | an unapproved boundary withholds every call on which an interactive session would pause, exactly under a policy that gates sensitive tools only |
| Policy.TightenedReadStillRuns | pkg/analyst/policy.go:122-141 | a concrete policy and call for which it does not |
| Delegation.ToolsUsed | pkg/analyst/delegate.go:172-179 | the loop lists the distinct tools at their first use |
| Delegation.FirstUsesFacts | pkg/analyst/delegate.go:172-179 | that list has every used tool once and nothing else, and is extended only at its end as steps are added |
| DelegationTheorems.DelegateSound | pkg/analyst/delegate.go:97-184 | every sub-agent of a delegation sits at its depth, stays in its step cap, sees the flag of the root, ran only what its approver accepts, and delegated only if authorized to |
| DelegationTheorems.RunDelegateSound | pkg/analyst/delegate.go:246-266 | the same for the tool, with the authorization it narrows; nothing starts at the depth cap |
| Reports.DelegateReports | pkg/analyst/delegate.go:97-184 | the result has the recorded run's answer, stop flag, token counts, number of steps and tools at first use, or its error; without a sub-agent, the reason |
| Reports.RunDelegateRefuses | pkg/analyst/delegate.go:247-258 | the refusals, their order and their texts |
| Reports.RunDelegateReports | pkg/analyst/delegate.go:259-265 | otherwise the report of exactly that result, or its error |
| Reports.DelegateRan | pkg/analyst/delegate.go:131-152 | the sub-agent's whole conversation, steps and outcome from its place in the tree: its provider's responses, and each accepted step's result or error as the tool or the nested delegation gave it |
| DelegationTheorems.RootDelegationIsBounded | pkg/analyst/delegate.go:24-37 | a root delegation makes at most S + S^2 + ... + S^D completions in all |
| DelegationTheorems.NoneTooDeep | pkg/analyst/delegate.go:255-258 | no sub-agent of a root delegation runs deeper than the cap |
| DelegationTheorems.SensitiveCallsAreAuthorized | pkg/analyst/delegate.go:93-96 | at any depth a fetch that ran was from a preapproved source, and any other sensitive call that ran was on the list authorized at its own boundary |
| DelegationTheorems.FetchesArePreapproved | pkg/analyst/analyst.go:350-354 | below any delegate call, approved or not and at every depth, every executed fetch is from a preapproved source |
| DelegationTheorems.UnapprovedDelegationRunsNothingGated | pkg/analyst/delegate.go:211-218 | below an unapproved delegate call, at every depth, a gated call ran only if the approver lets it through unasked |
| DelegationTheorems.PlainPoliciesHoldEverywhere | pkg/analyst/delegate.go:215-218 | no call runs at any depth on which its agent's session would pause, where its policy gates sensitive tools only |
| DelegationTheorems.RulelessPoliciesHoldEverywhere | pkg/analyst/policy.go:91-92 | so under the default policy and every policy without rules |
| DelegationTheorems.FirstCallRunsIffAccepted | pkg/agent/agent.go:199-215 | the first well-formed call of a sub-agent runs exactly when the approver accepts it, and what it starts is recorded below it |
| DelegationTheorems.ApprovalReachesEveryLevel | pkg/analyst/delegate.go:259-261 | below an approved delegation every nested one is flagged and hands over the whole toolset |
| DelegationTheorems.NestedDelegationCountsAsApproved | pkg/analyst/delegate.go:216-218 | a run in which only the outer delegation was approved and the policy gates delegate, yet a nested one is flagged and holds delegate |
| DelegationTheorems.UnapprovedTreeIsFlat | pkg/analyst/delegate.go:216-218 | where policies gate delegate, an unapproved delegation delegates no further |
| Semaphore.StepKeeps | pkg/analyst/delegate.go:104-110 | every step of any chain keeps slots in use equal to live sub-agents, within the semaphore and the depth cap |
| Semaphore.SlotsAreLiveAgents | pkg/analyst/delegate.go:15-22 | the same in every reachable state |
| Semaphore.SchedulesTerminate | pkg/analyst/delegate.go:34-37 | every schedule is finite, with a bound from the limits and the number of roots |
| Semaphore.NeverStuck | pkg/analyst/delegate.go:104-110 | if R * (D - 1) < cap no unfinished state is stuck |
| Semaphore.RunsComplete | pkg/analyst/delegate.go:104-110 | a run that cannot go on has then finished every chain and returned every slot |
| Semaphore.Jam | pkg/analyst/delegate.go:104-110 | otherwise a schedule leads to a state where every slot holder waits |
| Semaphore.DeadlocksIff | pkg/analyst/delegate.go:255-261 | a stuck state is reachable exactly when R * (D - 1) >= cap |
| Semaphore.DefaultLimits | pkg/analyst/delegate.go:20-37 | with the defaults, exactly when there are two or more roots |
| Semaphore.CancellingDrains | pkg/analyst/delegate.go:105-110 | from every reachable state, cancelling those that wait and ending those that run finishes every chain and returns every slot |
| Schedules.RootDelegationIsASchedule | pkg/analyst/delegate.go:97-152 | what a root delegation does is a complete schedule of the state machine: each step enabled, every slot returned |
| Trail.StepProgress | frontend/src/ActivityTab.tsx:335-412 | the one-pass reader with its explicit stack computes the fold that the theorems are about |
| Trail.ReadsOne | frontend/src/ActivityTab.tsx:353-388 | reading one delegation's lines adds where the reader stands a node with its profile, depth, duration, number of steps and shortened answer, and nothing else |
| Trail.TrailRebuildsTree | frontend/src/ActivityTab.tsx:342-411 | from the trail of any delegations, failed ones included, the reader rebuilds exactly their trees, every step once, in order, under its own sub-agent, with its kind, tool, commentary, arguments and output |
| Emission.DelegateEmits | pkg/analyst/delegate.go:119-162 | the lines that a delegation and everything below it append, refused, failed or finished, are the trail of the record it leaves |
| Emission.EmittedRebuildsTree | pkg/analyst/delegate.go:116-128 | the reader shows from the appended lines exactly the tree of that delegation, told from the record and not from the lines |
| Emission.StepShows | pkg/analyst/planrunner.go:50-70 | a rejected or failed step is shown as an error with its text, a denied one as denied, any other with its output, with the two exceptions named |
| Trail.TrailNested | pkg/analyst/delegate.go:155-162 | a delegation's trail is well nested and closes only with its last line |
| Trail.RunningDelegationIsInvisible | frontend/src/ActivityTab.tsx:404-411 | of any strict prefix of a delegation's trail the reader shows nothing |
| CodeView.SplitHighlighted | frontend/src/CodeView.tsx:80-94 | the scan with its stack shared across lines computes the function below |
| CodeView.FirstIs | frontend/src/CodeView.tsx:83 | the next token is what the tag expression matches there, or else one character |
| CodeView.LineStandsAlone | frontend/src/CodeView.tsx:85-92 | a wrapped line keeps its characters' spans, leaves none open, and is balanced exactly when no close in it underflows |
| CodeView.KeptLeavesNone | frontend/src/CodeView.tsx:91-92 | a line that ends in a cut tag leaves spans open unless none was open: the first closing tag put behind it completes the cut one |
| CodeView.ShownJoined | frontend/src/CodeView.tsx:81-87 | the whole text shows at most the characters that its lines show apart, and as many only if no later line completes a cut tag |
| CodeView.SplitKeepsSpans | frontend/src/CodeView.tsx:77-79 | for every text: each line keeps its text and leaves nothing open, and every character keeps exactly its spans, if and only if no line break cuts a tag, except one that nothing completes where nothing is open; then all lines are balanced exactly when no closing tag underflows |
| CodeView.CutTagIsNoTag | frontend/src/CodeView.tsx:81-87 | a tag cut by a line break opens a span in the text and none in its line, and every such text breaks the law |
| ProxyTab.TrafficList.OnExchange | frontend/src/ProxyTab.tsx:145-149 | an event joins the buffer, which keeps its newest 400 |
| ProxyTab.TrafficList.MergeInto | frontend/src/ProxyTab.tsx:131-142 | the two loops keep the newest version of each id, newest first, then the old list, cut at 300 |
| ProxyTab.MergeIsMoving | frontend/src/ProxyTab.tsx:131-142 | that merge is moving each event to the front in turn |
| ProxyTab.TakeMoveAll | frontend/src/ProxyTab.tsx:141 | cutting the list before later moves does not change its first entries |
| ProxyTab.BatchingIsInvisible | frontend/src/ProxyTab.tsx:119-143 | with buffers that fit, any placement of flushes gives the first 300 entries of the list with each event moved to the front, no id twice |
| ProxyTab.DroppingIsHarmlessIff | frontend/src/ProxyTab.tsx:148-149 | dropping old events is harmless for every list exactly when the kept ones name 300 exchanges or all the dropped ones |
| ProxyTab.OldestIsLost | frontend/src/ProxyTab.tsx:145-149 | 401 events after which one exchange is missing from a list with room for it |
| ExchangeActions.ToCurl | frontend/src/exchangeActions.ts:29-37 | the loop writes the parts that the round trip is about |
| Text.TrimTakesEnds | frontend/src/exchangeActions.ts:32 | trimming takes away the space at both ends and nothing else |
| Text.TrimIsUnique | frontend/src/exchangeActions.ts:32 | no other text is what that describes |
| ExchangeActions.ReadsQuoted | frontend/src/exchangeActions.ts:39-41 | any text comes back from behind shell quotes as it was |
| ExchangeActions.CurlRoundTrips | frontend/src/exchangeActions.ts:28-37 | tokenizing the command gives curl, -i, -X, the method, the url, one -H pair per non-empty trimmed header line and --data with the body if there is one |
| ExchangeActions.RoundTripsIff | frontend/src/exchangeActions.ts:28-37 | the round trip holds for every url, headers and body exactly when the method needs no quotes: not empty, no quote, blank, operator, substitution or pattern character, no comment or tilde at its start |
| ExchangeActions.LettersArePlain | frontend/src/exchangeActions.ts:30 | a method made of letters needs no quotes |
| ExchangeActions.UnquotedMethodBreaks | frontend/src/exchangeActions.ts:30 | a method whose first character outside the plain ones is an operator, a substitution, a pattern character or a double quote does not fix the words of one simple command |
| EventStream.EventReader.Feed | frontend/src/api.ts:1386-1393 | the loop dispatches the frames of buffer plus chunk and keeps the leftover |
| EventStream.FramesConcat | frontend/src/api.ts:1388-1393 | the frames of two texts are those of the first, then those of its leftover with the second |
| EventStream.ChunkingIsInvisible | frontend/src/api.ts:1384-1394 | frames and leftover depend only on the concatenated text, and the leftover holds no separator |
| EventStream.SplitIsGreedy | frontend/src/api.ts:1390-1392 | the text is rebuilt from frames and leftover, each cut being at the first separator |
| EventStream.GreedySplitIsUnique | frontend/src/api.ts:1390-1392 | and there is no other such split |
| Action.Render | pkg/action/action.go:192-198 | the loop over the map, in any order, is one pass per key |
| Action.EachFieldRenders | pkg/action/action.go:163-175 | each of the nine placeholders gives its own field |
| Action.PassFills | pkg/action/action.go:195 | one pass replaces exactly the tokens of its key |
| Action.RenderIsSimultaneous | pkg/action/action.go:191-198 | for brace-free literals, with no braces in the fields that the template uses, in every order, one simultaneous substitution |
| Action.OneKeyIff | pkg/action/action.go:192-198 | for every text with placeholders of one key at most, all orders agree, and give the value in every place, exactly when the filled text holds no placeholder of another key that stands for something else |
| Action.UnchangedIff | pkg/action/action.go:195 | a pass leaves a text as it is exactly when it does not contain the placeholder or the placeholder stands for itself |
| Action.OrderMattersWithBraces | pkg/action/action.go:194-196 | for every subject whose title spells the token of its id, one order gives the id and another the title |
| Action.OrderMattersWhenNested | pkg/action/action.go:194-196 | for every subject with the title `id`, a token inside a token gives the id in one order and its token in another |
| Action.ValidateScriptSafety | pkg/action/action.go:32-47 | rejects exactly the shell scripts with a template in an argument |
| Action.RefusedIff | pkg/action/action.go:20-45 | the refused scripts, by the listed interpreters |
| Action.PlanScript | pkg/action/action.go:203-212 | each argument is rendered, each in its own order |
| Action.AcceptedShellScriptIsUntouched | pkg/action/action.go:29-31 | an accepted shell script's planned command is the stored one, for every subject and order |
| GraphLayout.Explore | frontend/src/GraphTab.tsx:44-67 | the pass ends on every graph, reaches exactly the nodes with a walk from a root, gives each the length of such a walk, and puts an edge's end below some walk to its start; the depths are those of expanding the nodes first in, first out |
| GraphLayout.QueueOrderIsUnique | frontend/src/GraphTab.tsx:54-67 | there is only one first-in, first-out order, so only one outcome |
| GraphLayout.Layout | frontend/src/GraphTab.tsx:43-79 | every node is placed once, in the column of its depth, below the earlier nodes of that depth |
| GraphLayout.NoOverlap | frontend/src/GraphTab.tsx:69-75 | no two rectangles overlap |
| GraphLayout.ForestDepthsExact | frontend/src/GraphTab.tsx:42-67 | on a forest a node's depth is the length of the one walk that reaches it |
| CodeTools.Grep.Visit | pkg/analyst/codetools.go:203-234 | a stopping visit leaves the first `limit` matches of the unpruned, filtered listing, and stops exactly when there are more |
| CodeTools.GrepCode | pkg/analyst/codetools.go:175-241 | the whole tool, with its errors and its default limit |
| CodeTools.LineMatchesAre | pkg/analyst/codetools.go:225-233 | a file's matches are exactly its hit lines, each once, numbered from 1 and in order |
| CodeTools.ListingIsTheTree | pkg/analyst/codetools.go:203-213 | the listing has every file of the tree once, with its path and folders, in the order of the children at every level |
| CodeTools.PruningIsExact | pkg/analyst/codetools.go:207-211 | skipping a folder loses nothing that the filtered listing would report |
| CodeTools.FindFiles | pkg/analyst/codetools.go:244-286 | the first `limit` names in walking order, sorted, and truncated exactly when there are more |
| CodeTools.CutsBetweenCharacters | pkg/analyst/codetools.go:293-296 | a prefix of well-formed UTF-8 is well formed exactly when the cut is between characters |
| CodeTools.ValidIffEncoded | pkg/analyst/codetools.go:296 | what the UTF-8 test accepts is the encoding of code points |
| CodeTools.EncodedIsValid | pkg/analyst/codetools.go:296 | and every such encoding is accepted |
| CodeTools.Utf8SourceIsScannedIff | pkg/analyst/codetools.go:288-298 | a NUL-free UTF-8 file is scanned exactly when byte 1024 does not continue a character |
| CodeTools.CutCharacterIsSkipped | pkg/analyst/codetools.go:293-296 | a UTF-8 file of 1025 bytes that is skipped |
| CodeTools.WindowIsTheLinesIff | pkg/analyst/codetools.go:108-123 | the window is the asked lines, or a panic exactly when start plus limit leaves the integer range |
| CodeTools.HugeLimitPanics | pkg/analyst/codetools.go:119-122 | a file of 1024 line breaks and a limit for which the slice panics |
| CodeTools.PagesRebuildTheFile | pkg/analyst/codetools.go:108-123 | reading a file window by window gives back the file |

## Left out

- Threads.ThreadsAreSafe: assumes of each configuration that its gate does not look at a call's id, as the one at pkg/analyst/service.go:473-479 does not; after an error the stored user message of a send stays and the rest of the failed call's messages are not stored.
- Transparency.PausingIsTransparent: needs the budget switched off, since Loop has none; after a Loop's cap it says only what the drive had done so far, since each resume starts a new cap.
- ProxyTab.BatchingIsInvisible: for buffers of at most 400 events; DroppingIsHarmlessIff says when larger ones do no harm. Filters, timers and the reload of the list are not modelled.
- GraphLayout.Explore: does not claim the longest path that a comment mentions; a depth raised after its node was expanded is not passed on. Ids that name properties of the JavaScript object prototype are treated as ordinary ids.
- Semaphore.SchedulesTerminate: steps are atomic; a context that ends is modelled only where a chain waits for its slot, other cancellations being errors of the provider or of a tool.
- Schedules.RootDelegationIsASchedule: one root alone; several roots interleave such schedules, which Semaphore covers.
- CodeTools.WindowIsTheLinesIff: the cut at 64 KiB that follows the window is not modelled, nor are path resolution and confinement, which live in a package that is not part of this model.
- Action.OneKeyIff: for texts that hold placeholders of one key; for several keys the law is proved where the fields used hold no braces, and not characterised otherwise.
- ExchangeActions.RoundTripsIff: for methods that need quotes it says that some exchange fails, not that every one does.
- Policy.ListRunsUnaskedIff: which sources are preapproved is a parameter.
- Emission.DelegateEmits: for a run whose context carries an appender, as a plan step's does; without one nothing is appended and at most the outermost steps reach a progress sink.
- CodeTools.GrepCode: globs, the compiled expression and the trimming of a line are functions of the query; a link is a file.
- Action.ValidateScriptSafety: lower-casing is that of ASCII letters. The environment variables and the other fields of a run specification are left out.
- The fixed texts (persona, stop and budget notices) are parameters, so the theorems hold for any wording; Go's %q is quotation marks around the text.
- Token counts and lengths are unbounded integers, except in the line window.
- JSON encoding and decoding of trail lines and arguments (a line carries its arguments whole), time formatting, and the closing of an appender when its plan step ends.
- The parsing of one frame into event and data, and UTF-8 decoding of network chunks.
- Streaming deltas, usage recording, target and provider selection, clearance and egress checks, the stores.
- React rendering, hooks, polling and styling; command-line and server start-up.
