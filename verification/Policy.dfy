/** The approval policy of pkg/analyst/policy.go, and how pkg/analyst/delegate.go narrows a
    specialist's toolset by it. */
module Policy {
  import opened Llm

  datatype Consequence = Reversible | External | Execute | Destructive

  datatype Verdict = Auto | Approve | Unknown(text: string)

  datatype Autonomy = Cautious | Trusted | Named(text: string)

  /** An override for one tool; an empty profile means any profile. */
  datatype Rule = Rule(tool: string, profile: string, decision: Verdict)

  datatype Policy = Policy(rules: seq<Rule>, autonomy: Autonomy)

  /** The policy without rules, at the default envelope. */
  function DefaultPolicy(): Policy { Policy([], Cautious) }

  /** A tool's class; tools that are not listed are reversible. */
  function ConsequenceOf(tool: string): Consequence {
    if tool in ["send_request", "web_fetch"] then External
    else if tool in ["run_code", "run_capability", "run_playbook", "delegate", "create_asset", "update_asset_status",
                     "tag_asset", "create_link"] then Execute
    else Reversible
  }

  predicate Sensitive(tool: string) { ConsequenceOf(tool) != Reversible }

  predicate Confirms(a: Autonomy, c: Consequence) {
    match c
    case Reversible => false
    case Destructive => true
    case _ => a != Trusted
  }

  predicate Binding(r: Rule, tool: string, profile: string) {
    r.tool == tool && !r.decision.Unknown? && r.profile == profile
  }

  /** The first binding rule for this tool and exactly this profile scope. */
  function FirstRule(rules: seq<Rule>, tool: string, profile: string): (v: Option<Verdict>)
    ensures v.None? <==> forall r <- rules :: !Binding(r, tool, profile)
    ensures v.Some? ==> exists i :: 0 <= i < |rules| && Binding(rules[i], tool, profile) && v.value == rules[i].decision
                                 && forall j :: 0 <= j < i ==> !Binding(rules[j], tool, profile)
  {
    if rules == [] then None
    else if Binding(rules[0], tool, profile) then Some(rules[0].decision)
    else
      var rest := FirstRule(rules[1..], tool, profile);
      assert rules == [rules[0]] + rules[1..];
      rest
  }

  lemma {:induction false} FirstRuleSnoc(rules: seq<Rule>, r: Rule, tool: string, profile: string)
    ensures FirstRule(rules + [r], tool, profile) ==
            match FirstRule(rules, tool, profile)
            case Some(v) => Some(v)
            case None => if Binding(r, tool, profile) then Some(r.decision) else None
  {
    if rules == [] {
      assert rules + [r] == [r];
    } else {
      FirstRuleSnoc(rules[1..], r, tool, profile);
      assert (rules + [r])[1..] == rules[1..] + [r];
    }
  }

  lemma RuleScanned(rules: seq<Rule>, i: nat, tool: string, profile: string)
    requires i < |rules|
    ensures var before := FirstRule(rules[..i], tool, profile);
      FirstRule(rules[..i + 1], tool, profile) ==
        if before.Some? then before else if Binding(rules[i], tool, profile) then Some(rules[i].decision) else None
  {
    hide FirstRule;
    assert rules[..i + 1] == rules[..i] + [rules[i]];
    FirstRuleSnoc(rules[..i], rules[i], tool, profile);
  }

  /** What a call meets: the first rule for the acting profile, else the first rule for any profile,
      else the tool's consequence under the autonomy envelope. */
  function Ruling(p: Policy, tool: string, profile: string): Verdict {
    match FirstRule(p.rules, tool, profile)
    case Some(v) => v
    case None =>
      match FirstRule(p.rules, tool, "")
      case Some(v) => v
      case None => if Confirms(p.autonomy, ConsequenceOf(tool)) then Approve else Auto
  }

  predicate NeedsApproval(p: Policy, tool: string, profile: string) { Ruling(p, tool, profile) == Approve }

  /** Rule i is the first that speaks of this tool with a known decision, and names exactly this scope. */
  predicate Leads(rules: seq<Rule>, i: nat, tool: string, scope: string) {
    && i < |rules|
    && rules[i].tool == tool && rules[i].profile == scope && (rules[i].decision == Auto || rules[i].decision == Approve)
    && forall j :: 0 <= j < i ==>
         !(rules[j].tool == tool && rules[j].profile == scope
           && (rules[j].decision == Auto || rules[j].decision == Approve))
  }

  /** The most specific rule wins, and of two alike the first: a rule for the profile, else a rule for any
      profile, else approval for the tools above Reversible unless the envelope trusts them. */
  ghost predicate IsDecision(p: Policy, tool: string, profile: string, dec: Verdict) {
    && (forall i: nat :: Leads(p.rules, i, tool, profile) ==> dec == p.rules[i].decision)
    && ((forall i: nat :: !Leads(p.rules, i, tool, profile)) ==>
          && (forall i: nat :: Leads(p.rules, i, tool, "") ==> dec == p.rules[i].decision)
          && ((forall i: nat :: !Leads(p.rules, i, tool, "")) ==>
                dec == if p.autonomy != Trusted && tool in ["send_request", "web_fetch", "run_code", "run_capability",
                                                            "run_playbook", "delegate", "create_asset",
                                                            "update_asset_status", "tag_asset", "create_link"]
                       then Approve else Auto))
  }

  lemma FirstRuleLeads(rules: seq<Rule>, tool: string, scope: string)
    ensures FirstRule(rules, tool, scope).None? ==> forall i: nat :: !Leads(rules, i, tool, scope)
    ensures FirstRule(rules, tool, scope).Some? ==>
      exists i: nat :: Leads(rules, i, tool, scope) && rules[i].decision == FirstRule(rules, tool, scope).value
  {
    if FirstRule(rules, tool, scope).Some? {
      var i: nat :| i < |rules| && Binding(rules[i], tool, scope)
                    && FirstRule(rules, tool, scope).value == rules[i].decision
                    && forall j :: 0 <= j < i ==> !Binding(rules[j], tool, scope);
      forall j | 0 <= j < i
        ensures !(rules[j].tool == tool && rules[j].profile == scope
                  && (rules[j].decision == Auto || rules[j].decision == Approve))
      {
        assert !Binding(rules[j], tool, scope);
      }
      assert Leads(rules, i, tool, scope);
    } else {
      forall i: nat ensures !Leads(rules, i, tool, scope) {
        if i < |rules| { assert !Binding(rules[i], tool, scope); }
      }
    }
  }

  lemma OneLeads(rules: seq<Rule>, i: nat, j: nat, tool: string, scope: string)
    requires Leads(rules, i, tool, scope) && Leads(rules, j, tool, scope)
    ensures i == j
  {
  }

  lemma EnvelopeIs(p: Policy, tool: string)
    ensures Confirms(p.autonomy, ConsequenceOf(tool)) <==>
            p.autonomy != Trusted && tool in ["send_request", "web_fetch", "run_code", "run_capability", "run_playbook",
                                              "delegate", "create_asset", "update_asset_status", "tag_asset",
                                              "create_link"]
  {
  }

  lemma RulingIsDecision(p: Policy, tool: string, profile: string)
    ensures IsDecision(p, tool, profile, Ruling(p, tool, profile))
  {
    hide FirstRule, ConsequenceOf, Confirms;
    FirstRuleLeads(p.rules, tool, profile);
    FirstRuleLeads(p.rules, tool, "");
    EnvelopeIs(p, tool);
    hide Leads;
    forall scope, i: nat, j: nat | Leads(p.rules, i, tool, scope) && Leads(p.rules, j, tool, scope) ensures i == j {
      OneLeads(p.rules, i, j, tool, scope);
    }
  }

  /** Decide scans the rules once, keeping the most specific and earliest match. */
  method Decide(p: Policy, tool: string, profile: string) returns (dec: Verdict)
    ensures dec == Ruling(p, tool, profile)
    ensures IsDecision(p, tool, profile, dec)
  {
    hide IsDecision, Scanned, ConsequenceOf, Confirms;
    RulingIsDecision(p, tool, profile);
    dec := Auto;
    if Confirms(p.autonomy, ConsequenceOf(tool)) {
      dec := Approve;
    }
    ghost var base := dec;
    var best := -1;
    NothingScanned(p, tool, profile, base);
    for i := 0 to |p.rules|
      invariant Scanned(p.rules[..i], tool, profile, base, best, dec)
    {
      var r := p.rules[i];
      OneMoreRule(p.rules, i, tool, profile, base, best, dec);
      if r.tool == tool && !r.decision.Unknown? && (r.profile == "" || r.profile == profile) {
        var spec := if r.profile != "" then 1 else 0;
        if spec > best {
          best := spec;
          dec := r.decision;
        }
      }
    }
    assert p.rules[..|p.rules|] == p.rules;
    AllScanned(p, tool, profile, base, best, dec);
  }

  /** The rank of the best rule so far (1 for the profile's own, 0 for any profile, -1 for none), and the
      decision it gives. */
  predicate Scanned(rules: seq<Rule>, tool: string, profile: string, base: Verdict, best: int, dec: Verdict) {
    var own, any := FirstRule(rules, tool, profile), FirstRule(rules, tool, "");
    if profile != "" && own.Some? then best == 1 && dec == own.value
    else if any.Some? then best == 0 && dec == any.value
    else best == -1 && dec == base
  }

  lemma NothingScanned(p: Policy, tool: string, profile: string, base: Verdict)
    ensures Scanned(p.rules[..0], tool, profile, base, -1, base)
  {
  }

  lemma OneMoreRule(rules: seq<Rule>, i: nat, tool: string, profile: string, base: Verdict, best: int, dec: Verdict)
    requires i < |rules| && Scanned(rules[..i], tool, profile, base, best, dec)
    ensures var r := rules[i];
      var spec := if r.profile != "" then 1 else 0;
      var better := r.tool == tool && !r.decision.Unknown? && (r.profile == "" || r.profile == profile) && spec > best;
      Scanned(rules[..i + 1], tool, profile, base, if better then spec else best, if better then r.decision else dec)
  {
    hide FirstRule;
    RuleScanned(rules, i, tool, profile);
    RuleScanned(rules, i, tool, "");
  }

  lemma AllScanned(p: Policy, tool: string, profile: string, base: Verdict, best: int, dec: Verdict)
    requires Scanned(p.rules, tool, profile, base, best, dec)
    requires base == if Confirms(p.autonomy, ConsequenceOf(tool)) then Approve else Auto
    ensures dec == Ruling(p, tool, profile)
  {
    hide ConsequenceOf;
  }

  /** Without a rule that says so, no policy gates a reversible tool. */
  lemma GatedReversibleHasRule(p: Policy, tool: string, profile: string)
    requires NeedsApproval(p, tool, profile) && !Sensitive(tool)
    ensures exists r <- p.rules :: r.tool == tool && r.decision == Approve && (r.profile == profile || r.profile == "")
  {
    var scope := if FirstRule(p.rules, tool, profile).Some? then profile else "";
    var i :| 0 <= i < |p.rules| && Binding(p.rules[i], tool, scope) && p.rules[i].decision == Approve;
    assert p.rules[i] in p.rules;
  }

  // ----- Narrowing at the delegation boundary -----

  datatype Profile = Profile(id: string, tools: seq<Tool>)

  function Names(tools: seq<Tool>): (names: seq<string>)
    ensures |names| == |tools|
    ensures forall i :: 0 <= i < |names| ==> names[i] == tools[i].name
  {
    if tools == [] then [] else [tools[0].name] + Names(tools[1..])
  }

  /** The names that run without a prompt, and the names the policy gates, in profile order. */
  function Authorized(names: seq<string>, p: Policy, profile: string, humanApproved: bool): seq<string> {
    if names == [] then []
    else (if humanApproved || !NeedsApproval(p, names[0], profile) then [names[0]] else [])
         + Authorized(names[1..], p, profile, humanApproved)
  }

  function Gated(names: seq<string>, p: Policy, profile: string): seq<string> {
    if names == [] then []
    else (if NeedsApproval(p, names[0], profile) then [names[0]] else []) + Gated(names[1..], p, profile)
  }

  lemma {:induction false} AuthorizedSnoc(names: seq<string>, n: string, p: Policy, profile: string,
                                          humanApproved: bool)
    ensures Authorized(names + [n], p, profile, humanApproved)
         == Authorized(names, p, profile, humanApproved)
             + (if humanApproved || !NeedsApproval(p, n, profile) then [n] else [])
  {
    hide NeedsApproval;
    if names == [] {
      assert names + [n] == [n];
    } else {
      AuthorizedSnoc(names[1..], n, p, profile, humanApproved);
      assert (names + [n])[1..] == names[1..] + [n];
      assert (names + [n])[0] == names[0];
    }
  }

  lemma {:induction false} GatedSnoc(names: seq<string>, n: string, p: Policy, profile: string)
    ensures Gated(names + [n], p, profile)
        == Gated(names, p, profile) + (if NeedsApproval(p, n, profile) then [n] else [])
  {
    hide NeedsApproval;
    if names == [] {
      assert names + [n] == [n];
    } else {
      GatedSnoc(names[1..], n, p, profile);
      assert (names + [n])[1..] == names[1..] + [n];
      assert (names + [n])[0] == names[0];
    }
  }

  method DelegateAuthorization(profile: Profile, p: Policy, humanApproved: bool) returns (out: seq<string>)
    ensures out == Authorized(Names(profile.tools), p, profile.id, humanApproved)
  {
    hide NeedsApproval;
    var names := Names(profile.tools);
    out := [];
    for i := 0 to |names|
      invariant out == Authorized(names[..i], p, profile.id, humanApproved)
    {
      assert names[..i + 1] == names[..i] + [names[i]];
      AuthorizedSnoc(names[..i], names[i], p, profile.id, humanApproved);
      if humanApproved || NotGated(p, names[i], profile.id) {
        out := out + [names[i]];
      }
    }
    assert names[..|names|] == names;
  }

  method DelegateGatedTools(profile: Profile, p: Policy) returns (out: seq<string>)
    ensures out == Gated(Names(profile.tools), p, profile.id)
  {
    hide NeedsApproval;
    var names := Names(profile.tools);
    out := [];
    for i := 0 to |names|
      invariant out == Gated(names[..i], p, profile.id)
    {
      assert names[..i + 1] == names[..i] + [names[i]];
      GatedSnoc(names[..i], names[i], p, profile.id);
      if !NotGated(p, names[i], profile.id) {
        out := out + [names[i]];
      }
    }
    assert names[..|names|] == names;
  }

  predicate NotGated(p: Policy, tool: string, profile: string) { !NeedsApproval(p, tool, profile) }

  /** Without a human's approval the authorized and the gated list partition the profile's tools:
      each tool is in one of them, as often as the profile lists it, and in neither wrongly. */
  lemma {:induction false} ListsPartition(names: seq<string>, p: Policy, profile: string)
    ensures multiset(Authorized(names, p, profile, false)) + multiset(Gated(names, p, profile)) == multiset(names)
    ensures forall n :: n in Authorized(names, p, profile, false) <==> n in names && !NeedsApproval(p, n, profile)
    ensures forall n :: n in Gated(names, p, profile) <==> n in names && NeedsApproval(p, n, profile)
  {
    hide NeedsApproval;
    if names != [] {
      ListsPartition(names[1..], p, profile);
      assert names == [names[0]] + names[1..];
    }
  }

  lemma {:induction false} ApprovalRestoresAll(names: seq<string>, p: Policy, profile: string)
    ensures Authorized(names, p, profile, true) == names
  {
    hide NeedsApproval;
    if names != [] {
      ApprovalRestoresAll(names[1..], p, profile);
    }
  }

  // ----- The approver of a synchronous run -----

  function StringArg(call: ToolCall, name: string): string {
    if name in call.args && call.args[name].JString? then call.args[name].s else ""
  }

  predicate IsFetch(call: ToolCall) { call.tool == "web_fetch" }

  /** A fetch from a preapproved research source. */
  predicate PreapprovedFetch(preapproved: string -> bool, call: ToolCall) {
    IsFetch(call) && preapproved(StringArg(call, "url"))
  }

  /** A fetch is approved by its source alone, whether or not the list has it. Any other tool is
      approved when it is not sensitive or is on the list. */
  predicate Approver(allow: seq<string>, preapproved: string -> bool, call: ToolCall) {
    if IsFetch(call) then preapproved(StringArg(call, "url"))
    else if Sensitive(call.tool) then call.tool in allow
    else true
  }

  /** Authorizing a list lets all its tools run unasked exactly when it has no fetch, or every source
      is preapproved. */
  lemma ListRunsUnaskedIff(allow: seq<string>, preapproved: string -> bool)
    ensures (forall call: ToolCall | call.tool in allow :: Approver(allow, preapproved, call))
            <==> ("web_fetch" in allow ==> forall url :: preapproved(url))
  {
    if url :| "web_fetch" in allow && !preapproved(url) {
      var call := ToolCall("", "web_fetch", map["url" := JString(url)]);
      assert call.tool in allow && StringArg(call, "url") == url;
      assert !Approver(allow, preapproved, call);
    }
  }

  /** In a delegation without a human's approval, a policy-gated call is let through exactly when
      the approver does not count its tool as sensitive, or it is a preapproved fetch. */
  lemma GatedCallPassesIff(profile: Profile, p: Policy, preapproved: string -> bool, call: ToolCall)
    requires NeedsApproval(p, call.tool, profile.id)
    ensures Approver(Authorized(Names(profile.tools), p, profile.id, false), preapproved, call)
            <==> !Sensitive(call.tool) || PreapprovedFetch(preapproved, call)
  {
    hide NeedsApproval;
    ListsPartition(Names(profile.tools), p, profile.id);
  }

  /** So the boundary withholds every gated tool exactly under a policy that gates sensitive tools
      only and leaves no preapproved fetch gated. */
  lemma BoundaryWithholdsIff(profile: Profile, p: Policy, preapproved: string -> bool)
    ensures (forall call: ToolCall | NeedsApproval(p, call.tool, profile.id) ::
               !Approver(Authorized(Names(profile.tools), p, profile.id, false), preapproved, call))
            <==> (forall tool | NeedsApproval(p, tool, profile.id) :: Sensitive(tool))
                 && (NeedsApproval(p, "web_fetch", profile.id) ==> forall url :: !preapproved(url))
  {
    hide Sensitive, NeedsApproval, Approver;
    var allow := Authorized(Names(profile.tools), p, profile.id, false);
    forall call: ToolCall | NeedsApproval(p, call.tool, profile.id)
      ensures Approver(allow, preapproved, call) <==> !Sensitive(call.tool) || PreapprovedFetch(preapproved, call)
    {
      GatedCallPassesIff(profile, p, preapproved, call);
    }
    if tool :| NeedsApproval(p, tool, profile.id) && !Sensitive(tool) {
      assert Approver(allow, preapproved, ToolCall("", tool, map[]));
    }
    if url :| NeedsApproval(p, "web_fetch", profile.id) && preapproved(url) {
      assert StringArg(ToolCall("", "web_fetch", map["url" := JString(url)]), "url") == url;
      assert Approver(allow, preapproved, ToolCall("", "web_fetch", map["url" := JString(url)]));
    }
  }

  /** The gate of an interactive session: a preapproved fetch never pauses, any other call does when
      the policy says so. */
  predicate Pauses(p: Policy, profile: string, preapproved: string -> bool, call: ToolCall) {
    !PreapprovedFetch(preapproved, call) && NeedsApproval(p, call.tool, profile)
  }

  /** An unapproved boundary withholds every call on which a session would pause, exactly under a
      policy that gates sensitive tools only. */
  lemma BoundaryMatchesGateIff(profile: Profile, p: Policy, preapproved: string -> bool)
    ensures (forall call: ToolCall | Pauses(p, profile.id, preapproved, call) ::
               !Approver(Authorized(Names(profile.tools), p, profile.id, false), preapproved, call))
            <==> forall tool | NeedsApproval(p, tool, profile.id) :: Sensitive(tool)
  {
    hide NeedsApproval, Sensitive, Approver, Authorized;
    var allow := Authorized(Names(profile.tools), p, profile.id, false);
    forall call: ToolCall | NeedsApproval(p, call.tool, profile.id)
      ensures Approver(allow, preapproved, call) <==> !Sensitive(call.tool) || PreapprovedFetch(preapproved, call)
    {
      GatedCallPassesIff(profile, p, preapproved, call);
    }
    if tool :| NeedsApproval(p, tool, profile.id) && !Sensitive(tool) {
      var call := ToolCall("", tool, map[]);
      FetchIsSensitive();
      assert Pauses(p, profile.id, preapproved, call) && Approver(allow, preapproved, call);
    }
  }

  lemma FetchIsSensitive()
    ensures Sensitive("web_fetch")
  {
  }

  /** The default policy is one, and so is every policy without rules. */
  lemma RulelessGatesSensitiveOnly(p: Policy, tool: string, profile: string)
    requires p.rules == [] && NeedsApproval(p, tool, profile)
    ensures Sensitive(tool)
  {
    if !Sensitive(tool) { GatedReversibleHasRule(p, tool, profile); }
  }

  /** A rule that tightens a read to need approval is such an exception: the read still runs. */
  lemma TightenedReadStillRuns(preapproved: string -> bool)
    ensures var p := Policy([Rule("read_context", "", Approve)], Cautious);
            var call := ToolCall("", "read_context", map[]);
      && NeedsApproval(p, call.tool, "pentester")
      && Approver(Authorized(["read_context"], p, "pentester", false), preapproved, call)
  {
    var p := Policy([Rule("read_context", "", Approve)], Cautious);
    assert FirstRule(p.rules, "read_context", "pentester").None?;
    assert FirstRule(p.rules, "read_context", "") == Some(Approve);
    assert !Sensitive("read_context");
  }
}
