/** normalizeToolIDs of pkg/llm/native.go: before a conversation goes to a native provider, every tool
    call gets an id and every tool result without one gets the id of the call it is taken to answer. */
module ToolIds {
  import opened Llm
  import opened Text

  function Synthetic(n: nat): string { "call_" + Decimal(n) }

  function Missing(calls: seq<ToolCall>): nat {
    if calls == [] then 0 else Missing(calls[..|calls| - 1]) + if calls[|calls| - 1].id == "" then 1 else 0
  }

  /** The calls with ids, numbered on from n where they had none. */
  function Filled(calls: seq<ToolCall>, n: nat): (r: seq<ToolCall>)
    ensures |r| == |calls|
    ensures forall i :: 0 <= i < |r| ==> r[i] == calls[i].(id := r[i].id) && r[i].id != ""
    ensures forall i :: 0 <= i < |r| && calls[i].id != "" ==> r[i] == calls[i]
    decreases |calls|
  {
    if calls == [] then []
    else
      var m := |calls| - 1;
      Filled(calls[..m], n)
      + [if calls[m].id == "" then calls[m].(id := Synthetic(n + Missing(calls[..m]) + 1)) else calls[m]]
  }

  function Last(calls: seq<ToolCall>): string
    requires calls != []
  {
    calls[|calls| - 1].id
  }

  predicate Proposes(m: Message) { m.role == RoleAssistant && m.toolCalls != [] }

  /** A message with its ids, when n ids have been made up before and a call's id is pending; the
      number of ids made up after it; and the id pending after it. */
  function Linked(m: Message, n: nat, pending: string): Message {
    if Proposes(m) then m.(toolCalls := Filled(m.toolCalls, n))
    else if m.role == RoleTool && m.toolCallId == "" then m.(toolCallId := pending)
    else m
  }

  function MadeUpIn(m: Message): nat { if Proposes(m) then Missing(m.toolCalls) else 0 }

  function PendingAfter(m: Message, n: nat, pending: string): string {
    if Proposes(m) then Last(Filled(m.toolCalls, n)) else pending
  }

  function Normalized(msgs: seq<Message>, n: nat, pending: string): (out: seq<Message>)
    ensures |out| == |msgs|
    decreases |msgs|
  {
    if msgs == [] then []
    else [Linked(msgs[0], n, pending)] + Normalized(msgs[1..], n + MadeUpIn(msgs[0]), PendingAfter(msgs[0], n, pending))
  }

  method NormalizeToolIds(msgs: seq<Message>) returns (out: seq<Message>)
    ensures out == Normalized(msgs, 0, "")
  {
    hide Linked, MadeUpIn, PendingAfter;
    out := [];
    var count: nat, pending := 0, "";
    var i := 0;
    while i < |msgs|
      invariant 0 <= i <= |msgs|
      invariant out + Normalized(msgs[i..], count, pending) == Normalized(msgs, 0, "")
    {
      ghost var before, rest := out, msgs[i..];
      assert rest[1..] == msgs[i + 1..];
      var m;
      m, count, pending := LinkOne(msgs[i], count, pending);
      out := out + [m];
      Assoc(before, [m], Normalized(rest[1..], count, pending));
      i := i + 1;
    }
  }

  /** The body of the loop: one message. */
  method LinkOne(given: Message, n: nat, before: string) returns (m: Message, count: nat, pending: string)
    ensures m == Linked(given, n, before) && count == n + MadeUpIn(given) && pending == PendingAfter(given, n, before)
  {
    hide Filled, Missing;
    m, count, pending := given, n, before;
    if m.role == RoleAssistant && |m.toolCalls| > 0 {
      var calls;
      calls, count, pending := FillCalls(m.toolCalls, count, pending);
      m := m.(toolCalls := calls);
    } else if m.role == RoleTool && m.toolCallId == "" {
      m := m.(toolCallId := pending);
    }
  }

  /** The inner loop: the calls of one turn. */
  method FillCalls(given: seq<ToolCall>, n: nat, before: string)
    returns (calls: seq<ToolCall>, count: nat, pending: string)
    requires given != []
    ensures calls == Filled(given, n) && count == n + Missing(given) && pending == Last(calls)
  {
    calls, count, pending := [], n, before;
    for j := 0 to |given|
      invariant calls == Filled(given[..j], n) && count == n + Missing(given[..j])
      invariant j > 0 ==> pending == Last(calls)
    {
      var c := given[j];
      assert given[..j + 1][..j] == given[..j];
      if c.id == "" {
        count := count + 1;
        c := c.(id := Synthetic(count));
      }
      pending := c.id;
      calls := calls + [c];
    }
    assert given[..|given|] == given;
  }

  lemma Assoc(a: seq<Message>, b: seq<Message>, c: seq<Message>)
    ensures a + b + c == a + (b + c)
  {
  }

  /** Only missing ids are filled in: everything else of every message stays, and every call has an
      id afterwards. */
  predicate OnlyIdsFilled(m: Message, m': Message) {
    && m' == m.(toolCalls := m'.toolCalls, toolCallId := m'.toolCallId)
    && (m.toolCallId != "" || m.role != RoleTool ==> m'.toolCallId == m.toolCallId)
    && |m'.toolCalls| == |m.toolCalls|
    && (!Proposes(m) ==> m'.toolCalls == m.toolCalls)
    && forall j :: 0 <= j < |m.toolCalls| ==>
         (&& m'.toolCalls[j] == m.toolCalls[j].(id := m'.toolCalls[j].id)
          && (m.toolCalls[j].id != "" ==> m'.toolCalls[j] == m.toolCalls[j])
          && (Proposes(m) ==> m'.toolCalls[j].id != ""))
  }

  lemma {:induction false} OnlyIdsChange(msgs: seq<Message>, n: nat, pending: string, i: nat)
    requires i < |msgs|
    ensures OnlyIdsFilled(msgs[i], Normalized(msgs, n, pending)[i])
    decreases |msgs|
  {
    hide Linked, PendingAfter, MadeUpIn, OnlyIdsFilled;
    if i > 0 {
      OnlyIdsChange(msgs[1..], n + MadeUpIn(msgs[0]), PendingAfter(msgs[0], n, pending), i - 1);
    } else {
      LinkedFillsIds(msgs[0], n, pending);
    }
  }

  lemma LinkedFillsIds(m: Message, n: nat, pending: string)
    ensures OnlyIdsFilled(m, Linked(m, n, pending))
  {
    hide Missing;
  }

  /** How many ids are made up for the turns of a conversation. */
  function MadeUp(msgs: seq<Message>): nat {
    if msgs == [] then 0 else MadeUpIn(msgs[0]) + MadeUp(msgs[1..])
  }

  lemma {:induction false} MadeUpConcat(a: seq<Message>, b: seq<Message>)
    ensures MadeUp(a + b) == MadeUp(a) + MadeUp(b)
  {
    hide MadeUpIn;
    if a == [] {
      assert a + b == b;
    } else {
      assert (a + b)[1..] == a[1..] + b;
      MadeUpConcat(a[1..], b);
    }
  }

  /** The calls of turn p get their ids from the numbers after those made up before it. */
  lemma {:induction false} TurnGetsIds(msgs: seq<Message>, n: nat, pending: string, p: nat)
    requires p < |msgs| && Proposes(msgs[p])
    ensures Normalized(msgs, n, pending)[p].toolCalls == Filled(msgs[p].toolCalls, n + MadeUp(msgs[..p]))
    decreases |msgs|
  {
    hide Filled, MadeUpIn, PendingAfter, Linked;
    var m, rest := msgs[0], msgs[1..];
    if p > 0 {
      assert msgs[..p][1..] == rest[..p - 1] && msgs[..p][0] == m;
      TurnGetsIds(rest, n + MadeUpIn(m), PendingAfter(m, n, pending), p - 1);
    } else {
      assert msgs[..0] == [];
      TurnLinked(m, n, pending);
    }
  }

  /** Before any call is proposed, a result without an id gets the id that was pending at the start. */
  lemma {:induction false} ResultBeforeCalls(msgs: seq<Message>, n: nat, pending: string, j: nat)
    requires j < |msgs| && msgs[j].role == RoleTool && forall i :: 0 <= i < j ==> !Proposes(msgs[i])
    ensures Normalized(msgs, n, pending)[j].toolCallId == if msgs[j].toolCallId
        == "" then pending else msgs[j].toolCallId
    decreases |msgs|
  {
    hide Filled, Linked;
    if j > 0 {
      ResultBeforeCalls(msgs[1..], n + MadeUpIn(msgs[0]), PendingAfter(msgs[0], n, pending), j - 1);
    } else {
      ResultLinked(msgs[0], n, pending);
    }
  }

  /** A result without an id gets the id of the last call of the last turn p that proposes one before
      it, however far back that is; a result with an id keeps it. */
  lemma {:induction false} ResultGetsLast(msgs: seq<Message>, n: nat, pending: string, p: nat, j: nat)
    requires p < j < |msgs| && Proposes(msgs[p]) && msgs[j].role == RoleTool
    requires forall i :: p < i < j ==> !Proposes(msgs[i])
    ensures Normalized(msgs, n, pending)[j].toolCallId ==
            if msgs[j].toolCallId == "" then Last(Filled(msgs[p].toolCalls, n + MadeUp(msgs[..p])))
                else msgs[j].toolCallId
    decreases |msgs|
  {
    hide Filled, MadeUpIn, PendingAfter, Linked;
    var m, rest := msgs[0], msgs[1..];
    var n', pending' := n + MadeUpIn(m), PendingAfter(m, n, pending);
    assert Normalized(msgs, n, pending)[1..] == Normalized(rest, n', pending');
    if p > 0 {
      assert msgs[..p][1..] == rest[..p - 1] && msgs[..p][0] == m;
      ResultGetsLast(rest, n', pending', p - 1, j - 1);
    } else {
      assert msgs[..0] == [];
      TurnLinked(m, n, pending);
      ResultBeforeCalls(rest, n', pending', j - 1);
    }
  }

  lemma TurnLinked(m: Message, n: nat, pending: string)
    requires Proposes(m)
    ensures Linked(m, n, pending).toolCalls == Filled(m.toolCalls, n)
    ensures PendingAfter(m, n, pending) == Last(Filled(m.toolCalls, n))
  {
  }

  lemma ResultLinked(m: Message, n: nat, pending: string)
    requires m.role == RoleTool
    ensures Linked(m, n, pending).toolCallId == if m.toolCallId == "" then pending else m.toolCallId
  {
  }

  /** The first call of turn i and the last call of turn p, no earlier, get one id: the given ids
      agree, or a given id is the one made up for the other call, or both are one call without an id. */
  predicate SameId(msgs: seq<Message>, i: nat, p: nat)
    requires i <= p < |msgs| && Proposes(msgs[i]) && Proposes(msgs[p])
  {
    var first, last := msgs[i].toolCalls[0].id, Last(msgs[p].toolCalls);
    if first != "" && last != "" then first == last
    else if first != "" then first == Synthetic(MadeUp(msgs[..p]) + Missing(msgs[p].toolCalls))
    else if last != "" then last == Synthetic(MadeUp(msgs[..i]) + 1)
    else i == p && |msgs[i].toolCalls| == 1
  }

  lemma {:induction false} FirstFilled(calls: seq<ToolCall>, k: nat)
    requires calls != []
    ensures Filled(calls, k)[0].id == if calls[0].id == "" then Synthetic(k + 1) else calls[0].id
    ensures calls[0].id == "" ==> Missing(calls) >= 1
    decreases |calls|
  {
    hide Synthetic;
    var m := |calls| - 1;
    assert Missing([]) == 0 && calls[..0] == [];
    if m > 0 {
      assert calls[..m][0] == calls[0];
      FirstFilled(calls[..m], k);
    }
  }

  lemma LastFilled(calls: seq<ToolCall>, k: nat)
    requires calls != []
    ensures Last(Filled(calls, k)) == if Last(calls) == "" then Synthetic(k + Missing(calls)) else Last(calls)
    ensures Last(calls) == "" ==> Missing(calls) >= 1
    ensures calls[0].id == "" && Last(calls) == "" ==> (Missing(calls) == 1 <==> |calls| == 1)
  {
    hide Synthetic;
    var m := |calls| - 1;
    assert calls[..0] == [];
    if m > 0 {
      assert calls[..m][0] == calls[0];
      FirstFilled(calls[..m], k);
    }
  }

  lemma SyntheticInjective(m: nat, n: nat)
    ensures Synthetic(m) == Synthetic(n) ==> m == n
    ensures Synthetic(m) != ""
  {
    hide Decimal;
    assert Synthetic(m)[5..] == Decimal(m) && Synthetic(n)[5..] == Decimal(n);
    DecimalInjective(m, n);
  }

  /** More ids are made up by the end of a later turn than for the first call of an earlier one. */
  lemma LaterNumber(msgs: seq<Message>, i: nat, p: nat)
    requires i < p < |msgs| && Proposes(msgs[i]) && msgs[i].toolCalls[0].id == ""
    ensures MadeUp(msgs[..p]) >= MadeUp(msgs[..i]) + 1
  {
    hide Synthetic;
    var tail := msgs[i..p];
    assert msgs[..p] == msgs[..i] + tail && tail[0] == msgs[i];
    MadeUpConcat(msgs[..i], tail);
    FirstFilled(msgs[i].toolCalls, 0);
  }

  lemma SameIdIff(msgs: seq<Message>, i: nat, p: nat)
    requires i <= p < |msgs| && Proposes(msgs[i]) && Proposes(msgs[p])
    ensures Filled(msgs[i].toolCalls, MadeUp(msgs[..i]))[0].id == Last(Filled(msgs[p].toolCalls, MadeUp(msgs[..p])))
            <==> SameId(msgs, i, p)
  {
    hide Filled, Missing, Synthetic, MadeUp;
    var first, last, k, k' := msgs[i].toolCalls, msgs[p].toolCalls, MadeUp(msgs[..i]), MadeUp(msgs[..p]);
    FirstFilled(first, k);
    LastFilled(last, k');
    SyntheticInjective(k + 1, k' + Missing(last));
    if i < p && first[0].id == "" { LaterNumber(msgs, i, p); }
  }

  /** A result that answers turn i, with p the last turn that proposes a call before it (which is i
      itself unless the decision was put off), names the first call of turn i or none (a decided call
      has lost its id). Afterwards it names that call exactly when it named it before or when the first
      call of turn i and the last call of turn p get one id. */
  lemma RelinkedIff(msgs: seq<Message>, i: nat, p: nat, j: nat)
    requires i <= p < j < |msgs| && Proposes(msgs[i]) && Proposes(msgs[p]) && msgs[j].role == RoleTool
    requires forall k :: p < k < j ==> !Proposes(msgs[k])
    requires msgs[j].toolCallId == "" || msgs[j].toolCallId == msgs[i].toolCalls[0].id
    ensures var out := Normalized(msgs, 0, "");
      && |out[i].toolCalls| == |msgs[i].toolCalls|
      && (out[j].toolCallId == out[i].toolCalls[0].id <==> msgs[j].toolCallId != "" || SameId(msgs, i, p))
  {
    hide Normalized, Missing, Synthetic, SameId, MadeUp;
    TurnGetsIds(msgs, 0, "", i);
    ResultGetsLast(msgs, 0, "", p, j);
    FirstFilled(msgs[i].toolCalls, MadeUp(msgs[..i]));
    SameIdIff(msgs, i, p);
  }

  /** With one call a turn, and different ids or none where ids were given: a result without an id is
      linked to the call that it answers exactly when no later turn proposed a call before it. */
  lemma SingleCallsRelink(msgs: seq<Message>, i: nat, p: nat, j: nat)
    requires i <= p < j < |msgs| && Proposes(msgs[i]) && Proposes(msgs[p]) && msgs[j].role == RoleTool
    requires forall k :: p < k < j ==> !Proposes(msgs[k])
    requires |msgs[i].toolCalls| == |msgs[p].toolCalls| == 1 && msgs[j].toolCallId == ""
    requires i < p ==> msgs[i].toolCalls[0].id == msgs[p].toolCalls[0].id == "" ||
                       (msgs[i].toolCalls[0].id != "" && msgs[p].toolCalls[0].id !in ["", msgs[i].toolCalls[0].id])
    ensures var out := Normalized(msgs, 0, "");
      |out[i].toolCalls| == 1 && (out[j].toolCallId == out[i].toolCalls[0].id <==> i == p)
  {
    hide Normalized, Missing, Synthetic, MadeUp;
    RelinkedIff(msgs, i, p, j);
  }

  /** Two calls of one turn with different ids: a decided first call is linked to the last. */
  lemma SeveralCallsMislink(msgs: seq<Message>, i: nat, j: nat)
    requires i < j < |msgs| && Proposes(msgs[i]) && msgs[j].role == RoleTool && msgs[j].toolCallId == ""
    requires forall k :: i < k < j ==> !Proposes(msgs[k])
    requires var first, last := msgs[i].toolCalls[0].id,
    Last(msgs[i].toolCalls); first != "" && last != "" && first != last
    ensures var out := Normalized(msgs, 0, "");
      |out[i].toolCalls| == |msgs[i].toolCalls| && out[j].toolCallId != out[i].toolCalls[0].id
  {
    hide Normalized, Missing, Synthetic, MadeUp;
    RelinkedIff(msgs, i, i, j);
  }

  /** The user sends again while call a waits, that run proposes and runs call b, and then a is decided. */
  function PutOff(a: ToolCall, b: ToolCall): seq<Message> {
    [AssistantMessage("", [a]), UserMessage("go on"), AssistantMessage("", [b]), ToolResult(b, "done", false),
     AssistantMessage("finished", []), ToolResult(a.(id := ""), "done", false)]
  }

  /** The decided call's result is then taken for the other call's. */
  lemma PutOffDecisionIsMislinked(a: ToolCall, b: ToolCall)
    requires a.id != "" && b.id != "" && a.id != b.id
    ensures var out := Normalized(PutOff(a, b), 0, "");
      out[0].toolCalls == [a] && out[5].toolCallId == b.id != a.id
  {
    hide Normalized;
    var msgs := PutOff(a, b);
    assert msgs[..0] == [] && [a][..0] == [] && [b][..0] == [];
    TurnGetsIds(msgs, 0, "", 0);
    ResultGetsLast(msgs, 0, "", 2, 5);
  }

  /** The first id that is made up is "call_1". */
  lemma FirstMadeUpId(call: ToolCall, rest: seq<Message>)
    requires call.id == ""
    ensures Normalized([AssistantMessage("", [call])] + rest, 0, "")[0].toolCalls == [call.(id := "call_1")]
  {
    hide Normalized;
    var msgs := [AssistantMessage("", [call])] + rest;
    assert msgs[..0] == [] && [call][..0] == [];
    TurnGetsIds(msgs, 0, "", 0);
    assert Synthetic(1) == "call_1";
  }
}
