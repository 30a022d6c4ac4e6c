/** The activity trail of a delegation: the lines that pkg/analyst emits while a tree of sub-agents
    runs, and StepProgress of frontend/src/ActivityTab.tsx, which rebuilds the tree from them. */
module Trail {
  import opened Llm
  import opened Text
  import opened Agent

  datatype Kind = KOk | KErr | KDeny | KStart | KEnd

  /** One line of the trail; a field that the encoder omits when empty is None. */
  datatype Entry = Entry(
    k: Kind, tool: string, note: Option<string>, args: map<string, Json>, out: Option<string>,
    profile: Option<string>, depth: Option<nat>, durMs: Option<nat>, steps: Option<nat>)

  /** A line as tryParseEntry sees it: an entry, or legacy text. */
  datatype Line = Parsed(entry: Entry) | Legacy(text: string)

  function NonEmpty(s: string): Option<string> { if s == "" then None else Some(s) }

  function NonZero(n: nat): Option<nat> { if n == 0 then None else Some(n) }

  function Or<T>(o: Option<T>, default: T): T { if o.Some? then o.value else default }

  // ----- The emitter -----

  function Clip(s: string, max: nat): string {
    var t := Trim(s, GoSpace);
    if |t| > max then t[..max] + "…" else t
  }

  function StartLine(profile: string, task: string, depth: nat): Entry {
    Entry(KStart, "delegate", NonEmpty(Clip(task, 200)), map[], None, NonEmpty(profile), NonZero(depth), None, None)
  }

  /** Answer and step count of the result, which is the zero result when the run failed. */
  function EndLine(profile: string, depth: nat, answer: string, steps: nat, durMs: nat): Entry {
    Entry(KEnd, "delegate", NonEmpty(Clip(answer, 200)), map[], None, NonEmpty(profile), NonZero(depth),
          NonZero(durMs), NonZero(steps))
  }

  function StartEntry(sub: SubAgent): Entry { StartLine(sub.requested, sub.task, sub.depth) }

  function EndEntry(sub: SubAgent): Entry {
    var (steps, answer) := match sub.outcome case Ok(r) => (|r.steps|, r.answer) case Err(_) => (0, "");
    EndLine(sub.requested, sub.depth, answer, steps, sub.durationMs)
  }

  function TurnEntry(st: Step, depth: nat): Entry {
    var (k, out) :=
      if st.error != "" then (KErr, NonEmpty(Clip(st.error, 600)))
      else if st.result == "(denied)" then (KDeny, None)
      else (KOk, NonEmpty(Clip(st.result, 600)));
    Entry(k, st.call.tool, NonEmpty(Clip(st.note, 800)), st.call.args, out, None, NonZero(depth), None, None)
  }

  /** The lines of one finished delegation: its start marker, the lines of its Loop, its end marker (also
      when the Loop failed). A step is reported after the execution it describes, so after the lines
      of any sub-agent that the execution ran. Module Emission shows that these are the lines emitted. */
  function TrailOf(sub: SubAgent): (t: seq<Entry>)
    ensures |t| >= 2
    decreases sub
  {
    [StartEntry(sub)] + TrailOfActs(sub.activity, sub.depth) + [EndEntry(sub)]
  }

  function TrailOfActs(acts: seq<Activity>, depth: nat): seq<Entry>
    decreases acts
  {
    if acts == [] then []
    else TrailOfAll(acts[0].spawned) + [TurnEntry(acts[0].step, depth)] + TrailOfActs(acts[1..], depth)
  }

  function TrailOfAll(subs: seq<SubAgent>): seq<Entry>
    decreases subs
  {
    if subs == [] then [] else TrailOf(subs[0]) + TrailOfAll(subs[1..])
  }

  /** A clipped text is the trimmed one, or its first `max` characters and an ellipsis. */
  lemma ClipKeepsFront(s: string, max: nat)
    ensures |Clip(s, max)| <= max + 1
    ensures |Trim(s, GoSpace)| <= max ==> Clip(s, max) == Trim(s, GoSpace)
    ensures |Trim(s, GoSpace)| > max ==> Clip(s, max)[..max] <= Trim(s, GoSpace) && Clip(s, max)[max..] == "…"
  {
    hide Trim;
  }

  // ----- The renderer -----

  /** A rendered element; its key is the index of the line that completed it. An empty text, a duration
      of 0 and a count of 0 are not shown. */
  datatype Element =
    | PlainLine(key: nat, text: string)
    | ToolTurn(key: nat, kind: Kind, depth: nat, tool: string, note: string, args: map<string, Json>, out: string)
    | DelegateNode(key: nat, profile: string, depth: nat, durMs: nat, steps: nat, note: string, children: seq<Element>)

  datatype Frame = Frame(profile: string, depth: nat, children: seq<Element>)

  datatype View = View(elements: seq<Element>, stack: seq<Frame>)
  {
    /** Adds an element to the innermost open delegation, or to the top level. */
    function Place(el: Element): View {
      if stack == [] then View(elements + [el], stack)
      else
        var top := stack[|stack| - 1];
        View(elements, stack[|stack| - 1 := top.(children := top.children + [el])])
    }

    function PlaceAll(els: seq<Element>): View
      decreases |els|
    {
      if els == [] then this else Place(els[0]).PlaceAll(els[1..])
    }
  }

  function EndNode(key: nat, entry: Entry, frame: Option<Frame>): Element {
    DelegateNode(key, if frame.Some? then frame.value.profile else Or(entry.profile, "agent"), Or(entry.depth, 0),
                 Or(entry.durMs, 0), Or(entry.steps, 0), Or(entry.note, ""),
                 if frame.Some? then frame.value.children else [])
  }

  function TurnElement(key: nat, entry: Entry): Element {
    ToolTurn(key, entry.k, Or(entry.depth, 0), entry.tool, Or(entry.note, ""), entry.args, Or(entry.out, ""))
  }

  function Read(v: View, key: nat, line: Line): View {
    match line
    case Legacy(text) => View(v.elements + [PlainLine(key, text)], v.stack)
    case Parsed(e) =>
      match e.k
      case KStart => View(v.elements, v.stack + [Frame(Or(e.profile, "agent"), Or(e.depth, 0), [])])
      case KEnd =>
        if v.stack == [] then v.Place(EndNode(key, e, None))
        else View(v.elements, v.stack[..|v.stack| - 1]).Place(EndNode(key, e, Some(v.stack[|v.stack| - 1])))
      case _ => v.Place(TurnElement(key, e))
  }

  function ReadAll(v: View, key: nat, lines: seq<Line>): View
    decreases |lines|
  {
    if lines == [] then v else ReadAll(Read(v, key, lines[0]), key + 1, lines[1..])
  }

  const BLANK := View([], [])

  /** StepProgress: one pass over the lines with an explicit stack of open delegations. */
  method StepProgress(lines: seq<Line>) returns (elements: seq<Element>)
    ensures elements == ReadAll(BLANK, 0, lines).elements
  {
    elements := [];
    var delegateStack: seq<Frame> := [];
    var i := 0;
    while i < |lines|
      invariant 0 <= i <= |lines|
      invariant ReadAll(View(elements, delegateStack), i, lines[i..]) == ReadAll(BLANK, 0, lines)
    {
      ghost var before := View(elements, delegateStack);
      var line := lines[i];
      match line {
        case Legacy(text) =>
          elements := elements + [PlainLine(i, text)];
        case Parsed(e) =>
          var n := |delegateStack|;
          if e.k.KStart? {
            delegateStack := delegateStack + [Frame(Or(e.profile, "agent"), Or(e.depth, 0), [])];
          } else {
            var el;
            if e.k.KEnd? {
              if n > 0 {
                el := EndNode(i, e, Some(delegateStack[n - 1]));
                delegateStack := delegateStack[..n - 1];
              } else {
                el := EndNode(i, e, None);
              }
            } else {
              el := TurnElement(i, e);
            }
            n := |delegateStack|;
            if n > 0 {
              var top := delegateStack[n - 1];
              delegateStack := delegateStack[n - 1 := top.(children := top.children + [el])];
            } else {
              elements := elements + [el];
            }
          }
      }
      assert View(elements, delegateStack) == Read(before, i, line);
      assert lines[i..][1..] == lines[i + 1..];
      i := i + 1;
    }
  }

  // ----- The tree to be rebuilt -----

  /** The node of a sub-agent whose first line has index `at`: the profile asked for, its depth, how long
      it took, and the steps and the answer of its run if that did not fail; and in it its own tool turns
      and the nodes of the sub-agents they ran, in order. */
  function NodeOf(sub: SubAgent, at: nat): Element
    decreases sub
  {
    DelegateNode(at + |TrailOf(sub)| - 1, if sub.requested == "" then "agent" else sub.requested, sub.depth,
                 sub.durationMs, if sub.outcome.Ok? then |sub.outcome.value.steps| else 0,
                 if sub.outcome.Ok? then Clip(sub.outcome.value.answer, 200) else "",
                 ElementsOfActs(sub.activity, sub.depth, at + 1))
  }

  /** How a step is to be shown: as an error with the error's text, as denied, or with its result. */
  function StepElement(key: nat, st: Step, depth: nat): Element {
    var failed, denied := st.error != "", st.error == "" && st.result == "(denied)";
    ToolTurn(key, if failed then KErr else if denied then KDeny else KOk, depth, st.call.tool, Clip(st.note, 800),
             st.call.args, if failed then Clip(st.error, 600) else if denied then "" else Clip(st.result, 600))
  }

  function ElementsOfActs(acts: seq<Activity>, depth: nat, at: nat): seq<Element>
    decreases acts
  {
    if acts == [] then []
    else
      var turn := at + |TrailOfAll(acts[0].spawned)|;
      NodesOf(acts[0].spawned, at) + [StepElement(turn, acts[0].step, depth)]
      + ElementsOfActs(acts[1..], depth, turn + 1)
  }

  function NodesOf(subs: seq<SubAgent>, at: nat): seq<Element>
    decreases subs
  {
    if subs == [] then [] else [NodeOf(subs[0], at)] + NodesOf(subs[1..], at + |TrailOf(subs[0])|)
  }

  function Lines(es: seq<Entry>): (ls: seq<Line>)
    ensures |ls| == |es|
    ensures forall i :: 0 <= i < |es| ==> ls[i] == Parsed(es[i])
  {
    if es == [] then [] else [Parsed(es[0])] + Lines(es[1..])
  }

  lemma LinesConcat(a: seq<Entry>, b: seq<Entry>)
    ensures Lines(a + b) == Lines(a) + Lines(b)
  {
  }

  lemma {:induction false} ReadConcat(v: View, key: nat, a: seq<Line>, b: seq<Line>)
    ensures ReadAll(v, key, a + b) == ReadAll(ReadAll(v, key, a), key + |a|, b)
    decreases |a|
  {
    hide Read;
    if a == [] {
      assert a + b == b;
    } else {
      assert (a + b)[1..] == a[1..] + b;
      ReadConcat(Read(v, key, a[0]), key + 1, a[1..], b);
    }
  }

  lemma {:induction false} PlaceConcat(v: View, a: seq<Element>, b: seq<Element>)
    ensures v.PlaceAll(a + b) == v.PlaceAll(a).PlaceAll(b)
    decreases |a|
  {
    if a == [] {
      assert a + b == b;
    } else {
      assert (a + b)[1..] == a[1..] + b;
      PlaceConcat(v.Place(a[0]), a[1..], b);
    }
  }

  lemma {:induction false} PlacesInTop(v: View, els: seq<Element>)
    ensures v.stack == [] ==> v.PlaceAll(els) == View(v.elements + els, [])
    ensures v.stack != [] ==> var top := v.stack[|v.stack| - 1];
      v.PlaceAll(els) == View(v.elements, v.stack[|v.stack| - 1 := top.(children := top.children + els)])
    decreases |els|
  {
    if els == [] {
      if v.stack != [] {
        var top := v.stack[|v.stack| - 1];
        assert top.(children := top.children + []) == top;
      }
    } else {
      PlacesInTop(v.Place(els[0]), els[1..]);
      assert els == [els[0]] + els[1..];
      if v.stack == [] {
        assert v.elements + els == v.elements + [els[0]] + els[1..];
      } else {
        var c := v.stack[|v.stack| - 1].children;
        assert c + els == c + [els[0]] + els[1..];
      }
    }
  }

  /** Reading the end marker makes the sub-agent's node of the frame that its start marker opened. */
  lemma ReadEnd(v: View, key: nat, sub: SubAgent, frame: Frame)
    requires v.stack != [] && v.stack[|v.stack| - 1] == frame
    requires frame.profile == if sub.requested == "" then "agent" else sub.requested
    ensures Read(v, key, Parsed(EndEntry(sub)))
         == View(v.elements, v.stack[..|v.stack| - 1]).Place(
              DelegateNode(key, frame.profile, sub.depth, sub.durationMs,
                           if sub.outcome.Ok? then |sub.outcome.value.steps| else 0,
                           if sub.outcome.Ok? then Clip(sub.outcome.value.answer, 200) else "", frame.children))
  {
    ClippedNothing();
    hide Clip;
  }

  lemma ReadSingle(v: View, key: nat, e: Entry)
    ensures ReadAll(v, key, Lines([e])) == Read(v, key, Parsed(e)) && |Lines([e])| == 1
  {
    hide Read;
    assert Lines([e]) == [Parsed(e)] && [Parsed(e)][1..] == [];
  }

  lemma ClippedNothing()
    ensures Clip("", 200) == ""
  {
  }

  lemma ReadStartOf(v: View, key: nat, sub: SubAgent)
    ensures Read(v, key, Parsed(StartEntry(sub)))
         == View(v.elements, v.stack + [Frame(if sub.requested == "" then "agent" else sub.requested, sub.depth, [])])
  {
    hide Clip;
  }

  /** Reading the lines of one delegation adds its node where the reader stands, and nothing else. */
  lemma {:induction false} ReadsOne(v: View, sub: SubAgent, at: nat)
    ensures ReadAll(v, at, Lines(TrailOf(sub))) == v.Place(NodeOf(sub, at))
    decreases sub
  {
    hide Read, ReadAll, Lines, StartEntry, EndEntry, Clip, TrailOfActs, ElementsOfActs;
    var body := TrailOfActs(sub.activity, sub.depth);
    var first, last := Lines([StartEntry(sub)]), Lines([EndEntry(sub)]);
    LinesConcat([StartEntry(sub)] + body, [EndEntry(sub)]);
    LinesConcat([StartEntry(sub)], body);
    ReadConcat(v, at, first + Lines(body), last);
    ReadConcat(v, at, first, Lines(body));
    var inside := ReadAll(v, at, first);
    ReadSingle(v, at, StartEntry(sub));
    ReadStartOf(v, at, sub);
    ReadsActs(inside, sub.activity, sub.depth, at + 1);
    var els := ElementsOfActs(sub.activity, sub.depth, at + 1);
    PlacesInTop(inside, els);
    var filled := inside.PlaceAll(els);
    var frame := filled.stack[|filled.stack| - 1];
    assert filled.stack[..|filled.stack| - 1] == v.stack && frame.children == els;
    ReadSingle(filled, at + 1 + |body|, EndEntry(sub));
    ReadEnd(filled, at + 1 + |body|, sub, frame);
  }

  /** Reading around one line, and placing around one element. */
  lemma ReadAround(v: View, at: nat, a: seq<Entry>, e: Entry, b: seq<Entry>)
    ensures ReadAll(v, at, Lines(a + [e] + b))
         == ReadAll(Read(ReadAll(v, at, Lines(a)), at + |a|, Parsed(e)), at + |a| + 1, Lines(b))
  {
    hide Read;
    LinesConcat(a + [e], b);
    LinesConcat(a, [e]);
    ReadConcat(v, at, Lines(a + [e]), Lines(b));
    ReadConcat(v, at, Lines(a), Lines([e]));
    assert Lines([e]) == [Parsed(e)] && [Parsed(e)][1..] == [];
  }

  lemma PlaceAround(v: View, a: seq<Element>, el: Element, b: seq<Element>)
    ensures v.PlaceAll(a + [el] + b) == v.PlaceAll(a).Place(el).PlaceAll(b)
  {
    PlaceConcat(v, a, [el] + b);
    assert ([el] + b)[1..] == b;
    assert a + [el] + b == a + ([el] + b);
  }

  lemma ReadTurn(v: View, key: nat, st: Step, depth: nat)
    ensures Read(v, key, Parsed(TurnEntry(st, depth))) == v.Place(StepElement(key, st, depth))
  {
    hide Clip;
  }

  lemma {:induction false} ReadsActs(v: View, acts: seq<Activity>, depth: nat, at: nat)
    ensures ReadAll(v, at, Lines(TrailOfActs(acts, depth))) == v.PlaceAll(ElementsOfActs(acts, depth, at))
    decreases acts
  {
    hide Read, ReadAll, TurnEntry, StepElement, Lines, TrailOfAll, NodesOf;
    if acts == [] {
      assert TrailOfActs(acts, depth) == [];
      NoLines(v, at);
    } else {
      var subs, turn := TrailOfAll(acts[0].spawned), TurnEntry(acts[0].step, depth);
      var k := at + |subs|;
      ReadAround(v, at, subs, turn, TrailOfActs(acts[1..], depth));
      ReadsAll(v, acts[0].spawned, at);
      var nodes := NodesOf(acts[0].spawned, at);
      ReadTurn(v.PlaceAll(nodes), k, acts[0].step, depth);
      var next := v.PlaceAll(nodes).Place(StepElement(k, acts[0].step, depth));
      ReadsActs(next, acts[1..], depth, k + 1);
      PlaceAround(v, nodes, StepElement(k, acts[0].step, depth), ElementsOfActs(acts[1..], depth, k + 1));
    }
  }

  lemma NoLines(v: View, at: nat)
    ensures ReadAll(v, at, Lines([])) == v
  {
  }

  lemma {:induction false} ReadsAll(v: View, subs: seq<SubAgent>, at: nat)
    ensures ReadAll(v, at, Lines(TrailOfAll(subs))) == v.PlaceAll(NodesOf(subs, at))
    decreases subs
  {
    hide Read, TrailOf, NodeOf;
    if subs != [] {
      var first := TrailOf(subs[0]);
      LinesConcat(first, TrailOfAll(subs[1..]));
      ReadConcat(v, at, Lines(first), Lines(TrailOfAll(subs[1..])));
      ReadsOne(v, subs[0], at);
      ReadsAll(v.Place(NodeOf(subs[0], at)), subs[1..], at + |first|);
      assert NodesOf(subs, at)[1..] == NodesOf(subs[1..], at + |first|);
    }
  }

  /** StepProgress applied to the trail of any delegations, failed ones included, rebuilds exactly
      their trees: every line is rendered once, in order, under the sub-agent it belongs to, and no
      delegation is left open. */
  lemma TrailRebuildsTree(subs: seq<SubAgent>)
    ensures ReadAll(BLANK, 0, Lines(TrailOfAll(subs))) == View(NodesOf(subs, 0), [])
  {
    hide Read, TrailOf, NodeOf;
    ReadsAll(BLANK, subs, 0);
    PlacesInTop(BLANK, NodesOf(subs, 0));
  }

  // ----- Nesting, and the trail of a run that is not over -----

  /** Delegations opened less delegations closed. */
  function Net(es: seq<Entry>): int {
    if es == [] then 0
    else Net(es[..|es| - 1]) + match es[|es| - 1].k case KStart => 1 case KEnd => -1 case _ => 0
  }

  lemma {:induction false} NetConcat(a: seq<Entry>, b: seq<Entry>)
    ensures Net(a + b) == Net(a) + Net(b)
    decreases |b|
  {
    if b == [] {
      assert a + b == a;
    } else {
      NetConcat(a, b[..|b| - 1]);
      assert (a + b)[..|a + b| - 1] == a + b[..|b| - 1];
    }
  }

  /** No prefix closes more than it opened, and the whole closes all it opened. */
  ghost predicate WellNested(es: seq<Entry>) {
    Net(es) == 0 && forall k :: 0 <= k <= |es| ==> Net(es[..k]) >= 0
  }

  lemma NestedConcat(a: seq<Entry>, b: seq<Entry>)
    requires WellNested(a) && WellNested(b)
    ensures WellNested(a + b)
  {
    NetConcat(a, b);
    forall k | 0 <= k <= |a + b| ensures Net((a + b)[..k]) >= 0 {
      if k <= |a| {
        assert (a + b)[..k] == a[..k];
      } else {
        assert (a + b)[..k] == a + b[..k - |a|];
        NetConcat(a, b[..k - |a|]);
      }
    }
  }

  lemma TurnNested(st: Step, depth: nat)
    ensures WellNested([TurnEntry(st, depth)])
  {
    hide Clip;
    var e := [TurnEntry(st, depth)];
    forall k | 0 <= k <= 1 ensures Net(e[..k]) == 0 {
      assert e[..0] == [] && e[..1] == e;
    }
  }

  /** A delegation's trail is well nested, and is open from its first line until its last. */
  lemma {:induction false} TrailNested(sub: SubAgent)
    ensures WellNested(TrailOf(sub))
    ensures forall k :: 0 < k < |TrailOf(sub)| ==> Net(TrailOf(sub)[..k]) >= 1
    decreases sub
  {
    hide StartEntry, EndEntry;
    var body, t := TrailOfActs(sub.activity, sub.depth), TrailOf(sub);
    ActsNested(sub.activity, sub.depth);
    Ends(sub);
    var start := [StartEntry(sub)];
    assert start[..0] == [];
    assert Net(start) == 1;
    forall k | 0 < k < |t| ensures Net(t[..k]) >= 1 {
      assert t[..k] == start + body[..k - 1];
      NetConcat(start, body[..k - 1]);
    }
    assert t[..|t| - 1] == start + body;
    NetConcat(start, body);
    assert Net(t) == 0;
    forall k | 0 <= k <= |t| ensures Net(t[..k]) >= 0 {
      if k == |t| { assert t[..k] == t; } else if k == 0 { assert t[..0] == []; }
    }
  }

  lemma Ends(sub: SubAgent)
    ensures StartEntry(sub).k == KStart && EndEntry(sub).k == KEnd
  {
    hide Clip;
  }

  lemma {:induction false} ActsNested(acts: seq<Activity>, depth: nat)
    ensures WellNested(TrailOfActs(acts, depth))
    decreases acts
  {
    hide TurnEntry, WellNested;
    if acts == [] {
      EmptyNested();
    } else {
      AllNested(acts[0].spawned);
      TurnNested(acts[0].step, depth);
      ActsNested(acts[1..], depth);
      var turn := [TurnEntry(acts[0].step, depth)];
      NestedConcat(TrailOfAll(acts[0].spawned), turn);
      NestedConcat(TrailOfAll(acts[0].spawned) + turn, TrailOfActs(acts[1..], depth));
    }
  }

  lemma EmptyNested()
    ensures WellNested([])
  {
  }

  lemma {:induction false} AllNested(subs: seq<SubAgent>)
    ensures WellNested(TrailOfAll(subs))
    decreases subs
  {
    hide TrailOf, WellNested;
    if subs == [] {
      EmptyNested();
    } else {
      TrailNested(subs[0]);
      AllNested(subs[1..]);
      NestedConcat(TrailOf(subs[0]), TrailOfAll(subs[1..]));
    }
  }

  /** While some delegation stays open, nothing reaches the top level. */
  lemma {:induction false} OpenHides(v: View, key: nat, es: seq<Entry>)
    requires forall k :: 0 <= k <= |es| ==> |v.stack| + Net(es[..k]) >= 1
    ensures ReadAll(v, key, Lines(es)).elements == v.elements
    decreases |es|
  {
    if es != [] {
      assert |v.stack| + Net(es[..0]) >= 1 && |v.stack| + Net(es[..1]) >= 1;
      assert es[..1][..0] == [] && es[..1][0] == es[0];
      var next := Read(v, key, Lines(es)[0]);
      assert |next.stack| == |v.stack| + Net(es[..1]);
      forall k | 0 <= k <= |es[1..]| ensures |next.stack| + Net(es[1..][..k]) >= 1 {
        assert es[..k + 1] == es[..1] + es[1..][..k];
        NetConcat(es[..1], es[1..][..k]);
      }
      OpenHides(next, key + 1, es[1..]);
      assert Lines(es)[1..] == Lines(es[1..]);
    }
  }

  /** So a delegation shows nothing at all while it is still running: of any strict prefix of its
      trail StepProgress renders the empty list. */
  lemma RunningDelegationIsInvisible(sub: SubAgent, k: nat)
    requires k < |TrailOf(sub)|
    ensures ReadAll(BLANK, 0, Lines(TrailOf(sub)[..k])).elements == []
  {
    hide Read, TrailOf, Net;
    var t := TrailOf(sub);
    if k > 0 {
      var es := t[1..k];
      ReadStart(sub);
      var v := Read(BLANK, 0, Parsed(t[0]));
      forall j | 0 <= j <= |es| ensures |v.stack| + Net(es[..j]) >= 1 { OpenAfter(sub, j, k); }
      OpenHides(v, 1, es);
      assert t[..k] == [t[0]] + es && ([t[0]] + es)[1..] == es;
      assert ReadAll(BLANK, 0, Lines([t[0]] + es)) == ReadAll(v, 1, Lines(es));
    }
  }

  /** Past its first line and before its last, a trail has its own delegation open. */
  lemma OpenAfter(sub: SubAgent, j: nat, k: nat)
    requires j + 1 <= k < |TrailOf(sub)|
    ensures Net(TrailOf(sub)[1..k][..j]) >= 0
  {
    hide TrailOf;
    var t := TrailOf(sub);
    TrailNested(sub);
    ReadStart(sub);
    var es := t[1..k];
    assert t[..j + 1] == t[..1] + es[..j];
    NetConcat(t[..1], es[..j]);
    assert t[..1][..0] == [] && t[..1][0] == t[0];
    assert Net(t[..1]) == 1;
  }

  lemma ReadStart(sub: SubAgent)
    ensures var v := Read(BLANK, 0, Parsed(TrailOf(sub)[0])); v.elements == [] && |v.stack| == 1
    ensures TrailOf(sub)[0].k == KStart
  {
    hide Clip;
  }
}
