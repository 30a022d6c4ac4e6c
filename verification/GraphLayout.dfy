/** layout of frontend/src/GraphTab.tsx: a breadth-first pass gives each node a depth, and the nodes
    of one depth are stacked in one column. */
module GraphLayout {

  datatype Edge = Edge(source: string, target: string)

  datatype Graph = Graph(nodes: seq<string>, edges: seq<Edge>)

  datatype Placed = Placed(id: string, x: nat, y: nat)

  const NODE_W: nat := 168
  const NODE_H: nat := 26
  const COL_W: nat := 230
  const ROW_H: nat := 40

  // ----- Walks from the roots -----

  function Targets(edges: seq<Edge>, id: string): seq<string> {
    if edges == [] then []
    else (if edges[0].source == id then [edges[0].target] else []) + Targets(edges[1..], id)
  }

  function InDegree(edges: seq<Edge>, id: string): nat {
    if edges == [] then 0 else (if edges[0].target == id then 1 else 0) + InDegree(edges[1..], id)
  }

  predicate Root(g: Graph, id: string) { id in g.nodes && InDegree(g.edges, id) == 0 }

  /** An edge out of a known node. */
  predicate Leads(g: Graph, a: string, b: string) { a in g.nodes && b in Targets(g.edges, a) }

  predicate IsWalk(g: Graph, path: seq<string>) {
    path != [] && Root(g, path[0]) && forall i :: 0 <= i < |path| - 1 ==> Leads(g, path[i], path[i + 1])
  }

  /** Some walk of n edges goes from a root to the node. */
  ghost predicate HasWalk(g: Graph, id: string, n: nat) {
    exists path :: IsWalk(g, path) && |path| == n + 1 && path[n] == id
  }

  lemma RootWalk(g: Graph, id: string)
    requires Root(g, id)
    ensures HasWalk(g, id, 0)
  {
    assert IsWalk(g, [id]);
  }

  lemma LongerWalk(g: Graph, a: string, n: nat, b: string)
    requires HasWalk(g, a, n) && Leads(g, a, b)
    ensures HasWalk(g, b, n + 1)
  {
    var path :| IsWalk(g, path) && |path| == n + 1 && path[n] == a;
    assert IsWalk(g, path + [b]);
  }

  lemma {:induction false} SnocEdge(edges: seq<Edge>, e: Edge, id: string)
    ensures Targets(edges + [e], id) == Targets(edges, id) + (if e.source == id then [e.target] else [])
  {
    if edges == [] {
      assert edges + [e] == [e] && [e][1..] == [];
    } else {
      SnocEdge(edges[1..], e, id);
      assert (edges + [e])[1..] == edges[1..] + [e];
    }
  }

  lemma {:induction false} SnocDegree(edges: seq<Edge>, e: Edge, id: string)
    ensures InDegree(edges + [e], id) == InDegree(edges, id) + if e.target == id then 1 else 0
  {
    if edges == [] {
      assert edges + [e] == [e] && [e][1..] == [];
    } else {
      SnocDegree(edges[1..], e, id);
      assert (edges + [e])[1..] == edges[1..] + [e];
    }
  }

  lemma OneMoreEdge(edges: seq<Edge>, i: nat)
    requires i < |edges|
    ensures forall id :: Targets(edges[..i + 1], id) ==
                         Targets(edges[..i], id) + if edges[i].source == id then [edges[i].target] else []
    ensures forall id :: InDegree(edges[..i + 1], id) ==
                         InDegree(edges[..i], id) + if edges[i].target == id then 1 else 0
  {
    assert edges[..i + 1] == edges[..i] + [edges[i]];
    forall id
      ensures Targets(edges[..i + 1], id) ==
              Targets(edges[..i], id) + if edges[i].source == id then [edges[i].target] else []
      ensures InDegree(edges[..i + 1], id) == InDegree(edges[..i], id) + if edges[i].target == id then 1 else 0
    {
      SnocEdge(edges[..i], edges[i], id);
      SnocDegree(edges[..i], edges[i], id);
    }
  }

  /** What a breadth-first pass finds: exactly the nodes with a walk from a root, each with the
      length of one; and the end of an edge lies deeper than the length of some walk to its start. */
  ghost predicate Depths(g: Graph, depth: map<string, nat>) {
    && (forall id <- depth :: HasWalk(g, id, depth[id]))
    && (forall id, n: nat :: HasWalk(g, id, n) ==> id in depth)
    && (forall a, b :: a in depth && Leads(g, a, b) ==> b in depth && Deeper(g, a, depth[b]))
  }

  ghost predicate Deeper(g: Graph, a: string, d: nat) {
    exists m: nat :: HasWalk(g, a, m) && d > m
  }

  // ----- The breadth-first pass -----

  /** The tables after some of the edges. */
  ghost predicate Tabled(g: Graph, edges: seq<Edge>, incoming: map<string, nat>, children: map<string, seq<string>>) {
    && incoming.Keys == children.Keys == (set id <- g.nodes)
    && forall id <- incoming :: incoming[id] == InDegree(edges, id) && children[id] == Targets(edges, id)
  }

  method Tables(g: Graph) returns (incoming: map<string, nat>, children: map<string, seq<string>>)
    ensures Tabled(g, g.edges, incoming, children)
  {
    incoming, children := map[], map[];
    for i := 0 to |g.nodes|
      invariant incoming.Keys == children.Keys == (set id <- g.nodes[..i])
      invariant forall id <- incoming :: incoming[id] == 0 && children[id] == []
    {
      assert g.nodes[..i + 1] == g.nodes[..i] + [g.nodes[i]];
      incoming := incoming[g.nodes[i] := 0];
      children := children[g.nodes[i] := []];
    }
    assert g.nodes[..|g.nodes|] == g.nodes;
    for i := 0 to |g.edges|
      invariant Tabled(g, g.edges[..i], incoming, children)
    {
      hide InDegree, Targets, Tabled;
      var e := g.edges[i];
      EdgeTabled(g, i, incoming, children);
      if e.source in children { children := children[e.source := children[e.source] + [e.target]]; }
      if e.target in incoming { incoming := incoming[e.target := incoming[e.target] + 1]; }
    }
    assert g.edges[..|g.edges|] == g.edges;
  }

  lemma EdgeTabled(g: Graph, i: nat, incoming: map<string, nat>, children: map<string, seq<string>>)
    requires i < |g.edges| && Tabled(g, g.edges[..i], incoming, children)
    ensures var e := g.edges[i];
            Tabled(g, g.edges[..i + 1],
                   if e.target in incoming then incoming[e.target := incoming[e.target] + 1] else incoming,
                   if e.source in children then children[e.source := children[e.source] + [e.target]] else children)
  {
    hide InDegree, Targets;
    OneMoreEdge(g.edges, i);
  }

  /** The state of the pass: `seen` nodes have a depth, roots among them; those not in the queue
      have been expanded. */
  ghost predicate Exploring(g: Graph, depth: map<string, nat>, seen: set<string>, queue: seq<string>) {
    && seen == depth.Keys
    && (forall id <- queue :: id in seen)
    && (forall id <- depth :: HasWalk(g, id, depth[id]))
    && (forall id :: Root(g, id) ==> id in seen)
    && (forall a :: a in seen && a !in queue ==> Expanded(g, a, depth, |Targets(g.edges, a)|))
  }

  /** The first k children of a have been reached. */
  ghost predicate Expanded(g: Graph, a: string, depth: map<string, nat>, k: nat) {
    a in g.nodes && k <= |Targets(g.edges, a)| ==>
      forall i :: 0 <= i < k ==> Targets(g.edges, a)[i] in depth && Deeper(g, a, depth[Targets(g.edges, a)[i]])
  }

  // ----- First in, first out -----

  function TargetsOf(g: Graph, id: string): seq<string> { if id in g.nodes then Targets(g.edges, id) else [] }

  function RootList(g: Graph, nodes: seq<string>): seq<string> {
    if nodes == [] then []
    else
      var id := nodes[|nodes| - 1];
      RootList(g, nodes[..|nodes| - 1]) + if InDegree(g.edges, id) == 0 then [id] else []
  }

  /** The ids that are not known yet, each at its first place. */
  function NewIn(ids: seq<string>, known: set<string>): seq<string> {
    if ids == [] then []
    else
      var before, id := NewIn(ids[..|ids| - 1], known), ids[|ids| - 1];
      if id in known || id in before then before else before + [id]
  }

  /** The depths after an edge from id to each of these. */
  function Raised(depth: map<string, nat>, id: string, targets: seq<string>): map<string, nat> {
    if targets == [] then depth
    else
      var before, c := Raised(depth, id, targets[..|targets| - 1]), targets[|targets| - 1];
      before[c := Larger(DepthOf(before, c), DepthOf(before, id) + 1)]
  }

  function Larger(a: nat, b: nat): nat { if a > b then a else b }

  /** All that has been put into the queue when these nodes have been expanded, in this order. */
  function FoundBy(g: Graph, done: seq<string>): seq<string> {
    if done == [] then RootList(g, g.nodes)
    else
      var before := FoundBy(g, done[..|done| - 1]);
      before + NewIn(TargetsOf(g, done[|done| - 1]), set id <- before)
  }

  function DepthsBy(g: Graph, done: seq<string>): map<string, nat> {
    if done == [] then map id <- RootList(g, g.nodes) :: 0
    else
      Raised(DepthsBy(g, done[..|done| - 1]), done[|done| - 1], TargetsOf(g, done[|done| - 1]))
  }

  /** The nodes are expanded in the order in which they were found: the roots as they are listed, then what
      the first of them leads to and was not known, then the same for the second, and so on to the end. */
  predicate QueueOrder(g: Graph, order: seq<string>) {
    && (forall k :: 0 <= k < |order| ==> NextFound(g, order, k))
    && |FoundBy(g, order)| == |order|
  }

  predicate NextFound(g: Graph, order: seq<string>, k: nat)
    requires k < |order|
  {
    k < |FoundBy(g, order[..k])| && order[k] == FoundBy(g, order[..k])[k]
  }

  /** There is one such order only, so one outcome. */
  lemma QueueOrderIsUnique(g: Graph, a: seq<string>, b: seq<string>)
    requires QueueOrder(g, a) && QueueOrder(g, b)
    ensures a == b
  {
    var k := if |a| <= |b| then |a| else |b|;
    SameFront(g, a, b, k);
    GoesOn(g, a, k);
    GoesOn(g, b, k);
    assert a[..|a|] == a && b[..|b|] == b;
  }

  lemma GoesOn(g: Graph, order: seq<string>, k: nat)
    requires QueueOrder(g, order) && k <= |order|
    ensures |FoundBy(g, order[..k])| > k <==> k < |order|
  {
    hide FoundBy;
    if k < |order| { assert NextFound(g, order, k); } else { assert order[..k] == order; }
  }

  lemma {:induction false} SameFront(g: Graph, a: seq<string>, b: seq<string>, k: nat)
    requires QueueOrder(g, a) && QueueOrder(g, b) && k <= |a| && k <= |b|
    ensures a[..k] == b[..k]
  {
    hide FoundBy;
    if k > 0 {
      SameFront(g, a, b, k - 1);
      assert NextFound(g, a, k - 1) && NextFound(g, b, k - 1);
      assert a[..k] == a[..k - 1] + [a[k - 1]] && b[..k] == b[..k - 1] + [b[k - 1]];
    }
  }

  method Explore(g: Graph) returns (depth: map<string, nat>)
    ensures Depths(g, depth)
    ensures exists order :: QueueOrder(g, order) && depth == DepthsBy(g, order)
  {
    hide Exploring, Depths, Targets, Tabled, FoundBy, DepthsBy, TargetsOf, NextFound, NewIn, Raised;
    var incoming, children := Tables(g);
    var queue, seen;
    queue, depth, seen := Roots(g, incoming, children);
    ghost var universe := (set id <- g.nodes) + (set e <- g.edges :: e.target);
    ghost var done: seq<string> := [];
    assert [] + queue == queue;

    while |queue| > 0
      invariant Exploring(g, depth, seen, queue)
      invariant seen <= universe
      invariant done + queue == FoundBy(g, done) && depth == DepthsBy(g, done) && seen == (set id <- FoundBy(g, done))
      invariant forall k :: 0 <= k < |done| ==> NextFound(g, done, k)
      decreases universe - seen, |queue|
    {
      ghost var seen0, queue0, depth0 := seen, queue, depth;
      var id := queue[0];
      queue := queue[1..];
      assert queue0 == [id] + queue;
      TabledTargets(g, incoming, children, id);
      QueuedIsSeen(g, depth, seen, queue0);
      var targets := if id in children then children[id] else [];
      ghost var rest := queue;
      depth, seen, queue := Expand(g, id, targets, depth, seen, queue, universe);
      assert seen0 <= seen;
      OneMoreExpanded(g, done, id, rest, depth0);
      OneMoreNext(g, done, id);
      done := done + [id];
    }
    Closed(g, depth, seen, queue);
    assert done + queue == done;
  }

  lemma OneMoreNext(g: Graph, done: seq<string>, id: string)
    requires (forall k :: 0 <= k < |done| ==> NextFound(g, done, k))
    requires |done| < |FoundBy(g, done)| && FoundBy(g, done)[|done|] == id
    ensures forall k :: 0 <= k < |done + [id]| ==> NextFound(g, done + [id], k)
  {
    hide FoundBy;
    forall k | 0 <= k < |done + [id]| ensures NextFound(g, done + [id], k) {
      assert (done + [id])[..k] == done[..k];
      if k < |done| { assert NextFound(g, done, k); } else { assert done[..k] == done; }
    }
  }

  lemma OneMoreExpanded(g: Graph, done: seq<string>, id: string, rest: seq<string>, depth: map<string, nat>)
    requires done + ([id] + rest) == FoundBy(g, done) && depth == DepthsBy(g, done)
    ensures var known := set x <- FoundBy(g, done);
      && done + [id] + (rest + NewIn(TargetsOf(g, id), known)) == FoundBy(g, done + [id])
      && DepthsBy(g, done + [id]) == Raised(depth, id, TargetsOf(g, id))
      && (set x <- FoundBy(g, done + [id])) == known + set x <- NewIn(TargetsOf(g, id), known)
  {
    hide NewIn, TargetsOf, Raised, RootList;
    assert (done + [id])[..|done + [id]| - 1] == done;
  }

  lemma QueuedIsSeen(g: Graph, depth: map<string, nat>, seen: set<string>, queue: seq<string>)
    requires Exploring(g, depth, seen, queue)
    ensures forall id <- queue :: id in seen
  {
  }

  lemma TabledTargets(g: Graph, incoming: map<string, nat>, children: map<string, seq<string>>, id: string)
    requires Tabled(g, g.edges, incoming, children)
    ensures (if id in children then children[id] else []) == TargetsOf(g, id)
  {
  }

  /** The queue starts with the roots, at depth 0. */
  method Roots(g: Graph, incoming: map<string, nat>, ghost children: map<string, seq<string>>)
    returns (queue: seq<string>, depth: map<string, nat>, seen: set<string>)
    requires Tabled(g, g.edges, incoming, children)
    ensures Exploring(g, depth, seen, queue) && seen <= (set id <- g.nodes)
    ensures queue == FoundBy(g, []) && depth == DepthsBy(g, []) && seen == (set id <- queue)
  {
    hide HasWalk, Root, Targets, InDegree, Expanded;
    queue := [];
    for i := 0 to |g.nodes|
      invariant forall id :: id in queue <==> id in g.nodes[..i] && incoming[id] == 0
      invariant queue == RootList(g, g.nodes[..i])
    {
      assert g.nodes[..i + 1] == g.nodes[..i] + [g.nodes[i]];
      assert g.nodes[..i + 1][..i] == g.nodes[..i];
      if incoming[g.nodes[i]] == 0 { queue := queue + [g.nodes[i]]; }
    }
    assert g.nodes[..|g.nodes|] == g.nodes;
    depth := ZeroDepths(queue);
    seen := set id <- queue;
    RootsQueued(g, incoming, queue);
    RootsKnown(g, queue);
  }

  method ZeroDepths(queue: seq<string>) returns (depth: map<string, nat>)
    ensures depth.Keys == (set id <- queue) && forall id <- depth :: depth[id] == 0
  {
    depth := map[];
    for i := 0 to |queue|
      invariant depth.Keys == (set id <- queue[..i])
      invariant forall id <- depth :: depth[id] == 0
    {
      assert queue[..i + 1] == queue[..i] + [queue[i]];
      depth := depth[queue[i] := 0];
    }
    assert queue[..|queue|] == queue;
  }

  lemma RootsQueued(g: Graph, incoming: map<string, nat>, queue: seq<string>)
    requires incoming.Keys == (set id <- g.nodes) && forall id <- incoming :: incoming[id] == InDegree(g.edges, id)
    requires forall id :: id in queue <==> id in g.nodes && incoming[id] == 0
    ensures forall id :: id in queue <==> Root(g, id)
    ensures forall id <- queue :: HasWalk(g, id, 0)
  {
    forall id | id in queue ensures HasWalk(g, id, 0) { RootWalk(g, id); }
  }

  lemma RootsKnown(g: Graph, queue: seq<string>)
    requires forall id :: id in queue <==> Root(g, id)
    ensures (set id <- queue) <= (set id <- g.nodes)
  {
  }

  /** The inner loop: the children of one node. */
  method Expand(g: Graph, id: string, targets: seq<string>, depth0: map<string, nat>, seen0: set<string>,
                queue0: seq<string>,
                ghost universe: set<string>)
    returns (depth: map<string, nat>, seen: set<string>, queue: seq<string>)
    requires Exploring(g, depth0, seen0, [id] + queue0) && id in seen0
    requires targets == TargetsOf(g, id)
    requires seen0 <= universe && forall e <- g.edges :: e.target in universe
    ensures Exploring(g, depth, seen, queue)
    ensures seen0 <= seen <= universe
    ensures seen == seen0 ==> queue == queue0
    ensures Reached(depth0, id, targets, seen0, queue0, depth, seen, queue)
  {
    hide HasWalk, Deeper, Root, Targets, Leads, Expanded, Reached;
    NoneExpanded(g, id, depth0);
    NothingReached(depth0, id, seen0, queue0);
    depth, seen, queue := depth0, seen0, queue0;
    for i := 0 to |targets|
      invariant Exploring(g, depth, seen, [id] + queue)
      invariant seen0 <= seen <= universe
      invariant seen == seen0 ==> queue == queue0
      invariant Expanded(g, id, depth, i)
      invariant Reached(depth0, id, targets[..i], seen0, queue0, depth, seen, queue)
    {
      var c := targets[i];
      TargetsAreTargets(g.edges, id);
      assert c in targets && id in g.nodes;
      var d := depth[id] + 1;
      OneMoreReached(depth0, id, targets, i, seen0, queue0, depth, seen, queue);
      ReachChild(g, id, i, depth, seen, queue);
      depth := depth[c := if c in depth && depth[c] > d then depth[c] else d];
      if c !in seen {
        seen := seen + {c};
        queue := queue + [c];
      }
    }
    assert targets[..|targets|] == targets;
    LastChild(g, id, depth, seen, queue);
  }

  lemma LastChild(g: Graph, id: string, depth: map<string, nat>, seen: set<string>, queue: seq<string>)
    requires Exploring(g, depth, seen, [id] + queue)
    requires Expanded(g, id, depth, |TargetsOf(g, id)|)
    ensures Exploring(g, depth, seen, queue)
  {
    hide HasWalk, Deeper, Root, Leads, Expanded;
    NoneExpanded(g, id, depth);
    forall a | a in seen && a !in queue ensures Expanded(g, a, depth, |Targets(g.edges, a)|) {
      if a != id { assert a !in [id] + queue; }
    }
  }

  /** These children have been reached: their depths raised, the new ones queued and known. */
  predicate Reached(depth0: map<string, nat>, id: string, targets: seq<string>, seen0: set<string>, queue0: seq<string>,
                    depth: map<string, nat>, seen: set<string>, queue: seq<string>) {
    && depth == Raised(depth0, id, targets)
    && queue == queue0 + NewIn(targets, seen0)
    && seen == seen0 + set x <- NewIn(targets, seen0)
  }

  lemma NothingReached(depth: map<string, nat>, id: string, seen: set<string>, queue: seq<string>)
    ensures Reached(depth, id, [], seen, queue, depth, seen, queue)
  {
  }

  lemma OneMoreReached(depth0: map<string, nat>, id: string, targets: seq<string>, i: nat, seen0: set<string>,
                       queue0: seq<string>, depth: map<string, nat>, seen: set<string>, queue: seq<string>)
    requires i < |targets| && Reached(depth0, id, targets[..i], seen0, queue0, depth, seen, queue) && id in depth
    ensures var c, d := targets[i], depth[id] + 1;
      Reached(depth0, id, targets[..i + 1], seen0, queue0,
              depth[c := if c in depth && depth[c] > d then depth[c] else d],
              if c in seen then seen else seen + {c}, if c in seen then queue else queue + [c])
  {
    OneMoreTarget(depth0, id, targets, i, seen0);
    hide Raised, NewIn;
  }

  lemma OneMoreTarget(depth: map<string, nat>, id: string, targets: seq<string>, i: nat, known: set<string>)
    requires i < |targets|
    ensures var before, c := Raised(depth, id, targets[..i]), targets[i];
      Raised(depth, id, targets[..i + 1]) == before[c := Larger(DepthOf(before, c), DepthOf(before, id) + 1)]
    ensures var before, c := NewIn(targets[..i], known), targets[i];
      NewIn(targets[..i + 1], known) == if c in known || c in before then before else before + [c]
  {
    assert targets[..i + 1][..i] == targets[..i];
  }

  lemma NoneExpanded(g: Graph, a: string, depth: map<string, nat>)
    ensures Expanded(g, a, depth, 0)
    ensures a !in g.nodes ==> Expanded(g, a, depth, |Targets(g.edges, a)|)
  {
  }

  lemma ExpandedMore(g: Graph, a: string, i: nat, depth: map<string, nat>)
    requires i < |Targets(g.edges, a)| && Expanded(g, a, depth, i)
    requires Targets(g.edges, a)[i] in depth && Deeper(g, a, depth[Targets(g.edges, a)[i]])
    ensures Expanded(g, a, depth, i + 1)
  {
    hide Deeper, Targets;
  }

  /** One turn of the inner loop keeps the state of the pass. */
  lemma ReachChild(g: Graph, id: string, i: nat, depth: map<string, nat>, seen: set<string>, queue: seq<string>)
    requires Exploring(g, depth, seen, [id] + queue) && id in g.nodes
    requires i < |Targets(g.edges, id)| && Expanded(g, id, depth, i)
    ensures var c, d := Targets(g.edges, id)[i], depth[id] + 1;
            var depth' := depth[c := if c in depth && depth[c] > d then depth[c] else d];
            && Exploring(g, depth', seen + {c}, [id] + if c in seen then queue else queue + [c])
            && Expanded(g, id, depth', i + 1)
  {
    hide HasWalk, Deeper, Root, Targets, Leads, Expanded;
    var c, d := Targets(g.edges, id)[i], depth[id] + 1;
    var depth' := depth[c := if c in depth && depth[c] > d then depth[c] else d];
    ChildWalk(g, id, depth[id], c);
    StaysExpanded(g, depth, depth');
    DeeperNow(g, id, depth[id], depth'[c]);
    ExpandedMore(g, id, i, depth');
    QueueGrows(id, queue, c);
    if c !in seen {
      StillExpanded(g, depth', seen, [id] + queue, [id] + (queue + [c]), c);
    }
  }

  lemma QueueGrows(id: string, queue: seq<string>, c: string)
    ensures forall a :: a in [id] + (queue + [c]) <==> a in [id] + queue || a == c
  {
  }

  lemma StillExpanded(g: Graph, depth: map<string, nat>, seen: set<string>, queue: seq<string>, queue': seq<string>,
                      c: string)
    requires forall a :: a in seen && a !in queue ==> Expanded(g, a, depth, |Targets(g.edges, a)|)
    requires forall a :: a in queue' <==> a in queue || a == c
    ensures forall a :: a in seen + {c} && a !in queue' ==> Expanded(g, a, depth, |Targets(g.edges, a)|)
  {
    hide Expanded;
  }

  lemma {:induction false} TargetsAreTargets(edges: seq<Edge>, id: string)
    ensures forall t <- Targets(edges, id) :: exists e <- edges :: e.source == id && e.target == t
  {
    if edges != [] {
      TargetsAreTargets(edges[1..], id);
      assert edges[0] in edges;
      forall t | t in Targets(edges, id) ensures exists e <- edges :: e.source == id && e.target == t {
        if t in Targets(edges[1..], id) {
          var e :| e in edges[1..] && e.source == id && e.target == t;
          assert e in edges;
        }
      }
    }
  }

  lemma ChildWalk(g: Graph, a: string, n: nat, c: string)
    requires a in g.nodes && HasWalk(g, a, n) && c in Targets(g.edges, a)
    ensures HasWalk(g, c, n + 1)
  {
    assert Leads(g, a, c);
    LongerWalk(g, a, n, c);
  }

  lemma DeeperNow(g: Graph, a: string, n: nat, d: nat)
    requires HasWalk(g, a, n) && d >= n + 1
    ensures Deeper(g, a, d)
  {
  }

  lemma StaysExpanded(g: Graph, before: map<string, nat>, after: map<string, nat>)
    requires before.Keys <= after.Keys && forall id <- before :: before[id] <= after[id]
    ensures forall a, k: nat :: Expanded(g, a, before, k) ==> Expanded(g, a, after, k)
  {
    hide HasWalk, Targets;
  }

  lemma EndIsDeeper(g: Graph, a: string, b: string, depth: map<string, nat>)
    requires Expanded(g, a, depth, |Targets(g.edges, a)|) && Leads(g, a, b)
    ensures b in depth && Deeper(g, a, depth[b])
  {
    hide Deeper, Targets;
    var i :| 0 <= i < |Targets(g.edges, a)| && Targets(g.edges, a)[i] == b;
  }

  lemma Closed(g: Graph, depth: map<string, nat>, seen: set<string>, queue: seq<string>)
    requires Exploring(g, depth, seen, queue) && queue == []
    ensures Depths(g, depth)
  {
    hide Deeper, Leads, Root, HasWalk, Expanded;
    forall a, b | a in depth && Leads(g, a, b) ensures b in depth && Deeper(g, a, depth[b]) {
      assert a !in queue;
      EndIsDeeper(g, a, b, depth);
    }
    WalkedIsReached(g, depth);
  }

  lemma WalkedIsReached(g: Graph, depth: map<string, nat>)
    requires forall id :: Root(g, id) ==> id in depth
    requires forall a, b :: a in depth && Leads(g, a, b) ==> b in depth
    ensures forall id, n: nat :: HasWalk(g, id, n) ==> id in depth
  {
    hide Root, Leads;
    forall id, n: nat | HasWalk(g, id, n) ensures id in depth {
      var path :| IsWalk(g, path) && |path| == n + 1 && path[n] == id;
      WalkStays(g, depth, path, n);
    }
  }

  lemma {:induction false} WalkStays(g: Graph, depth: map<string, nat>, path: seq<string>, n: nat)
    requires IsWalk(g, path) && n < |path|
    requires forall id :: Root(g, id) ==> id in depth
    requires forall a, b :: a in depth && Leads(g, a, b) ==> b in depth
    ensures path[n] in depth
  {
    if n > 0 {
      WalkStays(g, depth, path, n - 1);
      assert Leads(g, path[n - 1], path[n]);
    }
  }

  // ----- Placement -----

  function DepthOf(depth: map<string, nat>, id: string): nat { if id in depth then depth[id] else 0 }

  /** How many of the nodes have this depth. */
  function Rows(nodes: seq<string>, depth: map<string, nat>, d: nat): nat {
    if nodes == [] then 0
    else Rows(nodes[..|nodes| - 1], depth, d) + if DepthOf(depth, nodes[|nodes| - 1]) == d then 1 else 0
  }

  /** Node i stands in the column of its depth, below the earlier nodes of that depth. */
  ghost predicate Stands(g: Graph, depth: map<string, nat>, placed: seq<Placed>, i: nat)
    requires i < |placed| && i < |g.nodes|
  {
    var d: nat := DepthOf(depth, g.nodes[i]);
    placed[i] == Placed(g.nodes[i], 20 + d * COL_W, 20 + Rows(g.nodes[..i], depth, d) * ROW_H)
  }

  lemma NoRows(depth: map<string, nat>)
    ensures forall d: nat :: Rows([], depth, d) == 0
  {
  }

  lemma OneMoreRow(nodes: seq<string>, depth: map<string, nat>, i: nat)
    requires i < |nodes|
    ensures forall d: nat :: Rows(nodes[..i + 1], depth, d) ==
                             Rows(nodes[..i], depth, d) + if DepthOf(depth, nodes[i]) == d then 1 else 0
  {
    assert nodes[..i + 1][..i] == nodes[..i];
  }

  method Layout(g: Graph) returns (placed: seq<Placed>, byId: map<string, Placed>, depth: map<string, nat>)
    ensures Depths(g, depth) && exists order :: QueueOrder(g, order) && depth == DepthsBy(g, order)
    ensures |placed| == |g.nodes| && forall i :: 0 <= i < |placed| ==> Stands(g, depth, placed, i)
    ensures byId.Keys == (set id <- g.nodes) && forall id <- byId :: byId[id] in placed && byId[id].id == id
  {
    hide Depths, Rows, DepthOf;
    depth := Explore(g);
    NoRows(depth);
    var perDepth: map<nat, nat> := map[];
    placed := [];
    for i := 0 to |g.nodes|
      invariant |placed| == i
      invariant forall j :: 0 <= j < i ==> Stands(g, depth, placed, j)
      invariant forall d: nat :: Rows(g.nodes[..i], depth, d) == if d in perDepth then perDepth[d] else 0
    {
      OneMoreRow(g.nodes, depth, i);
      var d: nat := DepthOf(depth, g.nodes[i]);
      var row: nat := if d in perDepth then perDepth[d] else 0;
      perDepth := perDepth[d := row + 1];
      ghost var before := placed;
      placed := placed + [Placed(g.nodes[i], 20 + d * COL_W, 20 + row * ROW_H)];
      forall j | 0 <= j < i + 1 ensures Stands(g, depth, placed, j) {
        if j < i { assert Stands(g, depth, before, j); }
      }
    }
    byId := map[];
    for i := 0 to |placed|
      invariant byId.Keys == (set id <- g.nodes[..i])
      invariant forall id <- byId :: byId[id] in placed && byId[id].id == id
    {
      assert Stands(g, depth, placed, i) && placed[i].id == g.nodes[i];
      assert g.nodes[..i + 1] == g.nodes[..i] + [g.nodes[i]];
      byId := byId[placed[i].id := placed[i]];
    }
    assert g.nodes[..|g.nodes|] == g.nodes;
  }

  predicate Overlap(p: Placed, q: Placed) {
    p.x < q.x + NODE_W && q.x < p.x + NODE_W && p.y < q.y + NODE_H && q.y < p.y + NODE_H
  }

  lemma {:induction false} RowsGrow(nodes: seq<string>, depth: map<string, nat>, i: nat, j: nat)
    requires i < j <= |nodes|
    ensures Rows(nodes[..i], depth, DepthOf(depth, nodes[i])) < Rows(nodes[..j], depth, DepthOf(depth, nodes[i]))
    decreases j
  {
    assert nodes[..j][..j - 1] == nodes[..j - 1];
    if i < j - 1 {
      RowsGrow(nodes, depth, i, j - 1);
    }
  }

  /** Whatever the depths are, no two of the placed rectangles overlap. */
  lemma NoOverlap(g: Graph, depth: map<string, nat>, placed: seq<Placed>, i: nat, j: nat)
    requires |placed| == |g.nodes| && i < j < |placed|
    requires Stands(g, depth, placed, i) && Stands(g, depth, placed, j)
    ensures !Overlap(placed[i], placed[j])
  {
    var d, e := DepthOf(depth, g.nodes[i]), DepthOf(depth, g.nodes[j]);
    if d == e {
      RowsGrow(g.nodes, depth, i, j);
    } else if d < e {
      assert e * COL_W >= (d + 1) * COL_W;
    } else {
      assert d * COL_W >= (e + 1) * COL_W;
    }
  }

  // ----- Forests -----

  /** No two edges end at the same node. */
  ghost predicate Forest(g: Graph) {
    forall i, j :: 0 <= i < j < |g.edges| ==> g.edges[i].target != g.edges[j].target
  }

  lemma {:induction false} NoInEdge(edges: seq<Edge>, id: string)
    requires InDegree(edges, id) == 0
    ensures forall e <- edges :: e.target != id
  {
    if edges != [] {
      NoInEdge(edges[1..], id);
      assert edges == [edges[0]] + edges[1..];
    }
  }

  lemma {:induction false} OneLength(g: Graph, p: seq<string>, q: seq<string>)
    requires Forest(g) && IsWalk(g, p) && IsWalk(g, q) && p[|p| - 1] == q[|q| - 1]
    ensures |p| == |q|
    decreases |p|
  {
    hide InDegree, Targets, Forest;
    var id, m, n := p[|p| - 1], |p| - 1, |q| - 1;
    if m > 0 { InEdge(g, p[m - 1], id); }
    if n > 0 { InEdge(g, q[n - 1], id); }
    if m == 0 || n == 0 {
      NoInEdge(g.edges, id);
    } else {
      SameStart(g, p[m - 1], q[n - 1], id);
      OneLength(g, p[..m], q[..n]);
    }
  }

  lemma InEdge(g: Graph, a: string, b: string)
    requires Leads(g, a, b)
    ensures exists e <- g.edges :: e.source == a && e.target == b
  {
    TargetsAreTargets(g.edges, a);
  }

  lemma SameStart(g: Graph, a: string, b: string, id: string)
    requires Forest(g)
    requires exists e <- g.edges :: e.source == a && e.target == id
    requires exists e <- g.edges :: e.source == b && e.target == id
    ensures a == b
  {
    var e :| e in g.edges && e.source == a && e.target == id;
    var f :| f in g.edges && f.source == b && f.target == id;
    var i :| 0 <= i < |g.edges| && g.edges[i] == e;
    var j :| 0 <= j < |g.edges| && g.edges[j] == f;
    assert i == j;
  }

  /** On a forest the depth of every node that a root reaches is its exact distance. */
  lemma ForestDepthsExact(g: Graph, depth: map<string, nat>, id: string, n: nat)
    requires Forest(g) && Depths(g, depth)
    ensures HasWalk(g, id, n) <==> id in depth && depth[id] == n
  {
    hide Forest;
    if HasWalk(g, id, n) {
      assert HasWalk(g, id, depth[id]);
      var p :| IsWalk(g, p) && |p| == n + 1 && p[n] == id;
      var q :| IsWalk(g, q) && |q| == depth[id] + 1 && q[depth[id]] == id;
      OneLength(g, p, q);
    }
  }
}
