/** Bounded delegation under concurrency: R root delegations run at once, each a chain of nested
    sub-agents (a Loop runs one tool call at a time), and every live sub-agent holds one slot of the
    process-wide semaphore until it returns (pkg/analyst/delegate.go). Steps of the chains interleave
    in any order. */
module Semaphore {

  type Positive = n: nat | n > 0 witness 1

  /** The semaphore's size, the delegation depth cap and a sub-agent's step cap. */
  datatype Limits = Limits(cap: Positive, depth: Positive, steps: Positive)

  /** The live sub-agents of one root delegation, outermost first, each with the completions it may
      still ask for; waiting when the innermost one (or the root call itself) has called Delegate
      and has no slot for it yet. */
  datatype Chain = Chain(frames: seq<nat>, waiting: bool)

  datatype State = State(chains: seq<Chain>, slots: nat)

  datatype Action =
    | Acquire // take a free slot and start the sub-agent
    | Cancel  // the context ends while waiting: Delegate returns an error to its caller
    | Work    // a completion, and a tool turn that starts no sub-agent
    | Ask     // a completion, and a call of Delegate
    | Answer  // a completion that ends the sub-agent, by answer or by error
    | Stop    // the step cap ends the sub-agent

  function Opening(roots: nat): State { State(seq(roots, _ => Chain([], true)), 0) }

  predicate Finished(c: Chain) { c.frames == [] && !c.waiting }

  predicate AllFinished(s: State) { forall c <- s.chains :: Finished(c) }

  predicate Enabled(l: Limits, s: State, i: nat, a: Action) {
    && i < |s.chains|
    && var c := s.chains[i];
    match a
    case Acquire => c.waiting && s.slots < l.cap
    case Cancel => c.waiting
    case Work | Answer => !c.waiting && c.frames != [] && Top(c) > 0
    case Ask => !c.waiting && c.frames != [] && Top(c) > 0 && |c.frames| < l.depth
    case Stop => !c.waiting && c.frames != [] && Top(c) == 0
  }

  function Top(c: Chain): nat
    requires c.frames != []
  {
    c.frames[|c.frames| - 1]
  }

  function Spend(c: Chain): seq<nat>
    requires c.frames != [] && Top(c) > 0
  {
    c.frames[|c.frames| - 1 := Top(c) - 1]
  }

  function Moved(l: Limits, c: Chain, a: Action): Chain
    requires a.Work? || a.Ask? ==> c.frames != [] && Top(c) > 0
    requires a.Answer? || a.Stop? ==> c.frames != []
  {
    match a
    case Acquire => Chain(c.frames + [l.steps], false)
    case Cancel => Chain(c.frames, false)
    case Work => Chain(Spend(c), false)
    case Ask => Chain(Spend(c), true)
    case Answer | Stop => Chain(c.frames[..|c.frames| - 1], false)
  }

  function Next(l: Limits, s: State, i: nat, a: Action): State
    requires Enabled(l, s, i, a) && (a.Answer? || a.Stop? ==> s.slots > 0)
  {
    State(s.chains[i := Moved(l, s.chains[i], a)],
          if a.Acquire? then s.slots + 1 else if a.Answer? || a.Stop? then s.slots - 1 else s.slots)
  }

  // ----- The invariant: slots in use are exactly the live sub-agents -----

  function Live(chains: seq<Chain>): nat {
    if chains == [] then 0 else |chains[0].frames| + Live(chains[1..])
  }

  predicate Bounded(l: Limits, c: Chain) {
    |c.frames| <= l.depth && (c.waiting ==> |c.frames| < l.depth) && forall t <- c.frames :: t <= l.steps
  }

  predicate Inv(l: Limits, s: State) {
    s.slots == Live(s.chains) <= l.cap && forall c <- s.chains :: Bounded(l, c)
  }

  lemma {:induction false} LiveUpdate(chains: seq<Chain>, i: nat, c: Chain)
    requires i < |chains|
    ensures Live(chains[i := c]) + |chains[i].frames| == Live(chains) + |c.frames|
    ensures |chains[i].frames| <= Live(chains)
  {
    if i == 0 {
      assert chains[0 := c][1..] == chains[1..];
    } else {
      LiveUpdate(chains[1..], i - 1, c);
      assert chains[i := c][1..] == chains[1..][i - 1 := c];
    }
  }

  /** A step is always possible where it is enabled (the slot it gives back is held), and keeps the
      slots equal to the live sub-agents, within the semaphore's size and the depth cap. */
  lemma StepKeeps(l: Limits, s: State, i: nat, a: Action)
    requires Inv(l, s) && Enabled(l, s, i, a)
    ensures a.Answer? || a.Stop? ==> s.slots > 0
    ensures Inv(l, Next(l, s, i, a))
  {
    var c := s.chains[i];
    var c' := Moved(l, c, a);
    LiveUpdate(s.chains, i, c');
    assert Bounded(l, c);
    forall t | t in c'.frames ensures t <= l.steps {
      var k :| 0 <= k < |c'.frames| && c'.frames[k] == t;
      if k < |c.frames| { assert c.frames[k] in c.frames; }
    }
    assert Bounded(l, c');
    var s' := Next(l, s, i, a);
    forall d | d in s'.chains ensures Bounded(l, d) {
      var j :| 0 <= j < |s'.chains| && s'.chains[j] == d;
      if j != i { assert s.chains[j] == d; }
    }
  }

  // ----- Runs -----

  datatype Move = Move(chain: nat, action: Action)

  ghost predicate IsRun(l: Limits, s: State, moves: seq<Move>)
    requires Inv(l, s)
    decreases |moves|
  {
    moves == [] ||
    (Enabled(l, s, moves[0].chain, moves[0].action)
     && (StepKeeps(l, s, moves[0].chain, moves[0].action);
         IsRun(l, Next(l, s, moves[0].chain, moves[0].action), moves[1..])))
  }

  ghost function After(l: Limits, s: State, moves: seq<Move>): (s': State)
    requires Inv(l, s) && IsRun(l, s, moves)
    ensures Inv(l, s') && |s'.chains| == |s.chains|
    decreases |moves|
  {
    if moves == [] then s
    else
      StepKeeps(l, s, moves[0].chain, moves[0].action);
      After(l, Next(l, s, moves[0].chain, moves[0].action), moves[1..])
  }

  lemma {:induction false} OpeningInv(l: Limits, roots: nat)
    ensures Inv(l, Opening(roots))
  {
    if roots > 0 {
      OpeningInv(l, roots - 1);
      assert Opening(roots).chains[1..] == Opening(roots - 1).chains;
    }
  }

  /** Whatever the schedule: the slots in use are the live sub-agents, never more than the
      semaphore holds, and no chain is deeper than the depth cap. */
  lemma SlotsAreLiveAgents(l: Limits, roots: nat, moves: seq<Move>)
    requires Inv(l, Opening(roots)) && IsRun(l, Opening(roots), moves)
    ensures var s := After(l, Opening(roots), moves);
      s.slots == Live(s.chains) <= l.cap && forall c <- s.chains :: |c.frames| <= l.depth
  {
    var s := After(l, Opening(roots), moves);
    assert forall c <- s.chains :: Bounded(l, c);
  }

  // ----- Termination: every schedule is finite -----

  /** More than the steps that a sub-agent at depth d with t completions left, and everything it
      starts, can still take. */
  function Ahead(l: Limits, d: nat, t: nat): nat
    decreases if d < l.depth then l.depth - d else 0
  {
    1 + t * (if d < l.depth then 2 + Ahead(l, d + 1, l.steps) else 1)
  }

  function AheadOf(l: Limits, frames: seq<nat>): nat {
    if frames == [] then 0 else AheadOf(l, frames[..|frames| - 1]) + Ahead(l, |frames|, frames[|frames| - 1])
  }

  function ChainAhead(l: Limits, c: Chain): nat {
    AheadOf(l, c.frames) + if c.waiting then 1 + Ahead(l, |c.frames| + 1, l.steps) else 0
  }

  function StateAhead(l: Limits, chains: seq<Chain>): nat {
    if chains == [] then 0 else ChainAhead(l, chains[0]) + StateAhead(l, chains[1..])
  }

  lemma {:induction false} AheadUpdate(l: Limits, chains: seq<Chain>, i: nat, c: Chain)
    requires i < |chains|
    ensures StateAhead(l, chains[i := c]) + ChainAhead(l, chains[i]) == StateAhead(l, chains) + ChainAhead(l, c)
  {
    hide ChainAhead;
    if i == 0 {
      assert chains[0 := c][1..] == chains[1..];
    } else {
      AheadUpdate(l, chains[1..], i - 1, c);
      assert chains[i := c][1..] == chains[1..][i - 1 := c];
    }
  }

  lemma SpendAhead(l: Limits, d: nat, t: nat)
    requires t > 0
    ensures Ahead(l, d, t) == Ahead(l, d, t - 1) + if d < l.depth then 2 + Ahead(l, d + 1, l.steps) else 1
  {
  }

  /** The part of a chain's share that its frames but the innermost make up stays when only the
      innermost changes. */
  lemma Innermost(l: Limits, frames: seq<nat>, t: nat)
    requires frames != []
    ensures AheadOf(l, frames[|frames| - 1 := t]) == AheadOf(l, frames[..|frames| - 1]) + Ahead(l, |frames|, t)
    ensures AheadOf(l, frames + [t]) == AheadOf(l, frames) + Ahead(l, |frames| + 1, t)
  {
    hide Ahead;
    var n := |frames| - 1;
    assert frames[n := t][..n] == frames[..n];
    assert (frames + [t])[..n + 1] == frames;
  }

  /** Every action uses up some of what lies ahead of its chain. */
  lemma MovedUsesUp(l: Limits, c: Chain, a: Action)
    requires Bounded(l, c)
    requires a.Acquire? || a.Cancel? ==> c.waiting
    requires a.Work? || a.Ask? ==> !c.waiting && c.frames != [] && Top(c) > 0
    requires a.Ask? ==> |c.frames| < l.depth
    requires a.Answer? || a.Stop? ==> !c.waiting && c.frames != []
    ensures ChainAhead(l, Moved(l, c, a)) < ChainAhead(l, c)
  {
    hide Ahead, AheadOf;
    match a
    case Acquire => AcquireUses(l, c.frames);
    case Cancel =>
    case Work | Ask =>
      SpendAhead(l, |c.frames|, Top(c));
      Innermost(l, c.frames, Top(c));
      assert c.frames[|c.frames| - 1 := Top(c)] == c.frames;
      Innermost(l, c.frames, Top(c) - 1);
    case Answer | Stop =>
      Innermost(l, c.frames, Top(c));
      assert c.frames[|c.frames| - 1 := Top(c)] == c.frames;
      AheadPositive(l, |c.frames|, Top(c));
  }

  lemma AheadPositive(l: Limits, d: nat, t: nat)
    ensures Ahead(l, d, t) > 0
  {
  }

  lemma AcquireUses(l: Limits, frames: seq<nat>)
    ensures AheadOf(l, frames + [l.steps]) == AheadOf(l, frames) + Ahead(l, |frames| + 1, l.steps)
  {
    hide Ahead;
    assert (frames + [l.steps])[..|frames|] == frames;
  }

  /** Every step of a run uses up some of what lies ahead. */
  lemma StepUsesUp(l: Limits, s: State, i: nat, a: Action)
    requires Inv(l, s) && Enabled(l, s, i, a)
    ensures a.Answer? || a.Stop? ==> s.slots > 0
    ensures StateAhead(l, Next(l, s, i, a).chains) < StateAhead(l, s.chains)
  {
    hide ChainAhead, StateAhead, Moved;
    StepKeeps(l, s, i, a);
    var c := s.chains[i];
    assert Bounded(l, c);
    MovedUsesUp(l, c, a);
    AheadUpdate(l, s.chains, i, Moved(l, c, a));
  }

  lemma {:induction false} RunLength(l: Limits, s: State, moves: seq<Move>)
    requires Inv(l, s) && IsRun(l, s, moves)
    ensures |moves| + StateAhead(l, After(l, s, moves).chains) <= StateAhead(l, s.chains)
    decreases |moves|
  {
    if moves != [] {
      hide StateAhead, Moved, Enabled;
      StepKeeps(l, s, moves[0].chain, moves[0].action);
      StepUsesUp(l, s, moves[0].chain, moves[0].action);
      RunLength(l, Next(l, s, moves[0].chain, moves[0].action), moves[1..]);
    }
  }

  lemma {:induction false} OpeningAhead(l: Limits, roots: nat)
    ensures StateAhead(l, Opening(roots).chains) == roots * (1 + Ahead(l, 1, l.steps))
  {
    hide Ahead;
    if roots > 0 {
      OpeningAhead(l, roots - 1);
      assert Opening(roots).chains[1..] == Opening(roots - 1).chains;
      assert ChainAhead(l, Opening(roots).chains[0]) == 1 + Ahead(l, 1, l.steps);
    }
  }

  /** No schedule goes on for ever: its length is bounded by the limits and the number of roots. */
  lemma SchedulesTerminate(l: Limits, roots: nat, moves: seq<Move>)
    requires Inv(l, Opening(roots)) && IsRun(l, Opening(roots), moves)
    ensures |moves| <= roots * (1 + Ahead(l, 1, l.steps))
  {
    RunLength(l, Opening(roots), moves);
    OpeningAhead(l, roots);
  }

  // ----- Progress -----

  /** Something can move without a cancellation. */
  ghost predicate CanMove(l: Limits, s: State) { exists i, a: Action :: !a.Cancel? && Enabled(l, s, i, a) }

  ghost predicate Stuck(l: Limits, s: State) { !AllFinished(s) && !CanMove(l, s) }

  lemma {:induction false} LiveAtMost(chains: seq<Chain>, m: nat)
    requires forall c <- chains :: |c.frames| <= m
    ensures Live(chains) <= |chains| * m
  {
    if chains != [] {
      LiveAtMost(chains[1..], m);
      assert |chains| * m == m + |chains[1..]| * m;
    }
  }

  lemma {:induction false} LiveAtLeast(chains: seq<Chain>, m: nat)
    requires forall c <- chains :: |c.frames| >= m
    ensures Live(chains) >= |chains| * m
  {
    if chains != [] {
      LiveAtLeast(chains[1..], m);
      assert |chains| * m == m + |chains[1..]| * m;
    }
  }

  /** A chain that holds frames and does not wait can move. */
  lemma RunningMoves(l: Limits, s: State, i: nat)
    requires i < |s.chains| && !s.chains[i].waiting && s.chains[i].frames != []
    ensures CanMove(l, s)
  {
    if Top(s.chains[i]) > 0 {
      assert Enabled(l, s, i, Work);
    } else {
      assert Enabled(l, s, i, Stop);
    }
  }

  /** In a stuck state every slot is taken and every unfinished chain waits. */
  lemma StuckShape(l: Limits, s: State)
    requires Inv(l, s) && Stuck(l, s)
    ensures s.slots == l.cap
    ensures forall c <- s.chains :: |c.frames| <= l.depth - 1
    ensures forall c <- s.chains :: Finished(c) || c.waiting
  {
    forall i | 0 <= i < |s.chains| ensures Finished(s.chains[i]) || s.chains[i].waiting {
      if !s.chains[i].waiting && s.chains[i].frames != [] { RunningMoves(l, s, i); }
    }
    var c :| c in s.chains && !Finished(c);
    var i :| 0 <= i < |s.chains| && s.chains[i] == c;
    if s.slots < l.cap {
      assert Enabled(l, s, i, Acquire);
    }
    forall c | c in s.chains ensures |c.frames| <= l.depth - 1 {
      assert Bounded(l, c);
    }
  }

  lemma NeverStuck(l: Limits, s: State)
    requires Inv(l, s) && |s.chains| * (l.depth - 1) < l.cap
    ensures !Stuck(l, s)
  {
    if Stuck(l, s) {
      StuckShape(l, s);
      LiveAtMost(s.chains, l.depth - 1);
      assert false;
    }
  }

  /** With few enough roots, a run that cannot go on (even without any cancellation) has finished
      every chain and returned every slot. */
  lemma RunsComplete(l: Limits, roots: nat, moves: seq<Move>)
    requires roots * (l.depth - 1) < l.cap
    requires Inv(l, Opening(roots)) && IsRun(l, Opening(roots), moves) && !CanMove(l, After(l, Opening(roots), moves))
    ensures var s := After(l, Opening(roots), moves); AllFinished(s) && s.slots == 0
  {
    var s := After(l, Opening(roots), moves);
    NeverStuck(l, s);
    LiveAtMost(s.chains, 0);
  }

  // ----- The bound is tight -----

  predicate AllWaiting(s: State) { forall c <- s.chains :: c.waiting }

  lemma AllWaitingStuck(l: Limits, s: State)
    requires AllWaiting(s) && s.chains != [] && s.slots == l.cap
    ensures Stuck(l, s)
  {
    assert s.chains[0] in s.chains;
  }

  /** While all chains wait and slots are left, some chain can take one and delegate again, so that
      all chains wait as before. */
  lemma JamOne(l: Limits, s: State) returns (i: nat, s1: State, s2: State)
    requires Inv(l, s) && AllWaiting(s) && s.slots < l.cap <= |s.chains| * (l.depth - 1)
    ensures Enabled(l, s, i, Acquire) && s1 == Next(l, s, i, Acquire) && Inv(l, s1)
    ensures Enabled(l, s1, i, Ask) && s2 == Next(l, s1, i, Ask) && Inv(l, s2)
    ensures AllWaiting(s2) && s2.slots == s.slots + 1 && |s2.chains| == |s.chains|
  {
    if forall c <- s.chains :: |c.frames| >= l.depth - 1 {
      LiveAtLeast(s.chains, l.depth - 1);
      assert false;
    }
    var c :| c in s.chains && |c.frames| < l.depth - 1;
    i :| 0 <= i < |s.chains| && s.chains[i] == c;
    s1 := Next(l, s, i, Acquire);
    StepKeeps(l, s, i, Acquire);
    assert Top(s1.chains[i]) == l.steps;
    s2 := Next(l, s1, i, Ask);
    StepKeeps(l, s1, i, Ask);
  }

  lemma {:induction false} Jam(l: Limits, s: State) returns (moves: seq<Move>)
    requires Inv(l, s) && AllWaiting(s) && l.cap <= |s.chains| * (l.depth - 1)
    ensures IsRun(l, s, moves) && Stuck(l, After(l, s, moves)) && AllWaiting(After(l, s, moves))
    decreases l.cap - s.slots
  {
    if s.slots == l.cap {
      moves := [];
      AllWaitingStuck(l, s);
    } else {
      var i, s1, s2 := JamOne(l, s);
      var rest := Jam(l, s2);
      var tail := [Move(i, Ask)] + rest;
      assert tail[1..] == rest;
      assert IsRun(l, s1, tail) && After(l, s1, tail) == After(l, s2, rest);
      moves := [Move(i, Acquire)] + tail;
      assert moves[1..] == tail;
    }
  }

  ghost predicate Deadlocks(l: Limits, roots: nat) {
    Inv(l, Opening(roots)) &&
    exists moves :: IsRun(l, Opening(roots), moves) && Stuck(l, After(l, Opening(roots), moves))
  }

  /** A schedule that leaves every slot holder waiting exists exactly when the roots could hold all
      slots without any of them at the depth cap: R * (D - 1) >= cap. */
  lemma DeadlocksIff(l: Limits, roots: nat)
    ensures Deadlocks(l, roots) <==> roots * (l.depth - 1) >= l.cap
  {
    OpeningInv(l, roots);
    if roots * (l.depth - 1) >= l.cap {
      var moves := Jam(l, Opening(roots));
    } else {
      forall moves | IsRun(l, Opening(roots), moves) ensures !Stuck(l, After(l, Opening(roots), moves)) {
        NeverStuck(l, After(l, Opening(roots), moves));
      }
    }
  }

  /** The default limits: four slots, depth three, sixty steps. One root delegation never locks up;
      two or more can. */
  lemma DefaultLimits(roots: nat)
    ensures Deadlocks(Limits(4, 3, 60), roots) <==> roots >= 2
  {
    DeadlocksIff(Limits(4, 3, 60), roots);
  }

  /** Cancelling always helps: from every reachable state the chains can be ended without any of them taking
      another slot, those that wait by cancellation, and every slot comes back. */
  lemma {:induction false} CancellingDrains(l: Limits, s: State) returns (moves: seq<Move>)
    requires Inv(l, s)
    ensures IsRun(l, s, moves) && (forall m <- moves :: m.action in [Cancel, Answer, Stop])
    ensures AllFinished(After(l, s, moves)) && After(l, s, moves).slots == 0
    decreases StateAhead(l, s.chains)
  {
    hide Inv, StateAhead, Moved;
    moves := [];
    if AllFinished(s) {
      FinishedHoldNothing(l, s);
    } else {
      var i, a := SomeEnd(s, l);
      StepKeeps(l, s, i, a);
      StepUsesUp(l, s, i, a);
      var rest := CancellingDrains(l, Next(l, s, i, a));
      moves := [Move(i, a)] + rest;
      assert moves[1..] == rest;
    }
  }

  lemma FinishedHoldNothing(l: Limits, s: State)
    requires Inv(l, s) && AllFinished(s)
    ensures s.slots == 0
  {
    LiveAtMost(s.chains, 0);
  }

  lemma SomeEnd(s: State, l: Limits) returns (i: nat, a: Action)
    requires !AllFinished(s)
    ensures Enabled(l, s, i, a) && a in [Cancel, Answer, Stop]
  {
    var c :| c in s.chains && !Finished(c);
    i :| 0 <= i < |s.chains| && s.chains[i] == c;
    a := if c.waiting then Cancel else if Top(c) > 0 then Answer else Stop;
  }

  /** A running sub-agent goes on and answers while completions are left, and is stopped when none is; it
      delegates above the deepest level only. */
  lemma RunningChoices(l: Limits, s: State, i: nat)
    requires i < |s.chains| && !s.chains[i].waiting && s.chains[i].frames != []
    ensures var left, deep := Top(s.chains[i]), |s.chains[i].frames|;
      && (Enabled(l, s, i, Stop) <==> left == 0)
      && (Enabled(l, s, i, Answer) <==> left > 0) && (Enabled(l, s, i, Work) <==> left > 0)
      && (Enabled(l, s, i, Ask) <==> left > 0 && deep < l.depth)
      && !Enabled(l, s, i, Acquire) && !Enabled(l, s, i, Cancel)
  {
  }
}
