/** The two views of a delegation agree: the tree that a delegation leaves behind, walked in the order
    in which it happened, is a schedule of the semaphore's state machine. */
module Schedules {
  import opened Agent
  import opened Policy
  import opened Delegation
  import opened DelegationTheorems
  import Semaphore

  /** One chain, holding a slot for each of its frames. */
  function Single(frames: seq<nat>, waiting: bool): Semaphore.State {
    Semaphore.State([Semaphore.Chain(frames, waiting)], |frames|)
  }

  function Limited(w: World, cap: Positive): Semaphore.Limits { Semaphore.Limits(cap, w.maxDepth, w.stepCap) }

  /** A sub-agent takes its slot, does its tool turns, and ends by an answer (or an error) or at its
      step cap. */
  function MovesOf(sub: SubAgent): seq<Semaphore.Move>
    decreases sub
  {
    [By(Semaphore.Acquire)] + MovesOfActs(sub.activity)
    + [By(if sub.completions > |sub.activity| then Semaphore.Answer else Semaphore.Stop)]
  }

  function MovesOfActs(acts: seq<Activity>): seq<Semaphore.Move>
    decreases acts
  {
    if acts == [] then [] else MovesOfTurn(acts[0].spawned) + MovesOfActs(acts[1..])
  }

  function MovesOfTurn(spawned: seq<SubAgent>): seq<Semaphore.Move>
    decreases spawned
  {
    if spawned == [] then [By(Semaphore.Work)] else [By(Semaphore.Ask)] + MovesOf(spawned[0])
  }

  function By(a: Semaphore.Action): Semaphore.Move { Semaphore.Move(0, a) }

  /** From one state to another by these moves. */
  ghost predicate Leads(l: Semaphore.Limits, s: Semaphore.State, moves: seq<Semaphore.Move>, s': Semaphore.State) {
    Semaphore.Inv(l, s) && Semaphore.IsRun(l, s, moves) && Semaphore.After(l, s, moves) == s'
  }

  lemma {:induction false} LeadsOn(l: Semaphore.Limits, s: Semaphore.State, a: seq<Semaphore.Move>, s': Semaphore.State,
                                   b: seq<Semaphore.Move>, s'': Semaphore.State)
    requires Leads(l, s, a, s') && Leads(l, s', b, s'')
    ensures Leads(l, s, a + b, s'')
    decreases |a|
  {
    hide Semaphore.Enabled, Semaphore.Inv, Semaphore.Moved;
    if a == [] {
      assert a + b == b;
    } else {
      Semaphore.StepKeeps(l, s, a[0].chain, a[0].action);
      LeadsOn(l, Semaphore.Next(l, s, a[0].chain, a[0].action), a[1..], s', b, s'');
      assert (a + b)[1..] == a[1..] + b;
    }
  }

  lemma OneMove(l: Semaphore.Limits, s: Semaphore.State, a: Semaphore.Action)
    requires Semaphore.Inv(l, s) && Semaphore.Enabled(l, s, 0, a)
    ensures a.Answer? || a.Stop? ==> s.slots > 0
    ensures Leads(l, s, [By(a)], Semaphore.Next(l, s, 0, a))
  {
    hide Semaphore.Enabled, Semaphore.Inv, Semaphore.Moved;
    Semaphore.StepKeeps(l, s, 0, a);
    var moves := [By(a)];
    assert moves[1..] == [] && moves[0].chain == 0 && moves[0].action == a;
    Stays(l, Semaphore.Next(l, s, 0, a));
  }

  ghost predicate Fits(l: Semaphore.Limits, frames: seq<nat>) {
    |frames| <= l.depth <= l.cap && forall t <- frames :: t <= l.steps
  }

  lemma FitsSpent(l: Semaphore.Limits, frames: seq<nat>, t: nat)
    requires Fits(l, frames + [t]) && t > 0
    ensures Fits(l, frames + [t - 1])
  {
    var before, after := frames + [t], frames + [t - 1];
    forall k | 0 <= k < |after| ensures after[k] <= l.steps {
      assert before[k] in before;
    }
  }

  lemma FitsInv(l: Semaphore.Limits, frames: seq<nat>, waiting: bool)
    requires Fits(l, frames) && (waiting ==> |frames| < l.depth)
    ensures Semaphore.Inv(l, Single(frames, waiting))
  {
    var chains := Single(frames, waiting).chains;
    assert Semaphore.Live(chains[1..]) == 0;
  }

  lemma Starts(l: Semaphore.Limits, frames: seq<nat>)
    requires Fits(l, frames) && |frames| < l.depth
    ensures Leads(l, Single(frames, true), [By(Semaphore.Acquire)], Single(frames + [l.steps], false))
  {
    FitsInv(l, frames, true);
    OneMove(l, Single(frames, true), Semaphore.Acquire);
  }

  lemma Ends(l: Semaphore.Limits, frames: seq<nat>, t: nat)
    requires Fits(l, frames + [t])
    ensures Leads(l, Single(frames + [t], false), [By(if t > 0 then Semaphore.Answer else Semaphore.Stop)],
                  Single(frames, false))
  {
    FitsInv(l, frames + [t], false);
    assert (frames + [t])[..|frames|] == frames;
    OneMove(l, Single(frames + [t], false), if t > 0 then Semaphore.Answer else Semaphore.Stop);
  }

  lemma Spends(l: Semaphore.Limits, frames: seq<nat>, t: nat, a: Semaphore.Action)
    requires Fits(l, frames + [t]) && t > 0 && (a.Work? || a.Ask?) && (a.Ask? ==> |frames| + 1 < l.depth)
    ensures Leads(l, Single(frames + [t], false), [By(a)], Single(frames + [t - 1], a.Ask?))
  {
    FitsInv(l, frames + [t], false);
    assert (frames + [t])[|frames| := t - 1] == frames + [t - 1];
    OneMove(l, Single(frames + [t], false), a);
  }

  lemma {:induction false} SubRuns(w: World, l: Semaphore.Limits, sub: SubAgent, flagged: bool, frames: seq<nat>)
    requires l == Limited(w, l.cap) && Fits(l, frames) && |frames| < l.depth
    requires Sound(w, sub, |frames|, flagged)
    ensures Leads(l, Single(frames, true), MovesOf(sub), Single(frames, false))
    decreases sub
  {
    hide Leads, Narrowed, Approver;
    var n := |sub.activity|;
    var inside := frames + [l.steps];
    Starts(l, frames);
    ActsRun(w, l, sub.activity, flagged, frames, l.steps);
    var left := l.steps - n;
    Ends(l, frames, left);
    LeadsOn(l, Single(frames, true), [By(Semaphore.Acquire)], Single(inside, false), MovesOfActs(sub.activity),
            Single(frames + [left], false));
    LeadsOn(l, Single(frames, true), [By(Semaphore.Acquire)] + MovesOfActs(sub.activity),
            Single(frames + [left], false),
            [By(if left > 0 then Semaphore.Answer else Semaphore.Stop)], Single(frames, false));
  }

  lemma {:induction false} ActsRun(w: World, l: Semaphore.Limits, acts: seq<Activity>, flagged: bool,
                                   frames: seq<nat>, t: nat)
    requires l == Limited(w, l.cap) && Fits(l, frames + [t]) && |acts| <= t
    requires forall a <- acts :: |a.spawned| <= 1 &&
               forall s <- a.spawned :: |frames| + 1 < l.depth && Sound(w, s, |frames| + 1, flagged)
    ensures Leads(l, Single(frames + [t], false), MovesOfActs(acts), Single(frames + [t - |acts|], false))
    decreases acts
  {
    hide Sound, Semaphore.IsRun, Semaphore.After, Semaphore.Inv;
    if acts == [] {
      FitsInv(l, frames + [t], false);
      Stays(l, Single(frames + [t], false));
    } else {
      assert acts[0] in acts;
      TurnRuns(w, l, acts[0].spawned, flagged, frames, t);
      FitsSpent(l, frames, t);
      ActsRun(w, l, acts[1..], flagged, frames, t - 1);
      LeadsOn(l, Single(frames + [t], false), MovesOfTurn(acts[0].spawned), Single(frames + [t - 1], false),
              MovesOfActs(acts[1..]), Single(frames + [t - |acts|], false));
    }
  }

  lemma Stays(l: Semaphore.Limits, s: Semaphore.State)
    requires Semaphore.Inv(l, s)
    ensures Leads(l, s, [], s)
  {
  }

  lemma {:induction false} TurnRuns(w: World, l: Semaphore.Limits, spawned: seq<SubAgent>, flagged: bool,
                                    frames: seq<nat>, t: nat)
    requires l == Limited(w, l.cap) && Fits(l, frames + [t]) && t > 0 && |spawned| <= 1
    requires forall s <- spawned :: |frames| + 1 < l.depth && Sound(w, s, |frames| + 1, flagged)
    ensures Leads(l, Single(frames + [t], false), MovesOfTurn(spawned), Single(frames + [t - 1], false))
    decreases spawned
  {
    hide Sound, Leads;
    if spawned == [] {
      Spends(l, frames, t, Semaphore.Work);
    } else {
      var sub := spawned[0];
      assert sub in spawned;
      Spends(l, frames, t, Semaphore.Ask);
      FitsSpent(l, frames, t);
      SubRuns(w, l, sub, flagged, frames + [t - 1]);
      LeadsOn(l, Single(frames + [t], false), [By(Semaphore.Ask)], Single(frames + [t - 1], true), MovesOf(sub),
              Single(frames + [t - 1], false));
    }
  }

  /** What any root delegation does, alone on a semaphore with room for its depth, is a complete
      schedule of the state machine: it starts by waiting for its slot, every step it takes is
      enabled, and it ends with the chain finished and every slot returned. */
  lemma RootDelegationIsASchedule(w: World, cap: Positive, site: Site, flagged: bool, profileId: string,
                                  task: string, authorize: seq<string>)
    requires w.maxDepth <= cap
    ensures forall sub <- Delegate(w, site, 0, flagged, profileId, task, authorize).spawned ::
              Leads(Limited(w, cap), Semaphore.Opening(1), MovesOf(sub), Single([], false))
  {
    hide Delegate, Sound, Leads;
    DelegateSound(w, site, 0, flagged, profileId, task, authorize);
    assert Semaphore.Opening(1) == Single([], true);
    forall sub | sub in Delegate(w, site, 0, flagged, profileId, task, authorize).spawned
      ensures Leads(Limited(w, cap), Semaphore.Opening(1), MovesOf(sub), Single([], false))
    {
      SubRuns(w, Limited(w, cap), sub, flagged, []);
    }
  }
}
