/** The live traffic list of frontend/src/ProxyTab.tsx: captured exchanges are buffered and merged
    into the list in batches, which should look as if each had been moved to the front at once. */
module ProxyTab {

  /** An exchange, in one of the versions that its capture goes through. */
  datatype Exchange = Exchange(id: string, version: string)

  const LIST_CAP: nat := 300
  const BUFFER_CAP: nat := 400

  function Ids(xs: seq<Exchange>): set<string> { set x <- xs :: x.id }

  ghost predicate Distinct(xs: seq<Exchange>) {
    forall i, j :: 0 <= i < j < |xs| ==> xs[i].id != xs[j].id
  }

  function Take(n: nat, xs: seq<Exchange>): seq<Exchange> { if |xs| <= n then xs else xs[..n] }

  function Reverse(xs: seq<Exchange>): seq<Exchange> {
    if xs == [] then [] else Reverse(xs[1..]) + [xs[0]]
  }

  /** The first entry of each id that has not been seen. */
  function Unseen(seen: set<string>, xs: seq<Exchange>): seq<Exchange>
    decreases |xs|
  {
    if xs == [] then []
    else if xs[0].id in seen then Unseen(seen, xs[1..])
    else [xs[0]] + Unseen(seen + {xs[0].id}, xs[1..])
  }

  /** The list after a flush of a non-empty buffer. */
  function Merge(batch: seq<Exchange>, prev: seq<Exchange>): seq<Exchange> {
    Take(LIST_CAP, Unseen({}, Reverse(batch) + prev))
  }

  /** What the list would be with every event applied at once: moved to the front, newest version
      kept. */
  function Without(xs: seq<Exchange>, id: string): seq<Exchange> {
    if xs == [] then [] else (if xs[0].id == id then [] else [xs[0]]) + Without(xs[1..], id)
  }

  function MoveToFront(xs: seq<Exchange>, e: Exchange): seq<Exchange> { [e] + Without(xs, e.id) }

  function MoveAll(xs: seq<Exchange>, events: seq<Exchange>): seq<Exchange>
    decreases |events|
  {
    if events == [] then xs else MoveToFront(MoveAll(xs, events[..|events| - 1]), events[|events| - 1])
  }

  class TrafficList {
    var captured: seq<Exchange>
    var pending: seq<Exchange>

    constructor (loaded: seq<Exchange>)
      ensures captured == loaded && pending == []
    {
      captured, pending := loaded, [];
    }

    ghost function State(): View
      reads this
    {
      View(captured, pending)
    }

    /** An event arrives: it joins the buffer, which keeps its newest 400. */
    method OnExchange(ex: Exchange)
      modifies this`pending
      ensures State() == Apply(old(State()), Event(ex))
    {
      pending := pending + [ex];
      if |pending| > BUFFER_CAP {
        pending := pending[|pending| - BUFFER_CAP..];
      }
    }

    method Flush()
      modifies this
      ensures State() == Apply(old(State()), FlushNow)
    {
      var batch := pending;
      if |batch| == 0 { return; }
      pending := [];
      captured := MergeInto(batch, captured);
    }

    /** The state update of a flush: newest event first, then the list as it was. */
    static method MergeInto(batch: seq<Exchange>, prev: seq<Exchange>) returns (next: seq<Exchange>)
      ensures next == Merge(batch, prev)
    {
      hide Reverse;
      var seen: set<string> := {};
      var merged: seq<Exchange> := [];
      ghost var all := Unseen({}, Reverse(batch) + prev);
      assert batch[..|batch|] == batch;
      assert [] + all == all;
      var i := |batch| - 1;
      while i >= 0
        invariant -1 <= i < |batch|
        invariant merged + Unseen(seen, Reverse(batch[..i + 1]) + prev) == all
      {
        hide Unseen;
        NextReversed(batch, i, prev);
        OneUnseen(merged, seen, batch[i], Reverse(batch[..i]) + prev);
        if batch[i].id !in seen {
          seen := seen + {batch[i].id};
          merged := merged + [batch[i]];
        }
        i := i - 1;
      }
      NothingReversed(batch[..0]);
      assert [] + prev == prev;
      var j := 0;
      while j < |prev|
        invariant 0 <= j <= |prev|
        invariant merged + Unseen(seen, prev[j..]) == all
      {
        hide Unseen;
        assert prev[j..] == [prev[j]] + prev[j + 1..];
        OneUnseen(merged, seen, prev[j], prev[j + 1..]);
        if prev[j].id !in seen {
          seen := seen + {prev[j].id};
          merged := merged + [prev[j]];
        }
        j := j + 1;
      }
      assert merged == all;
      next := if |merged| <= LIST_CAP then merged else merged[..LIST_CAP];
    }
  }

  lemma NextReversed(batch: seq<Exchange>, i: nat, prev: seq<Exchange>)
    requires i < |batch|
    ensures Reverse(batch[..i + 1]) + prev == [batch[i]] + (Reverse(batch[..i]) + prev)
  {
    hide Reverse;
    assert batch[..i + 1] == batch[..i] + [batch[i]];
    ReverseSnoc(batch[..i], batch[i]);
  }

  lemma OneUnseen(merged: seq<Exchange>, seen: set<string>, x: Exchange, rest: seq<Exchange>)
    ensures merged + Unseen(seen, [x] + rest) ==
            if x.id in seen then merged + Unseen(seen, rest) else merged + [x] + Unseen(seen + {x.id}, rest)
  {
    assert ([x] + rest)[1..] == rest;
    Assoc(merged, [x], Unseen(seen + {x.id}, rest));
  }

  lemma Assoc(a: seq<Exchange>, b: seq<Exchange>, c: seq<Exchange>)
    ensures a + b + c == a + (b + c)
  {
  }

  lemma NothingReversed(xs: seq<Exchange>)
    requires xs == []
    ensures Reverse(xs) == []
  {
  }

  function Newest(xs: seq<Exchange>): seq<Exchange> { if |xs| > BUFFER_CAP then xs[|xs| - BUFFER_CAP..] else xs }

  lemma {:induction false} ReverseSnoc(xs: seq<Exchange>, x: Exchange)
    ensures Reverse(xs + [x]) == [x] + Reverse(xs)
  {
    if xs == [] {
      assert xs + [x] == [x];
    } else {
      ReverseSnoc(xs[1..], x);
      assert (xs + [x])[1..] == xs[1..] + [x];
    }
  }

  // ----- Merging is moving to the front -----

  lemma {:induction false} UnseenMore(seen: set<string>, id: string, xs: seq<Exchange>)
    ensures Unseen(seen + {id}, xs) == Without(Unseen(seen, xs), id)
    decreases |xs|
  {
    if xs != [] {
      var x := xs[0];
      if x.id in seen {
        UnseenMore(seen, id, xs[1..]);
      } else {
        UnseenMore(seen + {x.id}, id, xs[1..]);
        var rest := Unseen(seen + {x.id}, xs[1..]);
        assert ([x] + rest)[1..] == rest;
        if x.id == id {
          assert seen + {id} + {id} == seen + {id};
          assert seen + {x.id} == seen + {id};
          UnseenMore(seen, id, xs[1..]);
          WithoutTwice(Unseen(seen, xs[1..]), id);
        } else {
          assert seen + {id} + {x.id} == seen + {x.id} + {id};
        }
      }
    }
  }

  lemma {:induction false} WithoutTwice(xs: seq<Exchange>, id: string)
    ensures Without(Without(xs, id), id) == Without(xs, id)
  {
    if xs != [] {
      WithoutTwice(xs[1..], id);
      if xs[0].id == id {
        assert [] + Without(xs[1..], id) == Without(xs[1..], id);
      } else {
        assert ([xs[0]] + Without(xs[1..], id))[1..] == Without(xs[1..], id);
      }
    }
  }

  lemma {:induction false} UnseenDistinct(seen: set<string>, xs: seq<Exchange>)
    requires Distinct(xs) && forall x <- xs :: x.id !in seen
    ensures Unseen(seen, xs) == xs
    decreases |xs|
  {
    if xs != [] {
      assert xs[0] in xs;
      forall x | x in xs[1..] ensures x.id !in seen + {xs[0].id} {
        var j :| 0 <= j < |xs[1..]| && xs[1..][j] == x;
        assert xs[j + 1] == x;
      }
      UnseenDistinct(seen + {xs[0].id}, xs[1..]);
    }
  }

  lemma {:induction false} MergeIsMoving(batch: seq<Exchange>, prev: seq<Exchange>)
    requires Distinct(prev)
    ensures Unseen({}, Reverse(batch) + prev) == MoveAll(prev, batch)
    decreases |batch|
  {
    if batch == [] {
      assert Reverse(batch) + prev == prev;
      UnseenDistinct({}, prev);
    } else {
      var n := |batch| - 1;
      var rest := Reverse(batch[..n]) + prev;
      MergeIsMoving(batch[..n], prev);
      ReverseSnoc(batch[..n], batch[n]);
      assert batch == batch[..n] + [batch[n]];
      assert Reverse(batch) + prev == [batch[n]] + rest;
      assert ([batch[n]] + rest)[1..] == rest;
      assert {} + {batch[n].id} == {batch[n].id};
      UnseenMore({}, batch[n].id, rest);
    }
  }

  lemma {:induction false} WithoutFacts(xs: seq<Exchange>, id: string)
    requires Distinct(xs)
    ensures Distinct(Without(xs, id))
    ensures forall x :: x in Without(xs, id) <==> x in xs && x.id != id
    ensures |Without(xs, id)| == if id in Ids(xs) then |xs| - 1 else |xs|
  {
    if xs != [] {
      var rest := Without(xs[1..], id);
      WithoutFacts(xs[1..], id);
      assert xs == [xs[0]] + xs[1..];
      assert Ids(xs) == {xs[0].id} + Ids(xs[1..]);
      if xs[0].id == id {
        assert id !in Ids(xs[1..]);
      } else {
        forall j | 0 <= j < |rest| ensures rest[j].id != xs[0].id {
          assert rest[j] in xs[1..];
        }
      }
    }
  }

  lemma {:induction false} MoveAllDistinct(xs: seq<Exchange>, events: seq<Exchange>)
    requires Distinct(xs)
    ensures Distinct(MoveAll(xs, events))
    decreases |events|
  {
    if events != [] {
      var before, e := MoveAll(xs, events[..|events| - 1]), events[|events| - 1];
      MoveAllDistinct(xs, events[..|events| - 1]);
      WithoutFacts(before, e.id);
      var rest := Without(before, e.id);
      assert forall j :: 0 <= j < |rest| ==> rest[j] in rest;
    }
  }

  // ----- Cutting the list short between flushes loses nothing -----

  lemma {:induction false} WithoutAbsent(xs: seq<Exchange>, id: string)
    requires forall x <- xs :: x.id != id
    ensures Without(xs, id) == xs
  {
    if xs != [] {
      assert xs[0] in xs;
      WithoutAbsent(xs[1..], id);
    }
  }

  lemma {:induction false} TakeWithout(n: nat, xs: seq<Exchange>, id: string)
    requires Distinct(xs) && n > 0
    ensures Take(n - 1, Without(Take(n, xs), id)) == Take(n - 1, Without(xs, id))
    decreases |xs|
  {
    if |xs| > n {
      var rest := xs[1..];
      assert xs[..n][1..] == rest[..n - 1];
      if xs[0].id == id {
        assert forall x <- rest :: x.id != id;
        WithoutAbsent(rest, id);
        WithoutAbsent(rest[..n - 1], id);
      } else if n > 1 {
        TakeWithout(n - 1, rest, id);
        TakeCons(n - 1, xs[0], Without(rest[..n - 1], id));
        TakeCons(n - 1, xs[0], Without(rest, id));
      }
    }
  }

  lemma TakeCons(n: nat, x: Exchange, xs: seq<Exchange>)
    requires n > 0
    ensures Take(n, [x] + xs) == [x] + Take(n - 1, xs)
  {
  }

  lemma {:induction false} TakeMoveAll(n: nat, xs: seq<Exchange>, events: seq<Exchange>)
    requires Distinct(xs) && n > 0
    ensures Take(n, MoveAll(Take(n, xs), events)) == Take(n, MoveAll(xs, events))
    decreases |events|
  {
    if events != [] {
      var m := |events| - 1;
      var before, e := events[..m], events[m];
      TakeMoveAll(n, xs, before);
      MoveAllDistinct(xs, before);
      MoveAllDistinct(Take(n, xs), before);
      var a, b := MoveAll(Take(n, xs), before), MoveAll(xs, before);
      TakeWithout(n, a, e.id);
      TakeWithout(n, b, e.id);
      TakeCons(n, e, Without(a, e.id));
      TakeCons(n, e, Without(b, e.id));
    }
  }

  lemma {:induction false} MoveAllConcat(xs: seq<Exchange>, a: seq<Exchange>, b: seq<Exchange>)
    ensures MoveAll(xs, a + b) == MoveAll(MoveAll(xs, a), b)
    decreases |b|
  {
    if b == [] {
      assert a + b == a;
    } else {
      MoveAllConcat(xs, a, b[..|b| - 1]);
      assert (a + b)[..|a + b| - 1] == a + b[..|b| - 1];
    }
  }

  // ----- Any placement of flushes -----

  datatype Op = Event(ex: Exchange) | FlushNow

  datatype View = View(captured: seq<Exchange>, pending: seq<Exchange>)

  function Apply(v: View, op: Op): View {
    match op
    case Event(ex) => v.(pending := Newest(v.pending + [ex]))
    case FlushNow => if v.pending == [] then v else View(Merge(v.pending, v.captured), [])
  }

  function ApplyAll(v: View, ops: seq<Op>): View
    decreases |ops|
  {
    if ops == [] then v else ApplyAll(Apply(v, ops[0]), ops[1..])
  }

  function Events(ops: seq<Op>): seq<Exchange> {
    if ops == [] then [] else (if ops[0].Event? then [ops[0].ex] else []) + Events(ops[1..])
  }

  /** The buffer never holds more than its cap before a flush empties it. */
  predicate FitsBuffer(held: nat, ops: seq<Op>)
    decreases |ops|
  {
    ops == [] || (match ops[0]
                  case Event(_) => held < BUFFER_CAP && FitsBuffer(held + 1, ops[1..])
                  case FlushNow => FitsBuffer(0, ops[1..]))
  }

  /** A flush in the middle: the list shown stays the first 300 entries of the list that moving
      the buffered events makes. */
  lemma FlushFollows(v: View, list: seq<Exchange>)
    requires Distinct(list) && v.captured == Take(LIST_CAP, list)
    ensures Apply(v, FlushNow).captured == Take(LIST_CAP, MoveAll(list, v.pending)) && Apply(v, FlushNow).pending == []
    ensures Distinct(MoveAll(list, v.pending)) && Distinct(v.captured)
  {
    hide Unseen, Take;
    TakeDistinct(list);
    MoveAllDistinct(list, v.pending);
    if v.pending != [] {
      TakeMoveAll(LIST_CAP, list, v.pending);
      MergeIsMoving(v.pending, v.captured);
    }
  }

  lemma TakeDistinct(list: seq<Exchange>)
    requires Distinct(list)
    ensures Distinct(Take(LIST_CAP, list))
  {
  }

  /** With `list` behind what is shown, and the buffer not yet applied to either. */
  lemma {:induction false} BatchesFollow(v: View, list: seq<Exchange>, ops: seq<Op>)
    requires Distinct(list) && v.captured == Take(LIST_CAP, list) && FitsBuffer(|v.pending|, ops)
    ensures var v' := ApplyAll(v, ops + [FlushNow]);
      v'.pending == [] && v'.captured == Take(LIST_CAP, MoveAll(list, v.pending + Events(ops))) && Distinct(v'.captured)
    decreases |ops|
  {
    hide Take, Merge, MoveAll, Distinct, Newest, Apply;
    var all := ops + [FlushNow];
    FlushFollows(v, list);
    if ops == [] {
      assert v.pending + Events(ops) == v.pending && all[1..] == [];
      TakeDistinct(MoveAll(list, v.pending));
    } else {
      var next := Apply(v, ops[0]);
      assert all[1..] == ops[1..] + [FlushNow] && all[0] == ops[0];
      match ops[0]
      case Event(ex) =>
        EventJoins(v, ex);
        BatchesFollow(next, list, ops[1..]);
        assert v.pending + Events(ops) == next.pending + Events(ops[1..]);
      case FlushNow =>
        var moved := MoveAll(list, v.pending);
        assert Events(ops) == Events(ops[1..]);
        MoveAllConcat(list, v.pending, Events(ops));
        BatchesFollow(next, moved, ops[1..]);
        assert [] + Events(ops[1..]) == Events(ops[1..]);
    }
  }

  lemma EventJoins(v: View, ex: Exchange)
    requires |v.pending| < BUFFER_CAP
    ensures Apply(v, Event(ex)) == v.(pending := v.pending + [ex])
  {
  }

  /** Batching is invisible: from a list with distinct ids, wherever the flushes fall, as long as no
      buffer overflows, the list after a last flush is the first 300 entries of the list obtained by
      moving each event to the front as it came; and no id is ever in it twice. */
  lemma BatchingIsInvisible(loaded: seq<Exchange>, ops: seq<Op>)
    requires Distinct(loaded) && |loaded| <= 300 && FitsBuffer(0, ops)
    ensures var v := ApplyAll(View(loaded, []), ops + [FlushNow]);
      v.pending == [] && v.captured == Take(300, MoveAll(loaded, Events(ops))) && Distinct(v.captured)
  {
    hide MoveAll, Merge;
    BatchesFollow(View(loaded, []), loaded, ops);
    assert [] + Events(ops) == Events(ops);
  }

  // ----- The buffer's cap -----

  lemma {:induction false} UnseenConcat(seen: set<string>, a: seq<Exchange>, b: seq<Exchange>)
    ensures Unseen(seen, a + b) == Unseen(seen, a) + Unseen(seen + Ids(a), b)
    decreases |a|
  {
    if a == [] {
      assert a + b == b && seen + Ids(a) == seen;
    } else {
      assert (a + b)[1..] == a[1..] + b;
      assert a == [a[0]] + a[1..];
      assert Ids(a) == {a[0].id} + Ids(a[1..]);
      if a[0].id in seen {
        UnseenConcat(seen, a[1..], b);
        assert seen + Ids(a) == seen + Ids(a[1..]);
      } else {
        UnseenConcat(seen + {a[0].id}, a[1..], b);
        assert seen + Ids(a) == seen + {a[0].id} + Ids(a[1..]);
      }
    }
  }

  lemma {:induction false} AllSeen(seen: set<string>, xs: seq<Exchange>)
    ensures Unseen(seen, xs) == [] <==> Ids(xs) <= seen
    decreases |xs|
  {
    if xs != [] {
      assert xs == [xs[0]] + xs[1..];
      assert Ids(xs) == {xs[0].id} + Ids(xs[1..]);
      AllSeen(seen, xs[1..]);
    }
  }

  lemma {:induction false} ReverseConcat(a: seq<Exchange>, b: seq<Exchange>)
    ensures Reverse(a + b) == Reverse(b) + Reverse(a)
    ensures Ids(Reverse(a)) == Ids(a)
    decreases |a|
  {
    if a == [] {
      assert a + b == b && Reverse(b) + [] == Reverse(b);
    } else {
      ReverseConcat(a[1..], b);
      assert (a + b)[1..] == a[1..] + b;
      assert a == [a[0]] + a[1..];
      assert Ids(a) == {a[0].id} + Ids(a[1..]);
      assert forall x :: x in Reverse(a) <==> x in Reverse(a[1..]) || x == a[0];
    }
  }

  /** Dropping the oldest buffered events is harmless for every list exactly when the kept ones name
      at least 300 exchanges, or name all that were dropped. So the cap is not always invisible: one
      exchange followed by 400 versions of another is lost. */
  lemma DroppingIsHarmlessIff(dropped: seq<Exchange>, kept: seq<Exchange>)
    ensures (forall prev :: Distinct(prev) ==> Merge(kept, prev) == Take(LIST_CAP, MoveAll(prev, dropped + kept)))
            <==> |Unseen({}, Reverse(kept))| >= LIST_CAP || Ids(dropped) <= Ids(kept)
  {
    hide Merge, MoveAll, Unseen, Reverse, Distinct;
    var top, ids, older := Unseen({}, Reverse(kept)), Ids(kept), Unseen(Ids(kept), Reverse(dropped));
    ReverseConcat(dropped, kept);
    AllSeen(ids, Reverse(dropped));
    forall prev | Distinct(prev)
      ensures Merge(kept, prev) == Take(LIST_CAP, top + Unseen(ids, prev))
      ensures MoveAll(prev, dropped + kept) == top + (older + Unseen(ids + Ids(dropped), prev))
    {
      Layers(dropped, kept, prev);
    }
    if |top| < LIST_CAP && !(Ids(dropped) <= ids) {
      NothingDistinct();
      AllSeen(ids, []);
      assert top + [] == top;
      assert |Take(LIST_CAP, MoveAll([], dropped + kept))| > |top|;
    } else if Ids(dropped) <= ids {
      assert ids + Ids(dropped) == ids;
      assert older == [];
      forall prev ensures [] + Unseen(ids, prev) == Unseen(ids, prev) {}
    } else {
      forall prev
        ensures Take(LIST_CAP, top + Unseen(ids, prev))
             == Take(LIST_CAP, top + (older + Unseen(ids + Ids(dropped), prev)))
      {
        assert |top| >= LIST_CAP;
        TakeTop(top, Unseen(ids, prev));
        TakeTop(top, older + Unseen(ids + Ids(dropped), prev));
      }
    }
  }

  lemma TakeTop(top: seq<Exchange>, rest: seq<Exchange>)
    requires |top| >= LIST_CAP
    ensures Take(LIST_CAP, top + rest) == top[..LIST_CAP]
  {
  }

  lemma NothingDistinct()
    ensures Distinct([])
  {
  }

  /** The three layers of a merge: what the kept events name, what the dropped ones name besides,
      and what is left of the list. */
  lemma Layers(dropped: seq<Exchange>, kept: seq<Exchange>, prev: seq<Exchange>)
    requires Distinct(prev)
    ensures var top, ids, older := Unseen({}, Reverse(kept)), Ids(kept), Unseen(Ids(kept), Reverse(dropped));
      && Merge(kept, prev) == Take(LIST_CAP, top + Unseen(ids, prev))
      && MoveAll(prev, dropped + kept) == top + (older + Unseen(ids + Ids(dropped), prev))
  {
    hide MoveAll, Unseen, Reverse, Distinct;
    var newer, older := Reverse(kept), Reverse(dropped);
    ReverseConcat(kept, []);
    ReverseConcat(dropped, kept);
    MergeIsMoving(dropped + kept, prev);
    UnseenConcat({}, newer, prev);
    assert {} + Ids(kept) == Ids(kept);
    assert newer + older + prev == newer + (older + prev);
    UnseenConcat({}, newer, older + prev);
    UnseenConcat(Ids(kept), older, prev);
  }

  // ----- An event that is lost -----

  function EventOps(xs: seq<Exchange>): seq<Op> { if xs == [] then [] else [Event(xs[0])] + EventOps(xs[1..]) }

  /** Events alone leave the newest 400 of them in the buffer. */
  lemma {:induction false} EventsFill(v: View, xs: seq<Exchange>)
    requires |v.pending| <= BUFFER_CAP
    ensures ApplyAll(v, EventOps(xs)) == View(v.captured, Newest(v.pending + xs))
    decreases |xs|
  {
    NewestFits(v.pending);
    hide Newest;
    if xs == [] {
      assert v.pending + xs == v.pending;
    } else {
      var next, rest := View(v.captured, Newest(v.pending + [xs[0]])), xs[1..];
      assert EventOps(xs)[1..] == EventOps(rest) && EventOps(xs)[0] == Event(xs[0]);
      assert ApplyAll(v, EventOps(xs)) == ApplyAll(next, EventOps(rest));
      NewestFits(v.pending + [xs[0]]);
      EventsFill(next, rest);
      NewestTwice(v.pending, xs[0], rest);
      assert xs == [xs[0]] + rest;
    }
  }

  lemma NewestFits(xs: seq<Exchange>)
    ensures |Newest(xs)| <= BUFFER_CAP && (|xs| <= BUFFER_CAP ==> Newest(xs) == xs)
  {
  }

  lemma NewestTwice(held: seq<Exchange>, x: Exchange, xs: seq<Exchange>)
    requires |held| <= BUFFER_CAP
    ensures Newest(Newest(held + [x]) + xs) == Newest(held + ([x] + xs))
  {
    assert held + [x] + xs == held + ([x] + xs);
    if |held| == BUFFER_CAP {
      assert (held + [x])[1..] + xs == (held + [x] + xs)[1..];
    }
  }

  lemma {:induction false} ApplyAllConcat(v: View, a: seq<Op>, b: seq<Op>)
    ensures ApplyAll(v, a + b) == ApplyAll(ApplyAll(v, a), b)
    decreases |a|
  {
    hide Apply;
    if a == [] {
      assert a + b == b;
    } else {
      assert (a + b)[1..] == a[1..] + b;
      ApplyAllConcat(Apply(v, a[0]), a[1..], b);
    }
  }

  function Versions(y: Exchange, n: nat): seq<Exchange> { seq(n, _ => y) }

  lemma {:induction false} RepeatedMoves(xs: seq<Exchange>, y: Exchange, n: nat)
    requires n > 0 && forall x <- xs :: x.id != y.id
    ensures MoveAll(xs, Versions(y, n)) == [y] + xs
    decreases n
  {
    assert Versions(y, n)[..n - 1] == Versions(y, n - 1);
    if n == 1 {
      WithoutAbsent(xs, y.id);
    } else {
      RepeatedMoves(xs, y, n - 1);
      assert ([y] + xs)[1..] == xs;
      WithoutAbsent(xs, y.id);
    }
  }

  /** One exchange, and then 400 versions of another before the list is flushed: the first is gone,
      although the list has room for it. */
  lemma OldestIsLost(x: Exchange, y: Exchange)
    requires x.id != y.id
    ensures var events := [x] + Versions(y, 400);
      && ApplyAll(View([], []), EventOps(events) + [FlushNow]).captured == [y]
      && Take(300, MoveAll([], events)) == [y, x]
  {
    hide MoveAll, Unseen, Reverse, Distinct;
    var ys := Versions(y, BUFFER_CAP);
    var events := [x] + ys;
    var start := View([], []);
    EventsFill(start, events);
    assert [] + events == events && Newest(events) == ys;
    ApplyAllConcat(start, EventOps(events), [FlushNow]);
    FlushIsLast(View([], ys));
    NothingDistinct();
    MergeIsMoving(ys, []);
    RepeatedMoves([], y, BUFFER_CAP);
    assert [y] + [] == [y];
    MoveAllConcat([], [x], ys);
    OneMove(x);
    RepeatedMoves([x], y, BUFFER_CAP);
  }

  lemma FlushIsLast(v: View)
    ensures ApplyAll(v, [FlushNow]) == Apply(v, FlushNow)
  {
    hide Apply;
    assert [FlushNow][1..] == [];
  }

  lemma OneMove(x: Exchange)
    ensures MoveAll([], [x]) == [x]
  {
    assert [x][..0] == [];
  }
}
