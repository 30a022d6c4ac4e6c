/** The framing loop of the event reader in frontend/src/api.ts: decoded chunks are appended to a
    buffer, and each text up to a blank line is dispatched as one frame. */
module EventStream {

  const BREAK := "\n\n"

  /** The index of the first blank-line separator, or -1. */
  function IndexOf(s: string): (i: int)
    ensures -1 <= i <= |s| - 2 || i == -1
    ensures i >= 0 ==> s[i] == '\n' && s[i + 1] == '\n'
    ensures forall j :: 0 <= j < |s| - 1 && (i < 0 || j < i) ==> !(s[j] == '\n' && s[j + 1] == '\n')
  {
    if |s| < 2 then -1
    else if s[0] == '\n' && s[1] == '\n' then 0
    else
      var rest := IndexOf(s[1..]);
      assert forall j :: 0 < j < |s| - 1 ==> s[j] == s[1..][j - 1] && s[j + 1] == s[1..][j];
      if rest < 0 then -1 else rest + 1
  }

  /** The frames of a text, cut greedily from the left, and what remains after the last separator. */
  function Frames(s: string): seq<string>
    decreases |s|
  {
    var i := IndexOf(s);
    if i < 0 then [] else [s[..i]] + Frames(s[i + 2..])
  }

  function Leftover(s: string): string
    decreases |s|
  {
    var i := IndexOf(s);
    if i < 0 then s else Leftover(s[i + 2..])
  }

  class EventReader {
    var buf: string
    var dispatched: seq<string>

    constructor ()
      ensures buf == "" && dispatched == []
    {
      buf, dispatched := "", [];
    }

    /** One chunk is read. */
    method Feed(chunk: string)
      modifies this
      ensures dispatched == old(dispatched) + Frames(old(buf) + chunk)
      ensures buf == Leftover(old(buf) + chunk)
    {
      var text := buf + chunk;
      ghost var whole, before := text, dispatched;
      buf := text;
      var sep := IndexOf(buf);
      while sep >= 0
        invariant sep == IndexOf(buf)
        invariant dispatched + Frames(buf) == before + Frames(whole)
        invariant Leftover(buf) == Leftover(whole)
        decreases |buf|
      {
        assert dispatched + ([buf[..sep]] + Frames(buf[sep + 2..]))
            == dispatched + [buf[..sep]] + Frames(buf[sep + 2..]);
        dispatched := dispatched + [buf[..sep]];
        buf := buf[sep + 2..];
        sep := IndexOf(buf);
      }
    }
  }

  // ----- Framing does not depend on the chunks -----

  lemma {:induction false} FirstBreak(a: string, b: string)
    requires IndexOf(a) >= 0
    ensures IndexOf(a + b) == IndexOf(a)
  {
    assert (a + b)[0] == a[0] && (a + b)[1] == a[1];
    if !(a[0] == '\n' && a[1] == '\n') {
      assert (a + b)[1..] == a[1..] + b;
      FirstBreak(a[1..], b);
    }
  }

  lemma Assoc<T>(a: seq<T>, b: seq<T>, c: seq<T>)
    ensures a + b + c == a + (b + c)
  {
  }

  lemma CutAfter(a: string, b: string)
    requires IndexOf(a) >= 0
    ensures var i := IndexOf(a); IndexOf(a + b) == i && (a + b)[..i] == a[..i] && (a + b)[i + 2..] == a[i + 2..] + b
  {
    FirstBreak(a, b);
  }

  lemma {:induction false} FramesConcat(a: string, b: string)
    ensures Frames(a + b) == Frames(a) + Frames(Leftover(a) + b)
    ensures Leftover(a + b) == Leftover(Leftover(a) + b)
    decreases |a|
  {
    hide IndexOf;
    var i := IndexOf(a);
    if i >= 0 {
      CutAfter(a, b);
      var rest := a[i + 2..];
      FramesConcat(rest, b);
      Assoc([a[..i]], Frames(rest), Frames(Leftover(rest) + b));
    } else {
      assert [] + Frames(a + b) == Frames(a + b);
    }
  }

  function Flatten(chunks: seq<string>): string {
    if chunks == [] then "" else chunks[0] + Flatten(chunks[1..])
  }

  /** The reader's state, and the state after reading some chunks one by one. */
  datatype State = State(buf: string, dispatched: seq<string>)

  function FeedAll(st: State, chunks: seq<string>): State
    decreases |chunks|
  {
    if chunks == [] then st
    else FeedAll(State(Leftover(st.buf + chunks[0]), st.dispatched + Frames(st.buf + chunks[0])), chunks[1..])
  }

  lemma {:induction false} FeedingFollows(st: State, chunks: seq<string>)
    requires IndexOf(st.buf) < 0
    ensures var text := st.buf + Flatten(chunks);
      FeedAll(st, chunks) == State(Leftover(text), st.dispatched + Frames(text))
    decreases |chunks|
  {
    hide IndexOf, Frames, Leftover;
    if chunks == [] {
      NoFrames(st.buf);
      assert st.buf + "" == st.buf && st.dispatched + [] == st.dispatched;
    } else {
      var text := st.buf + chunks[0];
      var rest := Flatten(chunks[1..]);
      Leftovers(text);
      FeedingFollows(State(Leftover(text), st.dispatched + Frames(text)), chunks[1..]);
      FramesConcat(text, rest);
      Assoc(st.buf, chunks[0], rest);
      Assoc(st.dispatched, Frames(text), Frames(Leftover(text) + rest));
    }
  }

  lemma NoFrames(s: string)
    requires IndexOf(s) < 0
    ensures Frames(s) == [] && Leftover(s) == s
  {
  }

  lemma {:induction false} Leftovers(s: string)
    ensures IndexOf(Leftover(s)) < 0
    decreases |s|
  {
    if IndexOf(s) >= 0 {
      Leftovers(s[IndexOf(s) + 2..]);
    }
  }

  /** The frames dispatched and the text kept depend only on the concatenation of the chunks: any
      two ways of cutting one text end alike, and what is kept never holds a separator. */
  lemma ChunkingIsInvisible(chunks: seq<string>, others: seq<string>)
    requires Flatten(chunks) == Flatten(others)
    ensures FeedAll(State("", []), chunks) == FeedAll(State("", []), others)
         == State(Leftover(Flatten(chunks)), Frames(Flatten(chunks)))
    ensures IndexOf(FeedAll(State("", []), chunks).buf) < 0
  {
    hide IndexOf, FeedAll, Frames, Flatten;
    var s := Flatten(chunks);
    FeedingFollows(State("", []), chunks);
    FeedingFollows(State("", []), others);
    Leftovers(s);
    assert "" + s == s && [] + Frames(s) == Frames(s);
  }

  // ----- What the frames are -----

  function Rebuild(frames: seq<string>, rest: string): string {
    if frames == [] then rest else frames[0] + BREAK + Rebuild(frames[1..], rest)
  }

  /** The first separator after a frame is the one that ends it. */
  predicate Greedy(frames: seq<string>) {
    forall f <- frames :: IndexOf(f + BREAK) == |f|
  }

  /** A text is built from its frames and its leftover, with every cut at the first separator. */
  lemma {:induction false} SplitIsGreedy(s: string)
    ensures s == Rebuild(Frames(s), Leftover(s)) && Greedy(Frames(s)) && IndexOf(Leftover(s)) < 0
    decreases |s|
  {
    hide IndexOf;
    var i := IndexOf(s);
    if i >= 0 {
      CutAtFirst(s);
      SplitIsGreedy(s[i + 2..]);
      var rest := Frames(s[i + 2..]);
      assert ([s[..i]] + rest)[1..] == rest;
    }
  }

  lemma CutFrame(f: string, tail: string)
    requires IndexOf(f + BREAK) == |f|
    ensures var s := f + BREAK + tail; IndexOf(s) == |f| && s[..|f|] == f && s[|f| + 2..] == tail
  {
    hide IndexOf;
    CutAfter(f + BREAK, tail);
  }

  lemma FrameFirst(f: string, tail: string)
    requires IndexOf(f + BREAK) == |f|
    ensures var s := f + BREAK + tail; Frames(s) == [f] + Frames(tail) && Leftover(s) == Leftover(tail)
  {
    hide IndexOf;
    CutFrame(f, tail);
  }

  /** And it is built like that in no other way. */
  lemma {:induction false} GreedySplitIsUnique(s: string, frames: seq<string>, rest: string)
    requires s == Rebuild(frames, rest) && Greedy(frames) && IndexOf(rest) < 0
    ensures frames == Frames(s) && rest == Leftover(s)
    decreases |frames|
  {
    hide IndexOf, Frames, Leftover;
    if frames == [] {
      NoFrames(s);
    } else {
      var f, tail := frames[0], Rebuild(frames[1..], rest);
      assert f in frames;
      CutFrame(f, tail);
      FrameFirst(f, tail);
      GreedySplitIsUnique(tail, frames[1..], rest);
      assert frames == [f] + frames[1..];
    }
  }

  lemma BreakAt(s: string, i: nat)
    requires i + 1 < |s| && s[i] == '\n' && s[i + 1] == '\n'
    requires forall j :: 0 <= j < i ==> !(s[j] == '\n' && s[j + 1] == '\n')
    ensures IndexOf(s) == i
  {
  }

  lemma CutAtFirst(s: string)
    requires IndexOf(s) >= 0
    ensures var i := IndexOf(s); s == s[..i] + BREAK + s[i + 2..] && IndexOf(s[..i] + BREAK) == i
  {
    var i := IndexOf(s);
    var f := s[..i] + BREAK;
    assert forall j :: 0 <= j <= i + 1 ==> f[j] == s[j];
    BreakAt(f, i);
  }
}
