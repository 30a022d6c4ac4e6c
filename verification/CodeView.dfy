/** splitHighlighted of frontend/src/CodeView.tsx: highlighted HTML cut into lines, with the spans
    that straddle a line break closed and opened again so that each line stands on its own. */
module CodeView {
  import opened Text

  /** What the tag expression `<span[^>]*>|</span>` makes of a text: its matches, and the characters
      between them. */
  datatype Token = Open(tag: string) | Close | Ch(c: char)

  const OPEN := "<span"
  const CLOSE := "</span>"

  /** The length of the opening tag at the start of s, or 0. */
  function OpenTag(s: string): (n: nat)
    ensures n > 0 ==> 6 <= n <= |s|
  {
    if OPEN <= s && '>' in s[5..] then 6 + IndexOf(s[5..], '>') else 0
  }

  function IndexOf(s: string, c: char): (i: nat)
    requires c in s
    ensures i < |s| && s[i] == c && c !in s[..i]
  {
    if s[0] == c then 0 else 1 + IndexOf(s[1..], c)
  }

  /** The token at the start of a text, and its length. */
  function First(s: string): Token
    requires s != []
  {
    if OpenTag(s) > 0 then Open(s[..OpenTag(s)]) else if CLOSE <= s then Close else Ch(s[0])
  }

  /** The first token is what `<span[^>]*>|</span>` matches at the start of the text, the shortest such tag,
      or else the first character. */
  lemma FirstIs(s: string)
    requires s != []
    ensures match First(s)
      case Open(t) => t <= s && Size(s) == |t| >= 6 && t[..5] == "<span" && t[|t| - 1] == '>' && '>' !in t[..|t| - 1]
      case Close => "</span>" <= s && Size(s) == 7
      case Ch(c) => c == s[0] && Size(s) == 1 && !("</span>" <= s) && ("<span" <= s ==> '>' !in s)
  {
    var n := OpenTag(s);
    if n > 0 {
      var t := s[..n];
      assert s == s[..5] + s[5..] && t == s[..5] + s[5..n];
      assert s[5..][..n - 6] == s[5..n - 1];
      assert t[..n - 1] == s[..5] + s[5..n - 1];
    } else if OPEN <= s {
      assert s == s[..5] + s[5..];
    }
  }

  function Size(s: string): (n: nat)
    requires s != []
    ensures 0 < n <= |s|
  {
    if OpenTag(s) > 0 then OpenTag(s) else if CLOSE <= s then 7 else 1
  }

  function Lex(s: string): seq<Token>
    decreases |s|
  {
    if s == [] then [] else [First(s)] + Lex(s[Size(s)..])
  }

  /** The open spans after a token; a close with nothing open is ignored, as pop is on an empty
      array. */
  function Step(open: seq<string>, t: Token): seq<string> {
    match t
    case Open(tag) => open + [tag]
    case Close => if open == [] then [] else open[..|open| - 1]
    case Ch(_) => open
  }

  function Run(open: seq<string>, ts: seq<Token>): seq<string>
    decreases |ts|
  {
    if ts == [] then open else Run(Step(open, ts[0]), ts[1..])
  }

  function Concat(parts: seq<string>): string {
    if parts == [] then [] else parts[0] + Concat(parts[1..])
  }

  function Closings(n: nat): string { if n == 0 then [] else CLOSE + Closings(n - 1) }

  function Wrap(open: seq<string>, line: string): string {
    Concat(open) + line + Closings(|Run(open, Lex(line))|)
  }

  function WrapAll(open: seq<string>, lines: seq<string>): (out: seq<string>)
    ensures |out| == |lines|
    decreases |lines|
  {
    if lines == [] then [] else [Wrap(open, lines[0])] + WrapAll(Run(open, Lex(lines[0])), lines[1..])
  }

  /** The tag scan over one line: opening tags are pushed, closing tags pop if they can. */
  method ScanTags(before: seq<string>, line: string) returns (open: seq<string>)
    ensures open == Run(before, Lex(line))
  {
    hide Run, Lex, OpenTag, First, Size, Step;
    open := before;
    var pos := 0;
    assert line[0..] == line;
    while pos < |line|
      invariant 0 <= pos <= |line|
      invariant Run(open, Lex(line[pos..])) == Run(before, Lex(line))
    {
      var s := line[pos..];
      var n := OpenTag(s);
      FirstRun(open, s);
      FirstStep(open, s);
      assert line[pos + Size(s)..] == s[Size(s)..];
      if n > 0 {
        open := open + [s[..n]];
        pos := pos + n;
      } else if CLOSE <= s {
        if |open| > 0 { open := open[..|open| - 1]; }
        pos := pos + 7;
      } else {
        pos := pos + 1;
      }
    }
    assert line[|line|..] == "";
    NothingRuns(open);
  }

  lemma FirstRun(open: seq<string>, s: string)
    requires s != []
    ensures Run(open, Lex(s)) == Run(Step(open, First(s)), Lex(s[Size(s)..]))
  {
    hide First, Size, Step;
    assert Lex(s)[1..] == Lex(s[Size(s)..]);
  }

  lemma NothingRuns(open: seq<string>)
    ensures Run(open, Lex("")) == open
  {
  }

  lemma FirstStep(open: seq<string>, s: string)
    requires s != []
    ensures var n := OpenTag(s);
      && Size(s) == (if n > 0 then n else if CLOSE <= s then 7 else 1)
      && Step(open, First(s)) == if n > 0 then open + [s[..n]]
                                 else if CLOSE <= s && |open| > 0 then open[..|open| - 1] else open
  {
    hide OpenTag;
  }

  method SplitHighlighted(html: string) returns (out: seq<string>)
    ensures out == WrapAll([], Split(html, '\n'))
  {
    hide Run, Lex, Closings, Concat;
    var lines := Split(html, '\n');
    var open: seq<string> := [];
    out := [];
    var i := 0;
    while i < |lines|
      invariant 0 <= i <= |lines|
      invariant out + WrapAll(open, lines[i..]) == WrapAll([], lines)
    {
      var line := lines[i];
      ghost var rest := lines[i..];
      var prefix := Concat(open);
      open := ScanTags(open, line);
      var suffix := Closings(|open|);
      assert rest[1..] == lines[i + 1..];
      out := out + [prefix + line + suffix];
      i := i + 1;
    }
  }

  // ----- Lexing across a cut -----

  /** Every `<span` is closed by a `>` before the text ends: no tag is cut off. */
  predicate Whole(s: string)
    decreases |s|
  {
    if s == [] then true
    else if OPEN <= s then OpenTag(s) > 0 && Whole(s[OpenTag(s)..])
    else Whole(s[1..])
  }

  /** A text that a line can be followed by without changing how the line is read. */
  predicate Separate(s: string) { s == [] || s[0] == '<' || s[0] == '\n' }

  lemma {:induction false} WholeAfterClose(s: string, n: nat)
    requires n <= 7 && CLOSE <= s
    ensures Whole(s) <==> Whole(s[n..])
  {
    if n > 0 {
      WholeAfterClose(s, n - 1);
      assert !(OPEN <= s[n - 1..]) by { assert s[n - 1] == CLOSE[n - 1]; if n - 1 == 0 { assert s[1] == '/'; } }
      assert s[n - 1..][1..] == s[n..];
    }
  }

  /** A text starts with a tag that is cut off. */
  predicate Dangles(s: string) { OPEN <= s && OpenTag(s) == 0 }

  lemma OpenIsNoClose(s: string)
    ensures OPEN <= s ==> !(CLOSE <= s)
  {
    assert OPEN <= s ==> s[1] == OPEN[1];
    assert CLOSE <= s ==> s[1] == CLOSE[1];
  }

  lemma WholeUnfolds(s: string)
    requires s != []
    ensures Whole(s) <==> !Dangles(s) && Whole(s[Size(s)..])
  {
    if !(OPEN <= s) && CLOSE <= s { WholeAfterClose(s, 7); }
  }

  /** What follows a line does not change its next token, unless it completes a tag. */
  lemma FirstStable(a: string, b: string)
    requires a != [] && Separate(b) && (Dangles(a) ==> '>' !in b)
    ensures First(a + b) == First(a) && Size(a + b) == Size(a)
  {
    if Dangles(a) {
      assert (a + b)[5..] == a[5..] + b;
      OpenIsNoClose(a);
      OpenIsNoClose(a + b);
    } else if OPEN <= a {
      OpenTagStable(a, b);
      assert (a + b)[..OpenTag(a)] == a[..OpenTag(a)];
    } else {
      NoNewTag(a, b);
    }
  }

  lemma {:induction false} LexConcat(a: string, b: string)
    requires Separate(b) && (Whole(a) || '>' !in b)
    ensures Lex(a + b) == Lex(a) + Lex(b)
    decreases |a|
  {
    hide First, Size, Whole, Separate, Dangles;
    if a == [] {
      assert a + b == b;
    } else {
      WholeUnfolds(a);
      FirstStable(a, b);
      var n := Size(a);
      LexConcat(a[n..], b);
      assert (a + b)[n..] == a[n..] + b;
      Assoc([First(a)], Lex(a[n..]), Lex(b));
    }
  }

  lemma {:induction false} IndexOfConcat(a: string, b: string, c: char)
    requires c in a
    ensures IndexOf(a + b, c) == IndexOf(a, c)
  {
    if a[0] != c {
      assert (a + b)[1..] == a[1..] + b;
      IndexOfConcat(a[1..], b, c);
    }
  }

  lemma OpenTagStable(a: string, b: string)
    requires OpenTag(a) > 0
    ensures OpenTag(a + b) == OpenTag(a)
  {
    assert (a + b)[5..] == a[5..] + b;
    IndexOfConcat(a[5..], b, '>');
  }

  lemma PrefixStays(p: string, a: string, b: string)
    requires p <= a + b && |p| <= |a|
    ensures p <= a
  {
    assert p == (a + b)[..|p|] == a[..|p|];
  }

  /** A prefix of a + b that is not one of a continues into b. */
  lemma CutPrefix(p: string, a: string, b: string)
    ensures p <= a + b && !(p <= a) ==> |a| < |p| && b != [] && b[0] == p[|a|]
    ensures p <= a ==> p <= a + b
  {
    if p <= a + b && !(p <= a) {
      if |p| <= |a| { PrefixStays(p, a, b); }
      assert (a + b)[|a|] == p[|a|];
    }
  }

  lemma NoNewTag(a: string, b: string)
    requires a != [] && !(OPEN <= a) && Separate(b)
    ensures OpenTag(a + b) == 0 && OpenTag(a) == 0
    ensures CLOSE <= a + b <==> CLOSE <= a
  {
    CutPrefix(OPEN, a, b);
    CutPrefix(CLOSE, a, b);
    assert forall k :: 1 <= k < 5 ==> OPEN[k] != '<' && OPEN[k] != '\n';
    assert forall k :: 1 <= k < 7 ==> CLOSE[k] != '<' && CLOSE[k] != '\n';
  }

  // ----- Balance and enclosure -----

  /** No close meets an empty stack. */
  predicate NeverUnderflows(open: seq<string>, ts: seq<Token>)
    decreases |ts|
  {
    ts == [] || ((ts[0].Close? ==> open != []) && NeverUnderflows(Step(open, ts[0]), ts[1..]))
  }

  predicate Balanced(ts: seq<Token>) { NeverUnderflows([], ts) && Run([], ts) == [] }

  /** Each character of the text with the spans around it, outermost first. */
  function Enclosed(open: seq<string>, ts: seq<Token>): seq<(char, seq<string>)>
    decreases |ts|
  {
    if ts == [] then []
    else (if ts[0].Ch? then [(ts[0].c, open)] else []) + Enclosed(Step(open, ts[0]), ts[1..])
  }

  lemma {:induction false} RunsOn(open: seq<string>, a: seq<Token>, b: seq<Token>)
    ensures Run(open, a + b) == Run(Run(open, a), b)
    decreases |a|
  {
    hide Step;
    if a == [] {
      assert a + b == b;
    } else {
      assert (a + b)[1..] == a[1..] + b;
      RunsOn(Step(open, a[0]), a[1..], b);
    }
  }

  lemma {:induction false} EnclosesOn(open: seq<string>, a: seq<Token>, b: seq<Token>)
    ensures Enclosed(open, a + b) == Enclosed(open, a) + Enclosed(Run(open, a), b)
    decreases |a|
  {
    hide Step;
    if a == [] {
      assert a + b == b;
    } else {
      assert (a + b)[1..] == a[1..] + b && (a + b)[0] == a[0];
      var next := Step(open, a[0]);
      EnclosesOn(next, a[1..], b);
      Assoc(if a[0].Ch? then [(a[0].c, open)] else [], Enclosed(next, a[1..]), Enclosed(Run(open, a), b));
    }
  }

  lemma {:induction false} UnderflowsOn(open: seq<string>, a: seq<Token>, b: seq<Token>)
    ensures NeverUnderflows(open, a + b) <==> NeverUnderflows(open, a) && NeverUnderflows(Run(open, a), b)
    decreases |a|
  {
    hide Step;
    if a == [] {
      assert a + b == b;
    } else {
      assert (a + b)[1..] == a[1..] + b && (a + b)[0] == a[0];
      UnderflowsOn(Step(open, a[0]), a[1..], b);
    }
  }

  lemma RunConcat(open: seq<string>, a: seq<Token>, b: seq<Token>)
    ensures Run(open, a + b) == Run(Run(open, a), b)
    ensures Enclosed(open, a + b) == Enclosed(open, a) + Enclosed(Run(open, a), b)
    ensures NeverUnderflows(open, a + b) <==> NeverUnderflows(open, a) && NeverUnderflows(Run(open, a), b)
  {
    hide Run, Enclosed, NeverUnderflows;
    RunsOn(open, a, b);
    EnclosesOn(open, a, b);
    UnderflowsOn(open, a, b);
  }

  predicate Tags(open: seq<string>) {
    forall t <- open :: OpenTag(t) == |t| > 0
  }

  function Opens(open: seq<string>): seq<Token> { if open == [] then [] else [Open(open[0])] + Opens(open[1..]) }

  function Closes(n: nat): seq<Token> { seq(n, _ => Close) }

  lemma TagFirst(t: string, rest: string)
    requires OpenTag(t) == |t| > 0
    ensures First(t + rest) == Open(t) && Size(t + rest) == |t|
  {
    OpenTagStable(t, rest);
    assert (t + rest)[..|t|] == t;
  }

  lemma LexTag(t: string, rest: string)
    requires OpenTag(t) == |t| > 0
    ensures Lex(t + rest) == [Open(t)] + Lex(rest)
  {
    TagFirst(t, rest);
    assert (t + rest)[|t|..] == rest;
  }

  lemma Assoc<T>(a: seq<T>, b: seq<T>, c: seq<T>)
    ensures a + b + c == a + (b + c)
  {
  }

  lemma {:induction false} LexTags(open: seq<string>, s: string)
    requires Tags(open)
    ensures Lex(Concat(open) + s) == Opens(open) + Lex(s)
  {
    hide Lex, OpenTag;
    if open == [] {
      assert Concat(open) + s == s;
      assert Opens(open) + Lex(s) == Lex(s);
    } else {
      var t := open[0];
      assert t in open;
      var rest := Concat(open[1..]) + s;
      LexTags(open[1..], s);
      LexTag(t, rest);
      Assoc(t, Concat(open[1..]), s);
      Assoc([Open(t)], Opens(open[1..]), Lex(s));
    }
  }

  lemma {:induction false} LexClosings(n: nat)
    ensures Lex(Closings(n)) == Closes(n)
    ensures Separate(Closings(n))
  {
    if n > 0 {
      LexClosings(n - 1);
      var s := Closings(n);
      assert s[7..] == Closings(n - 1);
      assert s[1] == '/';
      assert OpenTag(s) == 0;
      assert Closes(n) == [Close] + Closes(n - 1);
    }
  }

  lemma {:induction false} RunOpens(base: seq<string>, open: seq<string>)
    ensures Run(base, Opens(open)) == base + open
    ensures NeverUnderflows(base, Opens(open)) && Enclosed(base, Opens(open)) == []
    decreases |open|
  {
    var ts := Opens(open);
    if open != [] {
      assert ts[1..] == Opens(open[1..]);
      RunOpens(base + [open[0]], open[1..]);
      assert base + [open[0]] + open[1..] == base + open;
    } else {
      assert base + open == base;
    }
  }

  lemma {:induction false} RunCloses(open: seq<string>, n: nat)
    requires n <= |open|
    ensures Run(open, Closes(n)) == open[..|open| - n]
    ensures NeverUnderflows(open, Closes(n)) && Enclosed(open, Closes(n)) == []
    decreases n
  {
    var ts := Closes(n);
    if n > 0 {
      assert ts[1..] == Closes(n - 1);
      RunCloses(open[..|open| - 1], n - 1);
    } else {
      assert open[..|open|] == open;
    }
  }

  /** Every tag that a text opens is a complete tag. */
  lemma {:induction false} RunTags(open: seq<string>, s: string)
    requires Tags(open)
    ensures Tags(Run(open, Lex(s)))
    decreases |s|
  {
    if s != [] {
      var ts := Lex(s);
      if OpenTag(s) > 0 { OneTag(s); }
      var next := Step(open, ts[0]);
      RunTags(next, s[Size(s)..]);
    }
  }

  lemma OneTag(s: string)
    requires OpenTag(s) > 0
    ensures OpenTag(s[..OpenTag(s)]) == OpenTag(s)
  {
    var n := OpenTag(s);
    var t := s[..n];
    assert t[n - 1] == '>';
    assert t[5..][n - 6] == '>';
    assert '>' in t[5..];
    OpenTagStable(t, s[n..]);
    assert t + s[n..] == s;
  }

  // ----- One line -----

  lemma NothingToClose()
    ensures Closings(0) == ""
  {
  }

  /** A wrapped line reads as the spans open before it, the line, and one close for each span open
      after it. So each of its characters keeps its spans, nothing is left open, and it is balanced
      exactly when no close in it meets an empty stack. */
  lemma LineStandsAlone(open: seq<string>, line: string)
    requires Tags(open) && (Whole(line) || Run(open, Lex(line)) == [])
    ensures var ts := Lex(Wrap(open, line));
      && Enclosed([], ts) == Enclosed(open, Lex(line))
      && Run([], ts) == []
      && (Balanced(ts) <==> NeverUnderflows(open, Lex(line)))
  {
    hide Lex, Whole, Run, Enclosed, NeverUnderflows, Tags, Opens, Closes, Closings, Concat;
    var mid := Lex(line);
    var after := Run(open, mid);
    var n := |after|;
    LexClosings(n);
    NothingToClose();
    LexConcat(line, Closings(n));
    assert Wrap(open, line) == Concat(open) + (line + Closings(n));
    LexTags(open, line + Closings(n));
    RunConcat([], Opens(open), mid + Closes(n));
    RunOpens([], open);
    assert [] + open == open;
    RunConcat(open, mid, Closes(n));
    RunCloses(after, n);
    assert [] + (Enclosed(open, mid) + []) == Enclosed(open, mid);
  }

  // ----- All lines -----

  /** The marked characters of the lines one after another, without line breaks. */
  function AllEnclosed(out: seq<string>): seq<(char, seq<string>)> {
    if out == [] then [] else Enclosed([], Lex(out[0])) + AllEnclosed(out[1..])
  }

  function UnlessBreak(mark: (char, seq<string>)): seq<(char, seq<string>)> { if mark.0 == '\n' then [] else [mark] }

  function WithoutBreaks(marks: seq<(char, seq<string>)>): seq<(char, seq<string>)> {
    if marks == [] then [] else UnlessBreak(marks[0]) + WithoutBreaks(marks[1..])
  }

  lemma {:induction false} WithoutBreaksConcat(a: seq<(char, seq<string>)>, b: seq<(char, seq<string>)>)
    ensures WithoutBreaks(a + b) == WithoutBreaks(a) + WithoutBreaks(b)
  {
    hide UnlessBreak;
    if a == [] {
      assert a + b == b;
    } else {
      WithoutBreaksConcat(a[1..], b);
      assert (a + b)[1..] == a[1..] + b;
      assert WithoutBreaks(a + b) == UnlessBreak(a[0]) + WithoutBreaks(a[1..] + b);
    }
  }

  lemma {:induction false} NoBreaks(open: seq<string>, line: string)
    requires '\n' !in line
    ensures WithoutBreaks(Enclosed(open, Lex(line))) == Enclosed(open, Lex(line))
    decreases |line|
  {
    if line != [] {
      var ts := Lex(line);
      NoBreaks(Step(open, ts[0]), line[Size(line)..]);
      assert line[0] in line;
      var rest := Enclosed(Step(open, ts[0]), ts[1..]);
      if ts[0].Ch? {
        assert ([(ts[0].c, open)] + rest)[1..] == rest;
      } else {
        assert Enclosed(open, ts) == rest;
      }
    }
  }

  /** A line break between a line and the rest: what is enclosed, and whether a close underflows. */
  lemma BreakAlone(open: seq<string>)
    ensures var gap := [Ch('\n')];
      Run(open, gap) == open && NeverUnderflows(open, gap) && Enclosed(open, gap) == [('\n', open)]
  {
    var gap := [Ch('\n')];
    assert gap[1..] == [];
  }

  lemma BreakGoes(open: seq<string>)
    ensures WithoutBreaks([('\n', open)]) == []
  {
    assert [('\n', open)][1..] == [];
  }

  lemma AcrossBreak(open: seq<string>, line: string, tail: string)
    requires (Whole(line) || '>' !in tail) && '\n' !in line
    ensures var next, doc := Run(open, Lex(line)), Lex(line + ("\n" + tail));
      && WithoutBreaks(Enclosed(open, doc)) == Enclosed(open, Lex(line)) + WithoutBreaks(Enclosed(next, Lex(tail)))
      && (NeverUnderflows(open, doc) <==> NeverUnderflows(open, Lex(line)) && NeverUnderflows(next, Lex(tail)))
  {
    hide Lex, Whole, Run, Enclosed, NeverUnderflows, Separate, WithoutBreaks;
    var next, rest, gap := Run(open, Lex(line)), Lex(tail), [Ch('\n')];
    BreakBefore(tail);
    LexConcat(line, "\n" + tail);
    LexBreak(tail);
    RunConcat(open, Lex(line), gap + rest);
    RunConcat(next, gap, rest);
    BreakAlone(next);
    WithoutBreaksConcat(Enclosed(open, Lex(line)), Enclosed(next, gap) + Enclosed(next, rest));
    WithoutBreaksConcat([('\n', next)], Enclosed(next, rest));
    BreakGoes(next);
    NoBreaks(open, line);
  }

  /** No tag is cut by a line break, except one that no later `>` completes, where nothing is open. */
  predicate Clean(open: seq<string>, lines: seq<string>)
    decreases |lines|
  {
    if lines == [] then true
    else
      var next := Run(open, Lex(lines[0]));
      && (Whole(lines[0]) || (next == [] && '>' !in Join(lines[1..], "\n")))
      && Clean(next, lines[1..])
  }

  lemma {:induction false} LinesKeepSpans(open: seq<string>, lines: seq<string>)
    requires Tags(open) && lines != [] && Clean(open, lines) && forall l <- lines :: '\n' !in l
    ensures var doc := Lex(Join(lines, "\n"));
      && AllEnclosed(WrapAll(open, lines)) == WithoutBreaks(Enclosed(open, doc))
      && ((forall w <- WrapAll(open, lines) :: Balanced(Lex(w))) <==> NeverUnderflows(open, doc))
    decreases |lines|
  {
    hide Lex, Whole, Wrap, Balanced, Tags, Run, Enclosed, NeverUnderflows;
    var line := lines[0];
    assert line in lines;
    LineStandsAlone(open, line);
    var out := WrapAll(open, lines);
    BalancedSplit(out);
    if |lines| == 1 {
      NoBreaks(open, line);
      assert out == [Wrap(open, line)] && out[1..] == [];
    } else {
      var next, rest := Run(open, Lex(line)), lines[1..];
      RunTags(open, line);
      LinesKeepSpans(next, rest);
      var tail := Join(rest, "\n");
      assert Join(lines, "\n") == line + ("\n" + tail);
      AcrossBreak(open, line, tail);
      assert out[1..] == WrapAll(next, rest);
    }
  }

  lemma LexBreak(s: string)
    ensures Lex("\n" + s) == [Ch('\n')] + Lex(s)
  {
    assert ("\n" + s)[0] == '\n' && ("\n" + s)[1..] == s;
    assert OpenTag("\n" + s) == 0;
  }

  lemma BalancedSplit(out: seq<string>)
    requires out != []
    ensures (forall w <- out :: Balanced(Lex(w))) <==> Balanced(Lex(out[0])) && forall w <- out[1..] :: Balanced(Lex(w))
  {
    assert out == [out[0]] + out[1..];
  }

  /** The bare text of some tokens. */
  function Letters(ts: seq<Token>): string {
    if ts == [] then [] else (if ts[0].Ch? then [ts[0].c] else []) + Letters(ts[1..])
  }

  function Marked(marks: seq<(char, seq<string>)>): string {
    if marks == [] then [] else [marks[0].0] + Marked(marks[1..])
  }

  lemma {:induction false} MarkedLetters(open: seq<string>, ts: seq<Token>)
    ensures Marked(Enclosed(open, ts)) == Letters(ts)
    decreases |ts|
  {
    if ts != [] {
      var rest := Enclosed(Step(open, ts[0]), ts[1..]);
      MarkedLetters(Step(open, ts[0]), ts[1..]);
      if ts[0].Ch? {
        assert ([(ts[0].c, open)] + rest)[1..] == rest;
      } else {
        assert [] + rest == rest;
      }
    }
  }

  /** A line of the result leaves nothing open and has the text of the line it was made from. */
  predicate LineKept(line: string, wrapped: string) {
    Run([], Lex(wrapped)) == [] && Letters(Lex(wrapped)) == Letters(Lex(line))
  }

  predicate LinesKept(open: seq<string>, lines: seq<string>)
    decreases |lines|
  {
    lines == [] || (LineKept(lines[0], Wrap(open, lines[0])) && LinesKept(Run(open, Lex(lines[0])), lines[1..]))
  }

  lemma {:induction false} LinesKeptEach(open: seq<string>, lines: seq<string>)
    ensures LinesKept(open, lines) <==> forall i :: 0 <= i < |lines| ==> LineKept(lines[i], WrapAll(open, lines)[i])
    decreases |lines|
  {
    hide LineKept, Wrap, Lex, Run;
    if lines != [] {
      var next, rest, out := Run(open, Lex(lines[0])), lines[1..], WrapAll(open, lines);
      LinesKeptEach(next, rest);
      assert out[0] == Wrap(open, lines[0]) && out[1..] == WrapAll(next, rest);
      if LinesKept(open, lines) {
        forall i | 0 <= i < |lines| ensures LineKept(lines[i], out[i]) {
          if i > 0 { assert LineKept(rest[i - 1], WrapAll(next, rest)[i - 1]); }
        }
      }
      if forall i :: 0 <= i < |lines| ==> LineKept(lines[i], out[i]) {
        forall i | 0 <= i < |rest| ensures LineKept(rest[i], WrapAll(next, rest)[i]) {
          assert LineKept(lines[i + 1], out[i + 1]);
        }
      }
    }
  }

  lemma {:induction false} CleanLinesKept(open: seq<string>, lines: seq<string>)
    requires Tags(open) && Clean(open, lines)
    ensures LinesKept(open, lines)
    decreases |lines|
  {
    hide Lex, Whole, Wrap, Tags, Run, Enclosed;
    if lines != [] {
      LineStandsAlone(open, lines[0]);
      MarkedLetters(open, Lex(lines[0]));
      MarkedLetters([], Lex(Wrap(open, lines[0])));
      RunTags(open, lines[0]);
      CleanLinesKept(Run(open, Lex(lines[0])), lines[1..]);
    }
  }

  // ----- A cut tag is lost -----

  lemma CloseEnds(s: string)
    ensures CLOSE <= s ==> '>' in s
  {
    if CLOSE <= s { assert s[6] == CLOSE[6]; }
  }

  lemma {:induction false} TaglessRun(open: seq<string>, s: string)
    requires '>' !in s
    ensures Run(open, Lex(s)) == open
    decreases |s|
  {
    if s != [] {
      assert OpenTag(s) == 0;
      CloseEnds(s);
      TaglessRun(open, s[1..]);
    }
  }

  lemma {:induction false} FirstAfter(a: string, b: string, c: char)
    requires c !in a && b != [] && b[0] == c
    ensures c in a + b && IndexOf(a + b, c) == |a|
  {
    if a == [] {
      assert a + b == b;
    } else {
      FirstAfter(a[1..], b, c);
      assert (a + b)[1..] == a[1..] + b;
      assert a[0] in a;
    }
  }

  /** A tag that dangles is completed by the next `>`, wherever that is. */
  lemma Completed(a: string, b: string, rest: string)
    requires Dangles(a) && '>' !in b
    ensures First(a + b + ">" + rest) == Open(a + b + ">") && Size(a + b + ">" + rest) == |a| + |b| + 1
  {
    var s, tail := a + b + ">" + rest, a[5..] + b;
    assert s[5..] == tail + (">" + rest);
    FirstAfter(tail, ">" + rest, '>');
    assert s[..|a| + |b| + 1] == a + b + ">";
  }

  /** The first closing tag put behind a line that ends in a cut tag completes that tag, so the line
      leaves two spans open. */
  lemma {:induction false} Swallowed(open: seq<string>, line: string, n: nat)
    requires !Whole(line) && n == |Run(open, Lex(line))| > 0
    ensures |Run(open, Lex(line + Closings(n)))| == 2
    decreases |line|
  {
    hide Whole, First, Size, Dangles, Lex;
    EmptyWhole();
    WholeUnfolds(line);
    LexClosings(n);
    var s := line + Closings(n);
    if Dangles(line) {
      SwallowedHere(open, line, n);
    } else {
      FirstStable(line, Closings(n));
      var k := Size(line);
      assert s[k..] == line[k..] + Closings(n);
      FirstRun(open, s);
      FirstRun(open, line);
      Swallowed(Step(open, First(line)), line[k..], n);
    }
  }

  lemma SwallowedHere(open: seq<string>, line: string, n: nat)
    requires Dangles(line) && n == |Run(open, Lex(line))| > 0
    ensures |Run(open, Lex(line + Closings(n)))| == 2
  {
    hide Run, Lex, First, Size, OpenTag;
    var s, rest := line + Closings(n), Closings(n - 1);
    DanglesTagless(line);
    TaglessRun(open, line);
    assert Closings(n) == "</span" + ">" + rest;
    assert s == line + "</span" + ">" + rest;
    Completed(line, "</span", rest);
    var tag := line + "</span" + ">";
    assert s[|tag|..] == rest;
    FirstRun(open, s);
    LexClosings(n - 1);
    RunCloses(open + [tag], n - 1);
  }

  lemma DanglesTagless(s: string)
    requires Dangles(s)
    ensures '>' !in s
  {
    assert s == s[..5] + s[5..] && s[..5] == OPEN;
  }

  lemma KeptLeavesNone(open: seq<string>, line: string)
    requires Tags(open) && Run([], Lex(Wrap(open, line))) == []
    ensures Whole(line) || Run(open, Lex(line)) == []
  {
    hide Lex, Whole, Run, Tags, Opens, Closings, Concat, Enclosed, NeverUnderflows;
    var n := |Run(open, Lex(line))|;
    assert Wrap(open, line) == Concat(open) + (line + Closings(n));
    LexTags(open, line + Closings(n));
    RunConcat([], Opens(open), Lex(line + Closings(n)));
    RunOpens([], open);
    assert [] + open == open;
    if !Whole(line) && n > 0 { Swallowed(open, line, n); }
  }

  // ----- Counting what is shown -----

  function Shown(ts: seq<Token>): nat {
    if ts == [] then 0 else (if ts[0].Ch? && ts[0].c != '\n' then 1 else 0) + Shown(ts[1..])
  }

  lemma {:induction false} ShownConcat(a: seq<Token>, b: seq<Token>)
    ensures Shown(a + b) == Shown(a) + Shown(b)
  {
    if a == [] {
      assert a + b == b;
    } else {
      ShownConcat(a[1..], b);
      assert (a + b)[1..] == a[1..] + b;
    }
  }

  lemma {:induction false} ShownMarks(open: seq<string>, ts: seq<Token>)
    ensures |WithoutBreaks(Enclosed(open, ts))| == Shown(ts)
    decreases |ts|
  {
    if ts != [] {
      var rest := Enclosed(Step(open, ts[0]), ts[1..]);
      ShownMarks(Step(open, ts[0]), ts[1..]);
      if ts[0].Ch? {
        assert ([(ts[0].c, open)] + rest)[1..] == rest;
      } else {
        assert [] + rest == rest;
      }
    }
  }

  /** Past its first `>`, a text is read on as it would be from there. */
  lemma {:induction false} ShownAfter(s: string)
    requires '>' in s
    ensures Shown(Lex(s[IndexOf(s, '>') + 1..])) <= Shown(Lex(s))
    decreases |s|
  {
    var p := IndexOf(s, '>');
    AfterFirst(s);
    var rest := s[Size(s)..];
    assert Lex(s)[1..] == Lex(rest);
    if p + 1 != Size(s) {
      ShownAfter(s[1..]);
      assert s[1..][p..] == s[p + 1..];
    }
  }

  lemma AfterFirst(s: string)
    requires '>' in s
    ensures var p := IndexOf(s, '>');
      p + 1 == Size(s) || (Size(s) == 1 && p > 0 && '>' in s[1..] && IndexOf(s[1..], '>') == p - 1)
  {
    if OPEN <= s {
      assert s == OPEN + s[5..];
      SkipsTo(OPEN, s[5..], '>');
    } else if CLOSE <= s {
      assert s == "</span" + s[6..] && s[6] == '>';
      FirstAfter("</span", s[6..], '>');
      assert OpenTag(s) == 0;
    }
  }

  lemma {:induction false} SkipsTo(a: string, b: string, c: char)
    requires c !in a && c in a + b
    ensures c in b && IndexOf(a + b, c) == |a| + IndexOf(b, c)
  {
    if a == [] {
      assert a + b == b;
    } else {
      assert (a + b)[1..] == a[1..] + b && a[0] in a;
      SkipsTo(a[1..], b, c);
    }
  }

  /** Read together, a line and what follows show at most what they show apart; less, if the break
      cuts a tag. */
  lemma {:induction false} ShownTogether(line: string, tail: string)
    ensures Shown(Lex(line + ("\n" + tail))) <= Shown(Lex(line)) + Shown(Lex(tail))
    ensures !Whole(line) && '>' in tail ==> Shown(Lex(line + ("\n" + tail))) < Shown(Lex(line)) + Shown(Lex(tail))
    decreases |line|
  {
    hide Lex, Whole, First, Size, Dangles, IndexOf, Shown;
    var b := "\n" + tail;
    if line == [] {
      assert line + b == b;
      LexBreak(tail);
      BreakShowsNothing(Lex(tail));
      EmptyWhole();
    } else if Dangles(line) && '>' in tail {
      ShownCut(line, tail);
    } else {
      var k := Size(line);
      WholeUnfolds(line);
      BreakBefore(tail);
      FirstStable(line, b);
      assert (line + b)[k..] == line[k..] + b;
      ShownTogether(line[k..], tail);
      ShownFirst(line);
      ShownFirst(line + b);
    }
  }

  lemma BreakBefore(tail: string)
    ensures Separate("\n" + tail) && ('>' !in tail ==> '>' !in "\n" + tail)
  {
  }

  lemma EmptyWhole()
    ensures Whole("") && Lex("") == [] && Shown([]) == 0
  {
  }

  lemma BreakShowsNothing(ts: seq<Token>)
    ensures Shown([Ch('\n')] + ts) == Shown(ts)
  {
    assert ([Ch('\n')] + ts)[1..] == ts;
  }

  lemma ShownFirst(s: string)
    requires s != []
    ensures Shown(Lex(s)) == Shown([First(s)]) + Shown(Lex(s[Size(s)..]))
  {
    hide First, Size, Shown;
    ShownConcat([First(s)], Lex(s[Size(s)..]));
  }

  lemma ShownCut(line: string, tail: string)
    requires Dangles(line) && '>' in tail
    ensures Shown(Lex(line + ("\n" + tail))) < Shown(Lex(line)) + Shown(Lex(tail))
  {
    hide Lex, OpenTag, First, Size;
    var p := IndexOf(tail, '>');
    var b, rest := "\n" + tail[..p], tail[p + 1..];
    var s := line + ("\n" + tail);
    assert s == line + b + ">" + rest;
    Completed(line, b, rest);
    assert s[|line| + |b| + 1..] == rest;
    ShownFirst(s);
    ShownAfter(tail);
    DanglingChar(line);
    ShownFirst(line);
  }

  lemma DanglingChar(s: string)
    requires Dangles(s)
    ensures First(s) == Ch('<')
  {
    OpenIsNoClose(s);
  }

  function ShownInAll(lines: seq<string>): nat {
    if lines == [] then 0 else Shown(Lex(lines[0])) + ShownInAll(lines[1..])
  }

  /** No later `>` completes a tag that a line break cuts. */
  predicate NoneCompleted(lines: seq<string>) {
    lines == [] || ((Whole(lines[0]) || '>' !in Join(lines[1..], "\n")) && NoneCompleted(lines[1..]))
  }

  lemma {:induction false} ShownJoined(lines: seq<string>)
    requires lines != []
    ensures Shown(Lex(Join(lines, "\n"))) <= ShownInAll(lines)
    ensures Shown(Lex(Join(lines, "\n"))) == ShownInAll(lines) ==> NoneCompleted(lines)
  {
    hide Lex, Shown, Whole;
    if |lines| > 1 {
      var tail := Join(lines[1..], "\n");
      assert Join(lines, "\n") == lines[0] + ("\n" + tail);
      ShownTogether(lines[0], tail);
      ShownJoined(lines[1..]);
    } else {
      assert lines[1..] == [];
    }
  }

  lemma {:induction false} ShownKept(open: seq<string>, lines: seq<string>)
    requires LinesKept(open, lines) && forall l <- lines :: '\n' !in l
    ensures |AllEnclosed(WrapAll(open, lines))| == ShownInAll(lines)
    decreases |lines|
  {
    hide Lex, Shown, Wrap, Run;
    if lines != [] {
      var line, out := lines[0], WrapAll(open, lines);
      var next := Run(open, Lex(line));
      ShownKept(next, lines[1..]);
      assert out[0] == Wrap(open, line) && out[1..] == WrapAll(next, lines[1..]);
      MarkedLetters([], Lex(out[0]));
      MarkedLetters([], Lex(line));
      MarkedLength(Enclosed([], Lex(out[0])));
      MarkedLength(Enclosed([], Lex(line)));
      assert line in lines;
      NoBreaks([], line);
      ShownMarks([], Lex(line));
    }
  }

  lemma {:induction false} MarkedLength(marks: seq<(char, seq<string>)>)
    ensures |Marked(marks)| == |marks|
  {
    if marks != [] { MarkedLength(marks[1..]); }
  }

  lemma {:induction false} KeptAndNoneCompleted(open: seq<string>, lines: seq<string>)
    requires Tags(open) && LinesKept(open, lines) && NoneCompleted(lines)
    ensures Clean(open, lines)
    decreases |lines|
  {
    hide Lex, Whole, Wrap, Run, Tags;
    if lines != [] {
      KeptLeavesNone(open, lines[0]);
      RunTags(open, lines[0]);
      KeptAndNoneCompleted(Run(open, Lex(lines[0])), lines[1..]);
    }
  }

  // ----- The law, and exactly when it holds -----

  /** Every line of the result has the text of its line and leaves nothing open, and every character
      has exactly the spans that it has in the whole text. */
  predicate KeepsSpans(html: string) {
    var lines, out := Split(html, '\n'), WrapAll([], Split(html, '\n'));
    && (forall i :: 0 <= i < |lines| ==> LineKept(lines[i], out[i]))
    && AllEnclosed(out) == WithoutBreaks(Enclosed([], Lex(html)))
  }

  /** For every text the law holds exactly when no line break cuts a tag, except one that no later `>`
      completes, where nothing is open. The lines are then all balanced exactly when no closing tag
      of the text underflows. */
  lemma SplitKeepsSpans(html: string)
    ensures KeepsSpans(html) <==> Clean([], Split(html, '\n'))
    ensures Clean([], Split(html, '\n')) ==>
      ((forall w <- WrapAll([], Split(html, '\n')) :: Balanced(Lex(w))) <==> NeverUnderflows([], Lex(html)))
  {
    hide Lex, Balanced, Run, Clean, LineKept, LinesKept, WrapAll, AllEnclosed, WithoutBreaks, Enclosed, NeverUnderflows;
    var lines := Split(html, '\n');
    JoinSplit(html, '\n');
    assert ['\n'] == "\n";
    LinesKeptEach([], lines);
    if Clean([], lines) {
      CleanLinesKept([], lines);
      LinesKeepSpans([], lines);
    }
    if KeepsSpans(html) {
      ShownKept([], lines);
      ShownMarks([], Lex(html));
      ShownJoined(lines);
      KeptAndNoneCompleted([], lines);
    }
  }

  /** Where every tag is whole in its line, as highlighters write them, the law holds. */
  lemma {:induction false} WholeIsClean(open: seq<string>, lines: seq<string>)
    requires forall l <- lines :: Whole(l)
    ensures Clean(open, lines)
    decreases |lines|
  {
    hide Whole;
    if lines != [] {
      assert lines[0] in lines;
      WholeIsClean(Run(open, Lex(lines[0])), lines[1..]);
    }
  }

  /** A tag that a line break cuts opens a span in the text, but its first line opens none and shows
      its `<` as a character instead; so the law fails, whatever follows. */
  lemma CutTagIsNoTag(a: string, b: string, rest: string)
    requires '>' !in a && '>' !in b
    ensures First(OPEN + a + "\n" + b + ">" + rest) == Open(OPEN + a + "\n" + b + ">")
    ensures First(OPEN + a) == Ch('<') && !Whole(OPEN + a)
    ensures '\n' !in a ==> !KeepsSpans(OPEN + a + "\n" + b + ">" + rest)
  {
    hide Whole, First, Size, KeepsSpans;
    var line := OPEN + a;
    assert line[5..] == a && Dangles(line);
    DanglingChar(line);
    NotWhole(line);
    Completed(line, "\n" + b, rest);
    assert line + ("\n" + b) + ">" + rest == line + "\n" + b + ">" + rest;
    assert line + ("\n" + b) + ">" == line + "\n" + b + ">";
    if '\n' !in a { CutTagBreaks(a, b, rest); }
  }

  lemma CutTagBreaks(a: string, b: string, rest: string)
    requires '>' !in a && '\n' !in a && '>' !in b
    ensures !KeepsSpans(OPEN + a + "\n" + b + ">" + rest)
  {
    hide Whole, KeepsSpans, Clean, Lex;
    var line, tail := OPEN + a, b + ">" + rest;
    var html := OPEN + a + "\n" + b + ">" + rest;
    assert html == line + ("\n" + tail);
    SplitKeepsSpans(html);
    FirstLine(line, tail);
    assert line[5..] == a && Dangles(line);
    NotWhole(line);
    JoinSplit(tail, '\n');
    assert tail[|b|] == '>' && '>' in tail;
    NotClean([], Split(html, '\n'), tail);
  }

  lemma NotWhole(s: string)
    requires Dangles(s)
    ensures !Whole(s)
  {
  }

  lemma NotClean(open: seq<string>, lines: seq<string>, tail: string)
    requires lines != [] && !Whole(lines[0]) && '>' in tail && Join(lines[1..], "\n") == tail
    ensures !Clean(open, lines)
  {
  }

  lemma {:induction false} FirstLine(line: string, tail: string)
    requires '\n' !in line
    ensures Split(line + ("\n" + tail), '\n') == [line] + Split(tail, '\n')
  {
    var s := line + ("\n" + tail);
    if line == [] {
      assert s == "\n" + tail && s[0] == '\n' && s[1..] == tail;
      assert [[]] + Split(tail, '\n') == [line] + Split(tail, '\n');
    } else {
      assert line[0] in line && s[1..] == line[1..] + ("\n" + tail);
      FirstLine(line[1..], tail);
      var rest := Split(s[1..], '\n');
      assert rest[0] == line[1..] && rest[1..] == Split(tail, '\n') && [line[0]] + line[1..] == line;
    }
  }
}
