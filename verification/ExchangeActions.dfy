/** toCurl of frontend/src/exchangeActions.ts, and the part of the POSIX.1-2017 Shell Command
    Language (sections 2.2.1, 2.2.2 and 2.3) that reads what it writes; it refuses what sections 2.6.1
    and 2.13 would expand. */
module ExchangeActions {
  import opened Text

  datatype Exchange = Exchange(verb: string, url: string, requestHeaders: string, requestBody: string)

  // ----- The printer -----

  /** Every single quote becomes: close the quotes, an escaped quote, open them again. */
  function Escape(s: string): string {
    if s == [] then [] else (if s[0] == '\'' then "'\\''" else [s[0]]) + Escape(s[1..])
  }

  function ShellQuote(s: string): string { "'" + Escape(s) + "'" }

  const CONTINUED := " \\\n"

  function HeaderParts(lines: seq<string>): seq<string> {
    if lines == [] then []
    else
      var h := Trim(lines[0], JsSpace);
      (if h != "" then ["  -H " + ShellQuote(h)] else []) + HeaderParts(lines[1..])
  }

  function Parts(ex: Exchange): seq<string> {
    ["curl -i -X " + ex.verb + " " + ShellQuote(ex.url)] + HeaderParts(Split(ex.requestHeaders, '\n'))
    + (if ex.requestBody != "" then ["  --data " + ShellQuote(ex.requestBody)] else [])
  }

  method ToCurl(ex: Exchange) returns (command: string)
    ensures command == Join(Parts(ex), CONTINUED)
  {
    hide ShellQuote, Join, Trim;
    var lines := Split(ex.requestHeaders, '\n');
    var parts := ["curl -i -X " + ex.verb + " " + ShellQuote(ex.url)];
    ghost var first := parts;
    var i := 0;
    while i < |lines|
      invariant 0 <= i <= |lines|
      invariant parts + HeaderParts(lines[i..]) == first + HeaderParts(lines)
    {
      hide HeaderParts;
      var h := Trim(lines[i], JsSpace);
      assert lines[i..][1..] == lines[i + 1..] && lines[i..][0] == lines[i];
      if h != "" {
        OneHeaderPart(lines[i..]);
        Assoc(parts, ["  -H " + ShellQuote(h)], HeaderParts(lines[i + 1..]));
        parts := parts + ["  -H " + ShellQuote(h)];
      } else {
        NoHeaderPart(lines[i..]);
      }
      i := i + 1;
    }
    assert parts == first + HeaderParts(lines);
    if ex.requestBody != "" {
      parts := parts + ["  --data " + ShellQuote(ex.requestBody)];
    }
    command := Join(parts, CONTINUED);
  }

  lemma Assoc(a: seq<string>, b: seq<string>, c: seq<string>)
    ensures a + b + c == a + (b + c)
  {
  }

  lemma NoHeaderPart(lines: seq<string>)
    requires lines != [] && Trim(lines[0], JsSpace) == ""
    ensures HeaderParts(lines) == HeaderParts(lines[1..])
  {
    hide ShellQuote, Trim;
  }

  lemma OneHeaderPart(lines: seq<string>)
    requires lines != [] && Trim(lines[0], JsSpace) != ""
    ensures HeaderParts(lines) == ["  -H " + ShellQuote(Trim(lines[0], JsSpace))] + HeaderParts(lines[1..])
  {
    hide ShellQuote, Trim;
  }

  // ----- The reader: token recognition and quote removal of one simple command -----

  datatype Mode = Between | InWord(cur: string) | InQuotes(cur: string)

  datatype Words = Words(ws: seq<string>) | Rejected

  /** Characters that outside quotes end the command, start an operator, a substitution or a
      double-quoted string, or make the word a pattern of file names: from here on the words depend on
      more than the text. */
  predicate Special(c: char) { c in "\n;&|<>()\"$`*?[" }

  /** Characters that at the start of a word begin a comment or a tilde prefix. */
  predicate Leading(c: char) { c == '#' || c == '~' }

  predicate Blank(c: char) { c == ' ' || c == '\t' }

  function Current(m: Mode): string { if m.Between? then "" else m.cur }

  function Flush(m: Mode, acc: seq<string>): seq<string> { if m.InWord? then acc + [m.cur] else acc }

  /** Reads the text from the given mode; `acc` are the words completed so far. An unfinished quote
      or escape rejects. */
  function Tokenize(s: string, m: Mode, acc: seq<string>): Words
    decreases |s|
  {
    if s == [] then
      if m.InQuotes? then Rejected else Words(Flush(m, acc))
    else if m.InQuotes? then
      Tokenize(s[1..], if s[0] == '\'' then InWord(m.cur) else InQuotes(m.cur + [s[0]]), acc)
    else if s[0] == '\\' then
      if |s| == 1 then Rejected
      else if s[1] == '\n' then Tokenize(s[2..], m, acc)
      else Tokenize(s[2..], InWord(Current(m) + [s[1]]), acc)
    else if s[0] == '\'' then Tokenize(s[1..], InQuotes(Current(m)), acc)
    else if Blank(s[0]) then Tokenize(s[1..], Between, Flush(m, acc))
    else if Special(s[0]) || (Leading(s[0]) && m.Between?) then Rejected
    else Tokenize(s[1..], InWord(Current(m) + [s[0]]), acc)
  }

  function Read(s: string): Words { Tokenize(s, Between, []) }

  // ----- The round trip -----

  /** A word that needs no quotes. */
  predicate Plain(s: string) {
    s != [] && !Leading(s[0]) && forall c <- s :: PlainChar(c)
  }

  predicate PlainChar(c: char) { !Special(c) && !Blank(c) && c != '\'' && c != '\\' }

  lemma ReadsPlainChar(c: char, rest: string, m: Mode, acc: seq<string>)
    requires PlainChar(c) && !m.InQuotes? && (m.Between? ==> !Leading(c))
    ensures Tokenize([c] + rest, m, acc) == Tokenize(rest, InWord(Current(m) + [c]), acc)
  {
    assert ([c] + rest)[0] == c && ([c] + rest)[1..] == rest;
  }

  lemma {:induction false} ReadsPlainTail(w: string, rest: string, cur: string, acc: seq<string>)
    requires forall c <- w :: PlainChar(c)
    ensures Tokenize(w + rest, InWord(cur), acc) == Tokenize(rest, InWord(cur + w), acc)
    decreases |w|
  {
    hide Tokenize, PlainChar;
    if w == [] {
      assert w + rest == rest && cur + w == cur;
    } else {
      assert w[0] in w;
      assert w + rest == [w[0]] + (w[1..] + rest);
      ReadsPlainChar(w[0], w[1..] + rest, InWord(cur), acc);
      ReadsPlainTail(w[1..], rest, cur + [w[0]], acc);
      assert cur + [w[0]] + w[1..] == cur + w;
    }
  }

  lemma ReadsPlain(w: string, rest: string, acc: seq<string>)
    requires Plain(w)
    ensures Tokenize(w + rest, Between, acc) == Tokenize(rest, InWord(w), acc)
  {
    hide Tokenize, PlainChar;
    assert w[0] in w;
    assert w + rest == [w[0]] + (w[1..] + rest);
    ReadsPlainChar(w[0], w[1..] + rest, Between, acc);
    assert "" + [w[0]] == [w[0]];
    ReadsPlainTail(w[1..], rest, [w[0]], acc);
    assert [w[0]] + w[1..] == w;
  }

  lemma ReadsEscapedQuote(tail: string, cur: string, acc: seq<string>)
    ensures Tokenize("'\\''" + tail, InQuotes(cur), acc) == Tokenize(tail, InQuotes(cur + ['\'']), acc)
  {
    var s := "'\\''" + tail;
    assert s[0] == '\'' && s[1] == '\\' && s[2] == '\'' && s[3] == '\'';
    assert s[1..][2..] == s[3..] && s[3..][1..] == tail;
    assert Tokenize(s, InQuotes(cur), acc) == Tokenize(s[1..], InWord(cur), acc);
    assert Tokenize(s[1..], InWord(cur), acc) == Tokenize(s[3..], InWord(cur + ['\'']), acc);
    assert Tokenize(s[3..], InWord(cur + ['\'']), acc) == Tokenize(tail, InQuotes(cur + ['\'']), acc);
  }

  lemma ReadsInQuotes(c: char, tail: string, cur: string, acc: seq<string>)
    ensures Tokenize([c] + tail, InQuotes(cur), acc) ==
            Tokenize(tail, if c == '\'' then InWord(cur) else InQuotes(cur + [c]), acc)
  {
    assert ([c] + tail)[0] == c && ([c] + tail)[1..] == tail;
  }

  lemma {:induction false} ReadsEscaped(t: string, rest: string, cur: string, acc: seq<string>)
    ensures Tokenize(Escape(t) + "'" + rest, InQuotes(cur), acc) == Tokenize(rest, InWord(cur + t), acc)
    decreases |t|
  {
    hide Tokenize;
    var s := Escape(t) + "'" + rest;
    if t == [] {
      assert s == ['\''] + rest && cur + t == cur;
      ReadsInQuotes('\'', rest, cur, acc);
    } else {
      var tail := Escape(t[1..]) + "'" + rest;
      ReadsEscaped(t[1..], rest, cur + [t[0]], acc);
      assert cur + [t[0]] + t[1..] == cur + t;
      if t[0] == '\'' {
        assert s == "'\\''" + tail;
        ReadsEscapedQuote(tail, cur, acc);
      } else {
        assert s == [t[0]] + tail;
        ReadsInQuotes(t[0], tail, cur, acc);
      }
    }
  }

  /** Any text at all comes back from behind shell quotes as one word. */
  lemma ReadsQuoted(t: string, rest: string, acc: seq<string>)
    ensures Tokenize(ShellQuote(t) + rest, Between, acc) == Tokenize(rest, InWord(t), acc)
  {
    var s := ShellQuote(t) + rest;
    assert s[0] == '\'' && s[1..] == Escape(t) + "'" + rest;
    ReadsEscaped(t, rest, "", acc);
    assert "" + t == t;
  }

  lemma ReadsBlank(rest: string, m: Mode, acc: seq<string>)
    requires !m.InQuotes?
    ensures Tokenize(" " + rest, m, acc) == Tokenize(rest, Between, Flush(m, acc))
  {
    assert (" " + rest)[0] == ' ' && (" " + rest)[1..] == rest;
  }

  /** A word, plain or quoted, followed by a blank. */
  lemma ReadsPlainWord(w: string, rest: string, acc: seq<string>)
    requires Plain(w)
    ensures Tokenize(w + " " + rest, Between, acc) == Tokenize(rest, Between, acc + [w])
  {
    assert w + " " + rest == w + (" " + rest);
    ReadsPlain(w, " " + rest, acc);
    ReadsBlank(rest, InWord(w), acc);
  }

  /** The words of an option part, read after the end of the part before it. */
  lemma ReadsOption(name: string, value: string, rest: string, last: string, acc: seq<string>)
    requires Plain(name)
    ensures Tokenize(CONTINUED + ("  " + name + " " + ShellQuote(value)) + rest, InWord(last), acc)
         == Tokenize(rest, InWord(value), acc + [last, name])
  {
    hide Tokenize, ShellQuote, Plain;
    var part := name + " " + (ShellQuote(value) + rest);
    var s := CONTINUED + ("  " + name + " " + ShellQuote(value)) + rest;
    assert s == " " + ("\\\n" + ("  " + part));
    ReadsBlank("\\\n" + ("  " + part), InWord(last), acc);
    ReadsContinuation("  " + part, acc + [last]);
    assert "  " + part == " " + (" " + part);
    ReadsBlank(" " + part, Between, acc + [last]);
    ReadsBlank(part, Between, acc + [last]);
    ReadsPlainWord(name, ShellQuote(value) + rest, acc + [last]);
    assert acc + [last] + [name] == acc + [last, name];
    ReadsQuoted(value, rest, acc + [last, name]);
  }

  lemma ReadsContinuation(rest: string, acc: seq<string>)
    ensures Tokenize("\\\n" + rest, Between, acc) == Tokenize(rest, Between, acc)
  {
    var s := "\\\n" + rest;
    assert s[0] == '\\' && s[1] == '\n' && s[2..] == rest;
  }

  /** The option words that the headers and the body call for. */
  function HeaderWords(lines: seq<string>): seq<string> {
    if lines == [] then []
    else
      var h := Trim(lines[0], JsSpace);
      (if h != "" then ["-H", h] else []) + HeaderWords(lines[1..])
  }

  function BodyWords(body: string): seq<string> { if body != "" then ["--data", body] else [] }

  function Arguments(ex: Exchange): seq<string> {
    ["curl", "-i", "-X", ex.verb, ex.url] + HeaderWords(Split(ex.requestHeaders, '\n')) + BodyWords(ex.requestBody)
  }

  /** The text of parts that follow another part. */
  function Following(parts: seq<string>): string {
    if parts == [] then [] else CONTINUED + parts[0] + Following(parts[1..])
  }

  lemma {:induction false} JoinFollowing(parts: seq<string>)
    requires parts != []
    ensures Join(parts, CONTINUED) == parts[0] + Following(parts[1..])
  {
    if |parts| == 1 {
      assert parts[1..] == [] && parts[0] + [] == parts[0];
    } else {
      JoinFollowing(parts[1..]);
      assert parts[1..][1..] == parts[2..];
      assert parts[0] + CONTINUED + (parts[1] + Following(parts[2..]))
          == parts[0] + (CONTINUED + parts[1] + Following(parts[2..]));
    }
  }

  lemma OptionsPlain()
    ensures Plain("-H") && Plain("--data") && Plain("curl") && Plain("-i") && Plain("-X")
  {
    hide Tokenize;
  }

  lemma {:induction false} ReadsHeaders(lines: seq<string>, body: string, last: string, acc: seq<string>)
    ensures Tokenize(Following(HeaderParts(lines) + BodyParts(body)), InWord(last), acc)
         == Words(acc + [last] + HeaderWords(lines) + BodyWords(body))
    decreases |lines|
  {
    hide Plain, Tokenize, ShellQuote, Following;
    OptionsPlain();
    if lines == [] {
      assert HeaderParts(lines) + BodyParts(body) == BodyParts(body);
      assert HeaderWords(lines) + BodyWords(body) == BodyWords(body);
      ReadsBody(body, last, acc);
      assert acc + [last] + HeaderWords(lines) == acc + [last];
    } else {
      var h := Trim(lines[0], JsSpace);
      if h == "" {
        NoHeader(lines);
        ReadsHeaders(lines[1..], body, last, acc);
      } else {
        OneHeader(lines);
        hide HeaderParts, HeaderWords;
        var rest := HeaderParts(lines[1..]) + BodyParts(body);
        var part := "  -H " + ShellQuote(h);
        FollowingCons(part, HeaderParts(lines[1..]), BodyParts(body));
        OptionText("-H", h);
        ReadsOption("-H", h, Following(rest), last, acc);
        ReadsHeaders(lines[1..], body, h, acc + [last, "-H"]);
        WordsShift(acc, last, h, HeaderWords(lines[1..]), BodyWords(body));
      }
    }
  }

  lemma NoHeader(lines: seq<string>)
    requires lines != [] && Trim(lines[0], JsSpace) == ""
    ensures HeaderParts(lines) == HeaderParts(lines[1..]) && HeaderWords(lines) == HeaderWords(lines[1..])
  {
    hide ShellQuote;
  }

  lemma OneHeader(lines: seq<string>)
    requires lines != [] && Trim(lines[0], JsSpace) != ""
    ensures var h := Trim(lines[0], JsSpace);
      && HeaderParts(lines) == ["  -H " + ShellQuote(h)] + HeaderParts(lines[1..])
      && HeaderWords(lines) == ["-H", h] + HeaderWords(lines[1..])
  {
    hide ShellQuote;
  }

  lemma OptionText(name: string, value: string)
    ensures "  " + name + " " + ShellQuote(value) == "  " + (name + " ") + ShellQuote(value)
    ensures name == "-H" ==> "  " + name + " " == "  -H "
    ensures name == "--data" ==> "  " + name + " " == "  --data "
  {
  }

  lemma FollowingCons(part: string, more: seq<string>, body: seq<string>)
    ensures Following([part] + more + body) == CONTINUED + part + Following(more + body)
  {
    var all := [part] + more + body;
    assert all[0] == part && all[1..] == more + body;
  }

  lemma WordsShift(acc: seq<string>, last: string, h: string, more: seq<string>, body: seq<string>)
    ensures acc + [last, "-H"] + [h] + more + body == acc + [last] + (["-H", h] + more) + body
  {
  }

  function BodyParts(body: string): seq<string> { if body != "" then ["  --data " + ShellQuote(body)] else [] }

  lemma ReadsBody(body: string, last: string, acc: seq<string>)
    ensures Tokenize(Following(BodyParts(body)), InWord(last), acc) == Words(acc + [last] + BodyWords(body))
  {
    if body == "" {
      assert acc + [last] + [] == acc + [last];
    } else {
      OptionsPlain();
      var parts := BodyParts(body);
      assert parts[1..] == [];
      OptionText("--data", body);
      ReadsOption("--data", body, "", last, acc);
      assert acc + [last, "--data"] + [body] == acc + [last] + ["--data", body];
    }
  }

  lemma ReadsFront(fourth: string)
    ensures Read("curl -i -X " + fourth) == Tokenize(fourth, Between, ["curl", "-i", "-X"])
  {
    hide Plain, Tokenize;
    OptionsPlain();
    assert "curl -i -X " + fourth == "curl" + " " + ("-i" + " " + ("-X" + " " + fourth));
    ReadsPlainWord("curl", "-i" + " " + ("-X" + " " + fourth), []);
    ReadsPlainWord("-i", "-X" + " " + fourth, ["curl"]);
    ReadsPlainWord("-X", fourth, ["curl", "-i"]);
    assert [] + ["curl"] == ["curl"] && ["curl"] + ["-i"] == ["curl", "-i"]
        && ["curl", "-i"] + ["-X"] == ["curl", "-i", "-X"];
  }

  /** For every url, headers and body, and any method that needs no quotes (every method made of
      letters is one): reading the command that toCurl writes gives curl, -i, -X, the method, the
      url, one -H pair for each non-empty trimmed header line, and --data with the body if there is
      one, each value exactly as it was. */
  lemma CurlRoundTrips(ex: Exchange)
    requires Plain(ex.verb)
    ensures Read(Join(Parts(ex), CONTINUED)) == Words(Arguments(ex))
  {
    hide Plain, Tokenize, ShellQuote, HeaderParts, HeaderWords;
    OptionsPlain();
    var lines := Split(ex.requestHeaders, '\n');
    var parts, tail := Parts(ex), HeaderParts(lines) + BodyParts(ex.requestBody);
    assert parts[1..] == tail;
    JoinFollowing(parts);
    var after := Following(tail);
    var last := ShellQuote(ex.url) + after;
    var fourth := ex.verb + " " + last;
    assert parts[0] + after == "curl -i -X " + fourth;
    ReadsFront(fourth);
    ReadsPlainWord(ex.verb, last, ["curl", "-i", "-X"]);
    assert ["curl", "-i", "-X"] + [ex.verb] == ["curl", "-i", "-X", ex.verb];
    ReadsQuoted(ex.url, after, ["curl", "-i", "-X", ex.verb]);
    ReadsHeaders(lines, ex.requestBody, ex.url, ["curl", "-i", "-X", ex.verb]);
    assert ["curl", "-i", "-X", ex.verb] + [ex.url] == ["curl", "-i", "-X", ex.verb, ex.url];
  }

  predicate Letter(c: char) { 'a' <= c <= 'z' || 'A' <= c <= 'Z' }

  lemma LettersArePlain(s: string)
    requires s != "" && forall c <- s :: Letter(c)
    ensures Plain(s)
  {
    assert s[0] in s;
  }

  lemma SpecialBreaks(c: char, tail: string, m: Mode, acc: seq<string>)
    requires tail != "" && tail[0] == c && Special(c) && !m.InQuotes?
    ensures Tokenize(tail, m, acc) == Rejected
  {
  }

  /** The method is the one value that is not quoted: if the first character of it that would need
      quotes is one that Special lists, the text no longer fixes the words of one simple command. */
  lemma UnquotedMethodBreaks(ex: Exchange, w: string, c: char, rest: string)
    requires ex.verb == w + [c] + rest && (w == "" || Plain(w)) && Special(c)
    ensures Read(Join(Parts(ex), CONTINUED)) == Rejected
  {
    hide ShellQuote, HeaderParts, Tokenize, Special;
    OptionsPlain();
    var parts := Parts(ex);
    JoinFollowing(parts);
    var tail := [c] + (rest + " " + ShellQuote(ex.url) + Following(parts[1..]));
    var fourth := w + tail;
    assert parts[0] + Following(parts[1..]) == "curl -i -X " + fourth;
    ReadsFront(fourth);
    if w == "" {
      assert fourth == tail;
      SpecialBreaks(c, tail, Between, ["curl", "-i", "-X"]);
    } else {
      ReadsPlain(w, tail, ["curl", "-i", "-X"]);
      SpecialBreaks(c, tail, InWord(w), ["curl", "-i", "-X"]);
    }
  }

  // ----- Only plain methods come back -----

  function Size(ws: seq<string>): nat { if ws == [] then 0 else Size(ws[..|ws| - 1]) + |ws[|ws| - 1]| }

  lemma SizeSnoc(ws: seq<string>, w: string)
    ensures Size(ws + [w]) == Size(ws) + |w|
  {
    assert (ws + [w])[..|ws|] == ws;
  }

  /** The characters read so far: those of finished words and of the current one. */
  function Held(m: Mode, acc: seq<string>): nat { Size(acc) + |Current(m)| }

  lemma FlushHolds(m: Mode, acc: seq<string>)
    requires !m.InQuotes?
    ensures Size(Flush(m, acc)) == Held(m, acc)
  {
    if m.InWord? { SizeSnoc(acc, m.cur); }
  }

  const EMPTY_QUOTED := " ''"

  lemma ReadsEmptyQuoted(m: Mode, acc: seq<string>)
    ensures Tokenize(EMPTY_QUOTED, m, acc) == if m.InQuotes? then Rejected else Words(Flush(m, acc) + [""])
  {
    var s := EMPTY_QUOTED;
    assert s[0] == ' ' && s[1..][0] == '\'' && s[1..][1..][0] == '\'' && s[1..][1..][1..] == "";
  }

  /** A backslash right before the blank escapes it, so both quotes go and one word is left. */
  lemma ReadsEscapedBlank(m: Mode, acc: seq<string>)
    requires !m.InQuotes?
    ensures Tokenize("\\" + EMPTY_QUOTED, m, acc) == Words(acc + [Current(m) + " "])
  {
    var s, w := "\\" + EMPTY_QUOTED, InWord(Current(m) + " ");
    assert s[0] == '\\' && s[1] == ' ' && s[2..] == "''";
    assert Tokenize(s, m, acc) == Tokenize("''", w, acc);
    assert "''"[0] == '\'' && "''"[1..] == "'" && "'"[0] == '\'' && "'"[1..] == "";
    assert Tokenize("'", InQuotes(w.cur), acc) == Tokenize("", w, acc);
  }

  /** One character, unless it escapes the next: what is read on, with what is held by then. */
  lemma ReadsOne(r: string, tail: string, m: Mode, acc: seq<string>) returns (k: nat, m': Mode, acc': seq<string>)
    requires r != [] && (m.InQuotes? || r[0] != '\\' || |r| > 1)
    requires m.InQuotes? || PlainChar(r[0]) || r[0] in "'\\ \t"
    requires m.Between? ==> !Leading(r[0])
    ensures 0 < k <= |r| && Tokenize(r + tail, m, acc) == Tokenize(r[k..] + tail, m', acc')
    ensures Held(m', acc') <= Held(m, acc) + k
    ensures Held(m', acc') == Held(m, acc) + k <==> if m.InQuotes? then r[0] != '\'' else PlainChar(r[0])
    ensures !m.InQuotes? && PlainChar(r[0]) ==> k == 1 && m'.InWord? && acc' == acc
  {
    var s := r + tail;
    assert s[0] == r[0] && s[1..] == r[1..] + tail;
    k := 1;
    if m.InQuotes? {
      m', acc' := if r[0] == '\'' then InWord(m.cur) else InQuotes(m.cur + [r[0]]), acc;
    } else if r[0] == '\\' {
      assert s[1] == r[1] && s[2..] == r[2..] + tail;
      k := 2;
      m', acc' := if r[1] == '\n' then m else InWord(Current(m) + [r[1]]), acc;
    } else if r[0] == '\'' {
      m', acc' := InQuotes(Current(m)), acc;
    } else if Blank(r[0]) {
      m', acc' := Between, Flush(m, acc);
      FlushHolds(m, acc);
    } else {
      m', acc' := InWord(Current(m) + [r[0]]), acc;
    }
  }

  /** Reading any text and an empty quoted word after it: the blank and both quotes are lost, or one
      character of the text is lost in their place. */
  lemma {:induction false} ThreeAreLost(r: string, m: Mode, acc: seq<string>)
    ensures var t := Tokenize(r + EMPTY_QUOTED, m, acc); t.Words? ==> Size(t.ws) <= Held(m, acc) + |r|
    decreases |r|
  {
    hide Tokenize, PlainChar;
    if r == [] {
      assert r + EMPTY_QUOTED == EMPTY_QUOTED;
      ReadsEmptyQuoted(m, acc);
      if !m.InQuotes? {
        FlushHolds(m, acc);
        SizeSnoc(Flush(m, acc), "");
      }
    } else if !m.InQuotes? && r == "\\" {
      ReadsEscapedBlank(m, acc);
      SizeSnoc(acc, Current(m) + " ");
    } else if Refused(r[0], m) {
      RefusedAtOnce(r, EMPTY_QUOTED, m, acc);
    } else {
      CharKinds(r[0], m);
      var k, m', acc' := ReadsOne(r, EMPTY_QUOTED, m, acc);
      ThreeAreLost(r[k..], m', acc');
    }
  }

  predicate Refused(c: char, m: Mode) { !m.InQuotes? && (Special(c) || (Leading(c) && m.Between?)) }

  lemma RefusedAtOnce(r: string, tail: string, m: Mode, acc: seq<string>)
    requires r != [] && Refused(r[0], m)
    ensures Tokenize(r + tail, m, acc) == Rejected
  {
    assert (r + tail)[0] == r[0];
    assert !Blank(r[0]) && r[0] != '\'' && r[0] != '\\';
  }

  lemma CharKinds(c: char, m: Mode)
    requires !Refused(c, m)
    ensures m.InQuotes? || PlainChar(c) || c in "'\\ \t"
    ensures m.Between? ==> !Leading(c)
  {
  }

  /** If nothing of r is lost, and r and the quoted word are read as two words, r is all plain. */
  lemma {:induction false} NothingLost(r: string, m: Mode, acc: seq<string>)
    requires !m.InQuotes?
    requires var t := Tokenize(r + EMPTY_QUOTED, m, acc);
      t.Words? && Size(t.ws) == Held(m, acc) + |r| && |t.ws| == |acc| + 2
    ensures forall c <- r :: PlainChar(c)
    ensures m.Between? ==> r != "" && !Leading(r[0])
    decreases |r|
  {
    hide Tokenize, PlainChar;
    var s := r + EMPTY_QUOTED;
    if r == [] {
      assert s == EMPTY_QUOTED;
      ReadsEmptyQuoted(m, acc);
    } else if r == "\\" {
      ReadsEscapedBlank(m, acc);
      assert false;
    } else if Refused(r[0], m) {
      RefusedAtOnce(r, EMPTY_QUOTED, m, acc);
      assert false;
    } else {
      CharKinds(r[0], m);
      var k, m', acc' := ReadsOne(r, EMPTY_QUOTED, m, acc);
      ThreeAreLost(r[k..], m', acc');
      assert PlainChar(r[0]);
      NothingLost(r[1..], m', acc');
      assert r == [r[0]] + r[1..];
    }
  }

  /** An exchange with nothing but a method. */
  function Bare(verb: string): Exchange { Exchange(verb, "", "", "") }

  lemma BareCommand(verb: string)
    ensures Join(Parts(Bare(verb)), CONTINUED) == "curl -i -X " + (verb + EMPTY_QUOTED)
    ensures Arguments(Bare(verb)) == ["curl", "-i", "-X"] + [verb, ""]
  {
    var ex := Bare(verb);
    assert Split("", '\n') == [""];
    assert Trim("", JsSpace) == "";
    assert HeaderParts([""]) == HeaderParts([""][1..]) && HeaderWords([""]) == HeaderWords([""][1..]);
    assert ShellQuote("") == "''";
    assert Parts(ex) == ["curl -i -X " + verb + " " + "''"];
  }

  /** The round trip holds for every url, headers and body exactly when the method needs no quotes. */
  lemma RoundTripsIff(verb: string)
    ensures (forall ex: Exchange | ex.verb == verb :: Read(Join(Parts(ex), CONTINUED)) == Words(Arguments(ex)))
            <==> Plain(verb)
  {
    hide Tokenize, Parts, Arguments, Plain;
    forall ex: Exchange | ex.verb == verb && Plain(verb)
      ensures Read(Join(Parts(ex), CONTINUED)) == Words(Arguments(ex))
    {
      CurlRoundTrips(ex);
    }
    if Read(Join(Parts(Bare(verb)), CONTINUED)) == Words(Arguments(Bare(verb))) {
      BareIsPlain(verb);
    }
  }

  lemma BareIsPlain(verb: string)
    requires Read(Join(Parts(Bare(verb)), CONTINUED)) == Words(Arguments(Bare(verb)))
    ensures Plain(verb)
  {
    hide Tokenize, Parts, Arguments, PlainChar;
    var acc := ["curl", "-i", "-X"];
    BareCommand(verb);
    ReadsFront(verb + EMPTY_QUOTED);
    SizeSnoc(acc, verb);
    SizeSnoc(acc + [verb], "");
    assert acc + [verb, ""] == acc + [verb] + [""];
    NothingLost(verb, Between, acc);
  }
}
