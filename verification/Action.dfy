/** Templating and script planning of pkg/action/action.go: {{token}} substitution, one token after
    another in whatever order a Go map iterates, and the safety check on shell scripts. */
module Action {
  import opened Llm

  datatype Subject = Subject(
    kind: string, id: string, title: string, severity: string, status: string, cwe: string,
    description: string, location: string, environment: string)

  /** The substitutions available to a template. */
  function Tokens(s: Subject): map<string, string> {
    map["subject.kind" := s.kind, "subject.id" := s.id, "subject.title" := s.title, "subject.severity" := s.severity,
        "subject.status" := s.status, "subject.cwe" := s.cwe, "subject.description" := s.description,
        "subject.location" := s.location, "project.environment" := s.environment]
  }

  /** An order in which the runtime may iterate a map: each key once. */
  ghost predicate Iterates(order: seq<string>, m: map<string, string>) {
    && (forall k <- order :: k in m)
    && (forall k <- m :: k in order)
    && forall i, j :: 0 <= i < j < |order| ==> order[i] != order[j]
  }

  /** Leftmost, non-overlapping replacement. */
  function ReplaceAll(s: string, old_: string, new_: string): string
    requires old_ != []
    decreases |s|
  {
    if s == [] then []
    else if old_ <= s then new_ + ReplaceAll(s[|old_|..], old_, new_)
    else [s[0]] + ReplaceAll(s[1..], old_, new_)
  }

  function Placeholder(key: string): (p: string)
    ensures p != []
  {
    "{{" + key + "}}"
  }

  /** The passes of Render, in the given order. */
  function Passes(text: string, order: seq<string>, m: map<string, string>): string
    requires forall k <- order :: k in m
    decreases |order|
  {
    if order == [] then text else Passes(ReplaceAll(text, Placeholder(order[0]), m[order[0]]), order[1..], m)
  }

  method Render(template: string, s: Subject, order: seq<string>) returns (text: string)
    requires Iterates(order, Tokens(s))
    ensures text == Passes(template, order, Tokens(s))
  {
    hide Tokens;
    var m := Tokens(s);
    text := template;
    var i := 0;
    while i < |order|
      invariant 0 <= i <= |order|
      invariant Passes(text, order[i..], m) == Passes(template, order, m)
    {
      assert order[i..][1..] == order[i + 1..];
      text := ReplaceAll(text, Placeholder(order[i]), m[order[i]]);
      i := i + 1;
    }
  }

  // ----- One simultaneous substitution -----

  /** A template as literals and tokens. */
  datatype Piece = Lit(text: string) | Tok(key: string)

  predicate BraceFree(s: string) { '{' !in s && '}' !in s }

  predicate TidyPiece(p: Piece) {
    match p case Lit(t) => BraceFree(t) case Tok(k) => BraceFree(k)
  }

  predicate Tidy(ps: seq<Piece>) { forall p <- ps :: TidyPiece(p) }

  function PieceText(p: Piece): string {
    match p case Lit(t) => t case Tok(k) => Placeholder(k)
  }

  function TextOf(ps: seq<Piece>): string {
    if ps == [] then "" else PieceText(ps[0]) + TextOf(ps[1..])
  }

  /** Replaces every token that the map names, all at once; other tokens stay. */
  function Fill(ps: seq<Piece>, m: map<string, string>): seq<Piece> {
    if ps == [] then []
    else [if ps[0].Tok? && ps[0].key in m then Lit(m[ps[0].key]) else ps[0]] + Fill(ps[1..], m)
  }

  lemma {:induction false} SkipsLiteral(t: string, rest: string, key: string, v: string)
    requires BraceFree(t)
    ensures ReplaceAll(t + rest, Placeholder(key), v) == t + ReplaceAll(rest, Placeholder(key), v)
    decreases |t|
  {
    if t == [] {
      assert t + rest == rest;
    } else {
      var s := t + rest;
      assert s[0] == t[0] && t[0] in t && s[1..] == t[1..] + rest;
      assert Placeholder(key)[0] == '{';
      SkipsLiteral(t[1..], rest, key, v);
      assert [t[0]] + (t[1..] + ReplaceAll(rest, Placeholder(key), v)) == t + ReplaceAll(rest, Placeholder(key), v);
    }
  }

  lemma ReplacesToken(rest: string, key: string, v: string)
    ensures ReplaceAll(Placeholder(key) + rest, Placeholder(key), v) == v + ReplaceAll(rest, Placeholder(key), v)
  {
    var s := Placeholder(key) + rest;
    assert s[|Placeholder(key)|..] == rest;
  }

  lemma TokenText(other: string, tail: string)
    ensures ['{'] + (['{'] + (other + ("}" + ("}" + tail)))) == Placeholder(other) + tail
  {
  }

  /** A placeholder for another key is no match at either of its braces. */
  lemma SkipsToken(other: string, rest: string, key: string, v: string)
    requires BraceFree(other) && BraceFree(key) && other != key
    ensures ReplaceAll(Placeholder(other) + rest, Placeholder(key), v)
        == Placeholder(other) + ReplaceAll(rest, Placeholder(key), v)
  {
    var p, s := Placeholder(key), Placeholder(other) + rest;
    assert s == "{{" + other + "}}" + rest;
    if p <= s { SameKey(other, rest, key); }
    var s1 := "{" + other + "}}" + rest;
    assert s[0] == '{' && s[1..] == s1;
    var s2 := other + "}}" + rest;
    assert s1[0] == '{' && s1[1..] == s2;
    assert p[1] == '{';
    assert s1[1] != '{' by {
      if other != [] { assert s1[1] == other[0] && other[0] in other; }
    }
    assert !(p <= s1);
    assert s2 == other + ("}}" + rest);
    SkipsLiteral(other, "}}" + rest, key, v);
    SkipsClosing("}" + rest, key, v);
    SkipsClosing(rest, key, v);
    assert "}}" + rest == "}" + ("}" + rest);
    var tail := ReplaceAll(rest, p, v);
    assert ReplaceAll(s2, p, v) == other + ("}" + ("}" + tail));
    TokenText(other, tail);
  }

  lemma SkipsClosing(rest: string, key: string, v: string)
    ensures ReplaceAll("}" + rest, Placeholder(key), v) == "}" + ReplaceAll(rest, Placeholder(key), v)
  {
    var s := "}" + rest;
    assert s[0] == '}' && s[1..] == rest && Placeholder(key)[0] == '{';
  }

  lemma SameKey(other: string, rest: string, key: string)
    requires BraceFree(other) && BraceFree(key)
    requires Placeholder(key) <= Placeholder(other) + rest
    ensures other == key
  {
    var p, s := Placeholder(key), Placeholder(other) + rest;
    assert forall i :: 0 <= i < |key| ==> p[i + 2] == key[i];
    assert forall i :: 0 <= i < |other| ==> s[i + 2] == other[i];
    assert s[|key| + 2] == '}' by { assert p[|key| + 2] == '}'; }
    assert forall i :: 0 <= i < |other| ==> other[i] in other && s[i + 2] == other[i] && other[i] != '}';
    assert |other| <= |key|;
    assert s[|other| + 2] == '}';
    assert forall i :: 0 <= i < |key| ==> key[i] in key && p[i + 2] == key[i] && key[i] != '}';
    assert |other| == |key|;
    assert forall i :: 0 <= i < |key| ==> key[i] == other[i];
  }

  /** One pass replaces exactly the tokens of its key. */
  lemma {:induction false} PassFills(ps: seq<Piece>, key: string, v: string)
    requires Tidy(ps) && BraceFree(key)
    ensures ReplaceAll(TextOf(ps), Placeholder(key), v) == TextOf(Fill(ps, map[key := v]))
    decreases |ps|
  {
    hide ReplaceAll, Placeholder;
    if ps == [] {
      NothingReplaced(key, v);
    } else {
      assert ps[0] in ps;
      var rest := TextOf(ps[1..]);
      PassFills(ps[1..], key, v);
      var filled := Fill(ps, map[key := v]);
      assert filled[1..] == Fill(ps[1..], map[key := v]);
      match ps[0]
      case Lit(t) => SkipsLiteral(t, rest, key, v);
      case Tok(k) =>
        if k == key { ReplacesToken(rest, key, v); } else { SkipsToken(k, rest, key, v); }
    }
  }

  lemma NothingReplaced(key: string, v: string)
    ensures ReplaceAll("", Placeholder(key), v) == ""
  {
  }

  lemma {:induction false} FillTwice(ps: seq<Piece>, key: string, v: string, m: map<string, string>)
    ensures Fill(Fill(ps, map[key := v]), m) == Fill(ps, m + map[key := v])
    decreases |ps|
  {
    if ps != [] {
      FillTwice(ps[1..], key, v, m);
      assert Fill(ps, map[key := v])[1..] == Fill(ps[1..], map[key := v]);
    }
  }

  /** The fields that a template uses hold no braces. */
  predicate UsesBraceFree(ps: seq<Piece>, m: map<string, string>) {
    forall p <- ps :: p.Tok? && p.key in m ==> BraceFree(m[p.key])
  }

  /** After a pass the template is tidy again, and uses no more fields than before. */
  lemma {:induction false} FillTidy(ps: seq<Piece>, key: string, m: map<string, string>)
    requires Tidy(ps) && UsesBraceFree(ps, m) && key in m
    ensures Tidy(Fill(ps, map[key := m[key]])) && UsesBraceFree(Fill(ps, map[key := m[key]]), m)
    decreases |ps|
  {
    if ps != [] {
      assert ps[0] in ps;
      FillTidy(ps[1..], key, m);
    }
  }

  lemma {:induction false} FillNothing(ps: seq<Piece>)
    ensures Fill(ps, map[]) == ps
    decreases |ps|
  {
    if ps != [] {
      FillNothing(ps[1..]);
    }
  }

  function Restrict(m: map<string, string>, keys: seq<string>): map<string, string> {
    map k | k in keys && k in m :: m[k]
  }

  lemma {:induction false} PassesFill(ps: seq<Piece>, order: seq<string>, m: map<string, string>)
    requires Tidy(ps) && (forall k <- order :: k in m) && (forall k <- m :: BraceFree(k)) && UsesBraceFree(ps, m)
    ensures Passes(TextOf(ps), order, m) == TextOf(Fill(ps, Restrict(m, order)))
    decreases |order|
  {
    hide ReplaceAll, Tidy, BraceFree, UsesBraceFree;
    if order == [] {
      assert Restrict(m, order) == map[];
      FillNothing(ps);
    } else {
      var k := order[0];
      var one := map[k := m[k]];
      PassFills(ps, k, m[k]);
      FillTidy(ps, k, m);
      PassesFill(Fill(ps, one), order[1..], m);
      FillTwice(ps, k, m[k], Restrict(m, order[1..]));
      assert order == [k] + order[1..];
      assert Restrict(m, order[1..]) + one == Restrict(m, order);
    }
  }

  /** For every template of brace-free literals and tokens and a subject in which the fields that the
      template uses hold no braces, Render is one simultaneous substitution; so the order of iteration
      does not matter. */
  lemma RenderIsSimultaneous(ps: seq<Piece>, s: Subject, order: seq<string>)
    requires Tidy(ps) && Iterates(order, Tokens(s)) && UsesBraceFree(ps, Tokens(s))
    ensures Passes(TextOf(ps), order, Tokens(s)) == TextOf(Fill(ps, Tokens(s)))
  {
    KeysBraceFree(s);
    hide Tokens;
    PassesFill(ps, order, Tokens(s));
    assert Restrict(Tokens(s), order) == Tokens(s);
  }

  /** Each of the nine placeholders stands for its own field. */
  lemma EachFieldRenders(s: Subject, order: seq<string>)
    requires Iterates(order, Tokens(s)) && forall k <- Tokens(s) :: BraceFree(Tokens(s)[k])
    ensures Passes(Placeholder("subject.kind"), order, Tokens(s)) == s.kind
    ensures Passes(Placeholder("subject.id"), order, Tokens(s)) == s.id
    ensures Passes(Placeholder("subject.title"), order, Tokens(s)) == s.title
    ensures Passes(Placeholder("subject.severity"), order, Tokens(s)) == s.severity
    ensures Passes(Placeholder("subject.status"), order, Tokens(s)) == s.status
    ensures Passes(Placeholder("subject.cwe"), order, Tokens(s)) == s.cwe
    ensures Passes(Placeholder("subject.description"), order, Tokens(s)) == s.description
    ensures Passes(Placeholder("subject.location"), order, Tokens(s)) == s.location
    ensures Passes(Placeholder("project.environment"), order, Tokens(s)) == s.environment
  {
    TokensAre(s);
    hide Tokens, Passes, BraceFree, Placeholder;
    OneFieldRenders(s, order, "subject.kind");
    OneFieldRenders(s, order, "subject.id");
    OneFieldRenders(s, order, "subject.title");
    OneFieldRenders(s, order, "subject.severity");
    OneFieldRenders(s, order, "subject.status");
    OneFieldRenders(s, order, "subject.cwe");
    OneFieldRenders(s, order, "subject.description");
    OneFieldRenders(s, order, "subject.location");
    OneFieldRenders(s, order, "project.environment");
  }

  lemma TokensAre(s: Subject)
    ensures var m := Tokens(s);
      && m.Keys == {"subject.kind", "subject.id", "subject.title", "subject.severity", "subject.status", "subject.cwe",
                    "subject.description", "subject.location", "project.environment"}
      && m["subject.kind"] == s.kind && m["subject.id"] == s.id && m["subject.title"] == s.title
      && m["subject.severity"] == s.severity && m["subject.status"] == s.status && m["subject.cwe"] == s.cwe
      && m["subject.description"] == s.description && m["subject.location"] == s.location
      && m["project.environment"] == s.environment
  {
  }

  lemma OneFieldRenders(s: Subject, order: seq<string>, key: string)
    requires key in Tokens(s) && Iterates(order, Tokens(s)) && forall k <- Tokens(s) :: BraceFree(Tokens(s)[k])
    ensures Passes(Placeholder(key), order, Tokens(s)) == Tokens(s)[key]
  {
    KeysBraceFree(s);
    hide Tokens, Passes, BraceFree;
    var ps := [Tok(key)];
    RenderIsSimultaneous(ps, s, order);
    assert ps[1..] == [] && Fill(ps, Tokens(s)) == [Lit(Tokens(s)[key])];
    assert TextOf(ps) == Placeholder(key) + "" && [Lit(Tokens(s)[key])][1..] == [];
    assert Placeholder(key) + "" == Placeholder(key) && Tokens(s)[key] + "" == Tokens(s)[key];
  }

  lemma KeysBraceFree(s: Subject)
    ensures forall k <- Tokens(s) :: BraceFree(k)
  {
  }

  // ----- When a pass changes a text -----

  lemma {:induction false} NotContained(s: string, p: string, v: string)
    requires p != [] && !Contains(s, p)
    ensures ReplaceAll(s, p, v) == s
    decreases |s|
  {
    if s != [] { NotContained(s[1..], p, v); }
  }

  lemma {:induction false} ReplacedByItself(s: string, p: string)
    requires p != []
    ensures ReplaceAll(s, p, p) == s
    decreases |s|
  {
    if s != [] {
      if p <= s {
        ReplacedByItself(s[|p|..], p);
        assert s[..|p|] == p && s == s[..|p|] + s[|p|..];
      } else {
        ReplacedByItself(s[1..], p);
        assert s == [s[0]] + s[1..];
      }
    }
  }

  lemma {:induction false} Lengthens(s: string, p: string, v: string)
    requires p != []
    ensures |v| >= |p| ==> |ReplaceAll(s, p, v)| >= |s|
    ensures |v| <= |p| ==> |ReplaceAll(s, p, v)| <= |s|
    ensures Contains(s, p) && |v| != |p| ==> |ReplaceAll(s, p, v)| != |s|
    decreases |s|
  {
    if s != [] {
      if p <= s { Lengthens(s[|p|..], p, v); } else { Lengthens(s[1..], p, v); }
    }
  }

  /** A pass leaves a text as it is exactly when the text does not contain the placeholder, or the
      placeholder stands for itself. */
  lemma {:induction false} UnchangedIff(s: string, p: string, v: string)
    requires p != []
    ensures ReplaceAll(s, p, v) == s <==> v == p || !Contains(s, p)
    decreases |s|
  {
    if !Contains(s, p) {
      NotContained(s, p, v);
    } else if |v| != |p| {
      Lengthens(s, p, v);
    } else if p <= s {
      ReplacedByItself(s, p);
      assert ReplaceAll(s, p, v)[..|p|] == v && s[..|p|] == p;
    } else {
      UnchangedIff(s[1..], p, v);
      assert ReplaceAll(s, p, v)[1..] == ReplaceAll(s[1..], p, v);
    }
  }

  // ----- Exactly when the order does not matter -----

  lemma {:induction false} PassesConcat(text: string, a: seq<string>, b: seq<string>, m: map<string, string>)
    requires (forall k <- a :: k in m) && forall k <- b :: k in m
    ensures Passes(text, a + b, m) == Passes(Passes(text, a, m), b, m)
    decreases |a|
  {
    hide ReplaceAll;
    if a == [] {
      assert a + b == b;
    } else {
      assert (a + b)[1..] == a[1..] + b;
      PassesConcat(ReplaceAll(text, Placeholder(a[0]), m[a[0]]), a[1..], b, m);
    }
  }

  /** No pass of these keys changes the text. */
  predicate Idle(text: string, keys: seq<string>, m: map<string, string>) {
    forall k <- keys :: k in m && (m[k] == Placeholder(k) || !Contains(text, Placeholder(k)))
  }

  lemma {:induction false} IdlePasses(text: string, order: seq<string>, m: map<string, string>)
    requires Idle(text, order, m)
    ensures Passes(text, order, m) == text
    decreases |order|
  {
    hide ReplaceAll, Placeholder, Contains;
    if order != [] {
      UnchangedIff(text, Placeholder(order[0]), m[order[0]]);
      IdlePasses(text, order[1..], m);
    }
  }

  /** The text holds placeholders of the key a at most. */
  predicate OnlyKey(text: string, a: string, m: map<string, string>) {
    a in m && forall k <- m :: k != a ==> !Contains(text, Placeholder(k))
  }

  /** Its value in every place: one pass. */
  function Filled(text: string, a: string, m: map<string, string>): string
    requires a in m
  {
    ReplaceAll(text, Placeholder(a), m[a])
  }

  /** The filled text holds no placeholder of another key that stands for something else. */
  predicate Stable(text: string, a: string, m: map<string, string>)
    requires a in m
  {
    forall k <- m :: k != a ==> m[k] == Placeholder(k) || !Contains(Filled(text, a, m), Placeholder(k))
  }

  /** Passes before that of a do nothing, so those after it start from the filled text. */
  lemma KeyThen(text: string, a: string, before: seq<string>, after: seq<string>, m: map<string, string>)
    requires OnlyKey(text, a, m) && a !in before
    requires (forall k <- before :: k in m) && forall k <- after :: k in m
    ensures Passes(text, before + [a] + after, m) == Passes(Filled(text, a, m), after, m)
  {
    hide ReplaceAll, Placeholder, Contains;
    IdlePasses(text, before, m);
    PassesConcat(text, before, [a] + after, m);
    assert before + [a] + after == before + ([a] + after);
    assert ([a] + after)[1..] == after;
  }

  lemma {:induction false} Enumerated(keys: set<string>) returns (order: seq<string>)
    ensures (forall k :: k in order <==> k in keys) && forall i, j :: 0 <= i < j < |order| ==> order[i] != order[j]
    decreases |keys|
  {
    order := [];
    if k :| k in keys {
      var rest := Enumerated(keys - {k});
      order := rest + [k];
    }
  }

  /** An order whose last keys are the given ones. */
  lemma EndingIn(m: map<string, string>, last: seq<string>) returns (before: seq<string>)
    requires (forall k <- last :: k in m) && forall i, j :: 0 <= i < j < |last| ==> last[i] != last[j]
    ensures Iterates(before + last, m) && forall k <- last :: k !in before
  {
    before := Enumerated(m.Keys - set k <- last);
    var order := before + last;
    forall i, j | 0 <= i < j < |order| ensures order[i] != order[j] {
      if i < |before| <= j { assert order[i] in before && order[j] in last; }
    }
    forall k | k in m ensures k in order { assert k in before || k in last; }
  }

  lemma StableStays(text: string, a: string, m: map<string, string>, order: seq<string>)
    requires OnlyKey(text, a, m) && Stable(text, a, m) && Iterates(order, m)
    ensures Passes(text, order, m) == Filled(text, a, m)
  {
    hide Passes, Filled, Placeholder, Contains;
    var i :| 0 <= i < |order| && order[i] == a;
    var before, after := order[..i], order[i + 1..];
    assert order == before + [a] + after;
    KeyThen(text, a, before, after, m);
    IdlePasses(Filled(text, a, m), after, m);
  }

  lemma UnstableChanges(text: string, a: string, m: map<string, string>) returns (order: seq<string>)
    requires OnlyKey(text, a, m) && !Stable(text, a, m)
    ensures Iterates(order, m) && Passes(text, order, m) != Filled(text, a, m)
  {
    hide ReplaceAll, Filled, Placeholder, Contains;
    var t := Filled(text, a, m);
    var k :| k in m && k != a && m[k] != Placeholder(k) && Contains(t, Placeholder(k));
    var before := EndingIn(m, [a, k]);
    order := before + [a] + [k];
    assert before + [a, k] == order;
    KeyThen(text, a, before, [k], m);
    UnchangedIff(t, Placeholder(k), m[k]);
    assert [k][1..] == [];
  }

  lemma LastFills(text: string, a: string, m: map<string, string>) returns (order: seq<string>)
    requires OnlyKey(text, a, m)
    ensures Iterates(order, m) && Passes(text, order, m) == Filled(text, a, m)
  {
    hide ReplaceAll, Filled, Placeholder, Contains;
    var before := EndingIn(m, [a]);
    order := before + [a];
    assert before + [a] + [] == order;
    KeyThen(text, a, before, [], m);
  }

  /** For every text that holds placeholders of one key at most, however often and with whatever around
      them, and for every subject: all orders of iteration give the key's value in every place, and so
      agree, exactly when the filled text holds no placeholder of another key that stands for something
      else. */
  lemma OneKeyIff(text: string, a: string, s: Subject)
    requires OnlyKey(text, a, Tokens(s))
    ensures var m := Tokens(s);
      && (Stable(text, a, m) <==> forall order | Iterates(order, m) :: Passes(text, order, m) == Filled(text, a, m))
      && (Stable(text, a, m) <==>
          forall o, o' | Iterates(o, m) && Iterates(o', m) :: Passes(text, o, m) == Passes(text, o', m))
  {
    var m := Tokens(s);
    KeyIsIn(text, a, m);
    hide Tokens, Passes, Placeholder, Filled, Stable, OnlyKey;
    if Stable(text, a, m) {
      forall order | Iterates(order, m) ensures Passes(text, order, m) == Filled(text, a, m) {
        StableStays(text, a, m, order);
      }
    } else {
      var bad := UnstableChanges(text, a, m);
      var good := LastFills(text, a, m);
      assert Passes(text, bad, m) != Passes(text, good, m);
    }
  }

  // ----- Two ways in which the order matters -----

  /** What no pass of the key changes does not contain its placeholder. */
  lemma UntouchedBy(text: string, key: string)
    requires ReplaceAll(text, Placeholder(key), "") == text
    ensures !Contains(text, Placeholder(key))
  {
    UnchangedIff(text, Placeholder(key), "");
  }

  lemma TokenIsOnlyKey(a: string, m: map<string, string>)
    requires a in m && forall k <- m :: BraceFree(k)
    ensures OnlyKey(Placeholder(a), a, m)
  {
    hide ReplaceAll, Contains, Placeholder;
    forall k | k in m && k != a ensures !Contains(Placeholder(a), Placeholder(k)) {
      SkipsToken(a, "", k, "");
      NothingReplaced(k, "");
      assert Placeholder(a) + "" == Placeholder(a);
      UntouchedBy(Placeholder(a), k);
    }
  }

  /** A field with braces: a title that spells the token of the id is filled in again in one order, and
      left in another, whatever the other fields are. */
  lemma OrderMattersWithBraces(s: Subject) returns (again: seq<string>, once: seq<string>)
    requires s.title == Placeholder("subject.id")
    ensures Iterates(again, Tokens(s)) && Iterates(once, Tokens(s))
    ensures Passes(Placeholder("subject.title"), again, Tokens(s)) == s.id
    ensures Passes(Placeholder("subject.title"), once, Tokens(s)) == s.title
  {
    var m, title, id := Tokens(s), "subject.title", "subject.id";
    KeysBraceFree(s);
    assert title in m && id in m && m[title] == Placeholder(id) && m[id] == s.id && title != id;
    hide Tokens, ReplaceAll, Placeholder;
    TokenIsOnlyKey(title, m);
    Alone(title, m[title]);
    again := ThenAlso(Placeholder(title), title, id, m);
    Alone(id, s.id);
    once := LastFills(Placeholder(title), title, m);
  }

  /** An order that ends in the key's pass and then another one. */
  lemma ThenAlso(text: string, a: string, k: string, m: map<string, string>) returns (order: seq<string>)
    requires OnlyKey(text, a, m) && k in m && k != a
    ensures Iterates(order, m) && Passes(text, order, m) == ReplaceAll(Filled(text, a, m), Placeholder(k), m[k])
  {
    hide ReplaceAll, Filled, Placeholder, OnlyKey;
    assert a in m by { KeyIsIn(text, a, m); }
    var before := EndingIn(m, [a, k]);
    order := before + [a] + [k];
    assert before + [a, k] == order;
    KeyThen(text, a, before, [k], m);
    assert [k][1..] == [];
  }

  lemma KeyIsIn(text: string, a: string, m: map<string, string>)
    requires OnlyKey(text, a, m)
    ensures a in m
  {
  }

  /** A token inside a token. */
  function Nested(outer: string, a: string): string { "{{" + outer + Placeholder(a) + "}}" }

  lemma SkipsOpening(rest: string, key: string, v: string)
    requires !(Placeholder(key) <= "{" + rest)
    ensures ReplaceAll("{" + rest, Placeholder(key), v) == "{" + ReplaceAll(rest, Placeholder(key), v)
  {
    assert ("{" + rest)[0] == '{' && ("{" + rest)[1..] == rest;
  }

  /** The two braces that open the outer token, and its name, are passed over. */
  lemma SkipsOuter(outer: string, a: string, key: string, v: string)
    requires BraceFree(outer) && outer != "" && BraceFree(key)
    ensures ReplaceAll(Nested(outer, a), Placeholder(key), v)
         == "{" + ("{" + (outer + ReplaceAll(Placeholder(a) + "}}", Placeholder(key), v)))
  {
    hide ReplaceAll;
    var p, rest := Placeholder(key), Placeholder(a) + "}}";
    var s1 := "{" + (outer + rest);
    assert Nested(outer, a) == "{" + s1;
    assert s1[1] == outer[0] && outer[0] in outer && p[1] == '{';
    NestedIsNoToken(outer, a, key);
    SkipsOpening(s1, key, v);
    SkipsOpening(outer + rest, key, v);
    SkipsLiteral(outer, rest, key, v);
  }

  lemma SkipsEnd(key: string, v: string)
    ensures ReplaceAll("}}", Placeholder(key), v) == "}}"
  {
    hide ReplaceAll;
    SkipsClosing("}", key, v);
    SkipsClosing("", key, v);
    NothingReplaced(key, v);
    assert "}}" == "}" + "}" && "}" == "}" + "";
  }

  lemma NestedPass(outer: string, a: string, key: string, v: string)
    requires BraceFree(outer) && outer != "" && BraceFree(a) && BraceFree(key) && key != a
    ensures ReplaceAll(Nested(outer, a), Placeholder(key), v) == Nested(outer, a)
  {
    hide ReplaceAll, BraceFree;
    SkipsOuter(outer, a, key, v);
    SkipsToken(a, "}}", key, v);
    SkipsEnd(key, v);
  }

  lemma NestedIsNoToken(outer: string, a: string, key: string)
    requires BraceFree(outer) && BraceFree(key)
    ensures !(Placeholder(key) <= Nested(outer, a))
  {
    var p, s, n := Placeholder(key), Nested(outer, a), |outer|;
    assert s[n + 2] == '{';
    assert forall i :: 0 <= i < n ==> outer[i] in outer && s[i + 2] == outer[i] && outer[i] != '}';
    assert forall i :: 0 <= i < |key| ==> key[i] in key && p[i + 2] == key[i] && key[i] != '{';
    assert p[|key| + 2] == '}';
    if p <= s {
      assert s[|key| + 2] == p[|key| + 2];
      assert n + 2 < |p| ==> s[n + 2] == p[n + 2];
    }
  }

  lemma NestedPassInner(outer: string, a: string, v: string)
    requires BraceFree(outer) && outer != "" && BraceFree(a) && BraceFree(v)
    ensures ReplaceAll(Nested(outer, a), Placeholder(a), v) == Placeholder(outer + v)
  {
    hide ReplaceAll, BraceFree;
    SkipsOuter(outer, a, a, v);
    ReplacesToken("}}", a, v);
    SkipsEnd(a, v);
  }

  /** A template with a token inside a token: no field need hold a brace. With the title `id` one order
      goes on to the id, and another stops at its token. */
  lemma OrderMattersWhenNested(s: Subject) returns (again: seq<string>, once: seq<string>)
    requires s.title == "id"
    ensures Iterates(again, Tokens(s)) && Iterates(once, Tokens(s))
    ensures Passes("{{subject.{{subject.title}}}}", again, Tokens(s)) == s.id
    ensures Passes("{{subject.{{subject.title}}}}", once, Tokens(s)) == "{{subject.id}}"
  {
    var m, title, id, outer := Tokens(s), "subject.title", "subject.id", "subject.";
    KeysBraceFree(s);
    assert title in m && id in m && m[title] == "id" && m[id] == s.id && title != id;
    assert BraceFree(outer) && BraceFree(title) && BraceFree("id") && outer + "id" == id;
    NestedText();
    hide Tokens, ReplaceAll, Placeholder, Contains, BraceFree, Nested;
    var text := Nested(outer, title);
    NestedIsOnlyKey(outer, title, m);
    NestedPassInner(outer, title, "id");
    again := ThenAlso(text, title, id, m);
    Alone(id, s.id);
    once := LastFills(text, title, m);
  }

  lemma NestedText()
    ensures Nested("subject.", "subject.title") == "{{subject.{{subject.title}}}}"
    ensures Placeholder("subject.id") == "{{subject.id}}"
  {
  }

  lemma NestedIsOnlyKey(outer: string, a: string, m: map<string, string>)
    requires BraceFree(outer) && outer != "" && a in m && forall k <- m :: BraceFree(k)
    ensures OnlyKey(Nested(outer, a), a, m)
  {
    hide ReplaceAll, Placeholder, Contains, BraceFree, Nested;
    forall k | k in m && k != a ensures !Contains(Nested(outer, a), Placeholder(k)) {
      NestedPass(outer, a, k, "");
      UntouchedBy(Nested(outer, a), k);
    }
  }

  lemma Alone(key: string, v: string)
    ensures ReplaceAll(Placeholder(key), Placeholder(key), v) == v
  {
    ReplacesToken("", key, v);
    NothingReplaced(key, v);
    assert Placeholder(key) + "" == Placeholder(key) && v + "" == v;
  }

  // ----- Scripts -----

  datatype ActionKind = KindAgent | KindScript

  datatype Action = Action(kind: ActionKind, cmd: seq<string>)

  function LowerChar(c: char): char { if 'A' <= c <= 'Z' then c - 'A' + 'a' else c }

  function Lower(s: string): (r: string)
    ensures |r| == |s|
    ensures forall i :: 0 <= i < |s| ==> r[i] == LowerChar(s[i])
  {
    if s == [] then [] else [LowerChar(s[0])] + Lower(s[1..])
  }

  predicate ShellInterpreter(s: string) {
    s in ["sh", "bash", "dash", "ash", "zsh", "ksh", "/bin/sh", "/bin/bash", "/bin/dash", "/bin/ash", "/usr/bin/sh",
          "/usr/bin/bash"]
  }

  predicate Contains(s: string, t: string)
    decreases |s|
  {
    t <= s || (s != [] && Contains(s[1..], t))
  }

  predicate IsShell(a: Action) { a.kind.KindScript? && a.cmd != [] && ShellInterpreter(Lower(a.cmd[0])) }

  /** Accepts everything but a shell script with {{ in one of its arguments. */
  function ValidateScriptSafety(a: Action): (error: Option<string>)
    ensures error.Some? <==> IsShell(a) && exists i :: 1 <= i < |a.cmd| && Contains(a.cmd[i], "{{")
  {
    hide Contains, ShellInterpreter;
    if !IsShell(a) then None
    else
      FirstTemplated(a.cmd[1..])
  }

  /** The scripts that are refused. */
  lemma RefusedIff(a: Action)
    ensures ValidateScriptSafety(a).Some? <==>
      && a.kind.KindScript? && |a.cmd| > 1
      && Lower(a.cmd[0]) in {"sh", "bash", "dash", "ash", "zsh", "ksh", "/bin/sh", "/bin/bash", "/bin/dash", "/bin/ash",
                             "/usr/bin/sh", "/usr/bin/bash"}
      && exists i :: 1 <= i < |a.cmd| && Contains(a.cmd[i], "{{")
  {
    hide Contains, Lower, ValidateScriptSafety;
  }

  function FirstTemplated(args: seq<string>): (error: Option<string>)
    ensures error.Some? <==> exists i :: 0 <= i < |args| && Contains(args[i], "{{")
  {
    if args == [] then None
    else if Contains(args[0], "{{") then
      Some("a shell script action must not use {{...}} substitution inside the shell command")
    else
      var rest := FirstTemplated(args[1..]);
      assert forall i :: 1 <= i < |args| ==> args[i] == args[1..][i - 1];
      rest
  }

  ghost predicate OrdersFit(cmd: seq<string>, orders: seq<seq<string>>, m: map<string, string>) {
    |orders| == |cmd| && forall i :: 0 <= i < |orders| ==> Iterates(orders[i], m)
  }

  ghost function Planned(cmd: seq<string>, orders: seq<seq<string>>, m: map<string, string>): (planned: seq<string>)
    requires OrdersFit(cmd, orders, m)
    ensures |planned| == |cmd|
    ensures forall i :: 0 <= i < |cmd| ==> planned[i] == Passes(cmd[i], orders[i], m)
  {
    seq(|cmd|, i requires 0 <= i < |cmd| => Passes(cmd[i], orders[i], m))
  }

  /** The command of the planned run; each argument may see the map in another order. */
  method PlanScript(a: Action, s: Subject, orders: seq<seq<string>>) returns (cmd: seq<string>)
    requires OrdersFit(a.cmd, orders, Tokens(s))
    ensures cmd == Planned(a.cmd, orders, Tokens(s))
  {
    hide Tokens;
    cmd := [];
    var i := 0;
    while i < |a.cmd|
      invariant |cmd| == i <= |a.cmd|
      invariant cmd == Planned(a.cmd, orders, Tokens(s))[..i]
    {
      var out := Render(a.cmd[i], s, orders[i]);
      cmd := cmd + [out];
      i := i + 1;
    }
  }

  lemma PlaceholderOpens(key: string, t: string)
    ensures Placeholder(key) <= t ==> "{{" <= t
  {
    if Placeholder(key) <= t {
      assert Placeholder(key)[..2] == "{{" && t[..2] == Placeholder(key)[..2];
    }
  }

  lemma {:induction false} UntemplatedStays(t: string, key: string, v: string)
    requires !Contains(t, "{{")
    ensures ReplaceAll(t, Placeholder(key), v) == t
    decreases |t|
  {
    if t != [] {
      PlaceholderOpens(key, t);
      UntemplatedStays(t[1..], key, v);
    }
  }

  lemma {:induction false} UntemplatedPasses(t: string, order: seq<string>, m: map<string, string>)
    requires !Contains(t, "{{") && forall k <- order :: k in m
    ensures Passes(t, order, m) == t
    decreases |order|
  {
    hide Contains, ReplaceAll;
    if order != [] {
      UntemplatedStays(t, order[0], m[order[0]]);
      UntemplatedPasses(t, order[1..], m);
    }
  }

  lemma {:induction false} LowerKeepsBraces(t: string)
    requires Contains(t, "{{")
    ensures '{' in Lower(t)
    decreases |t|
  {
    if "{{" <= t {
      assert Lower(t)[0] == '{';
    } else {
      LowerKeepsBraces(t[1..]);
      var i :| 0 <= i < |Lower(t[1..])| && Lower(t[1..])[i] == '{';
      assert Lower(t)[i + 1] == '{';
    }
  }

  lemma ShellsHaveNoBraces(s: string)
    requires ShellInterpreter(s)
    ensures '{' !in s
  {
  }

  /** A shell script that the safety check accepts runs the command as it is stored, whatever the
      subject's fields are and in whatever order they are substituted. */
  lemma AcceptedShellScriptIsUntouched(a: Action, s: Subject, orders: seq<seq<string>>)
    requires IsShell(a) && ValidateScriptSafety(a).None?
    requires OrdersFit(a.cmd, orders, Tokens(s))
    ensures Planned(a.cmd, orders, Tokens(s)) == a.cmd
  {
    hide Tokens, Contains, ShellInterpreter, Passes;
    var m := Tokens(s);
    forall i | 0 <= i < |a.cmd| ensures Planned(a.cmd, orders, m)[i] == a.cmd[i] {
      if i == 0 && Contains(a.cmd[0], "{{") {
        LowerKeepsBraces(a.cmd[0]);
        ShellsHaveNoBraces(Lower(a.cmd[0]));
      }
      UntemplatedPasses(a.cmd[i], orders[i], m);
    }
  }
}
