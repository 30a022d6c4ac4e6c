/** String operations shared by the modules: trimming, splitting on one character, joining. */
module Text {

  /** Go's unicode.IsSpace. */
  predicate GoSpace(c: char) {
    c in "\t\n\U{000B}\U{000C}\r \U{0085}\U{00A0}\U{1680}\U{2028}\U{2029}\U{202F}\U{205F}\U{3000}"
    || '\U{2000}' <= c <= '\U{200A}'
  }

  /** The white space and line terminators removed by JavaScript's trim. */
  predicate JsSpace(c: char) {
    c in "\t\n\U{000B}\U{000C}\r \U{00A0}\U{1680}\U{2028}\U{2029}\U{202F}\U{205F}\U{3000}\U{FEFF}"
    || '\U{2000}' <= c <= '\U{200A}'
  }

  function TrimLeft(s: string, space: char -> bool): string {
    if s != [] && space(s[0]) then TrimLeft(s[1..], space) else s
  }

  function TrimRight(s: string, space: char -> bool): string {
    if s != [] && space(s[|s| - 1]) then TrimRight(s[..|s| - 1], space) else s
  }

  function Trim(s: string, space: char -> bool): string {
    TrimRight(TrimLeft(s, space), space)
  }

  lemma {:induction false} TrimmedLeft(s: string, space: char -> bool) returns (a: string)
    ensures s == a + TrimLeft(s, space) && forall c <- a :: space(c)
    ensures TrimLeft(s, space) != [] ==> !space(TrimLeft(s, space)[0])
  {
    a := [];
    if s != [] && space(s[0]) {
      var rest := TrimmedLeft(s[1..], space);
      a := [s[0]] + rest;
    }
  }

  lemma {:induction false} TrimmedRight(s: string, space: char -> bool) returns (b: string)
    ensures s == TrimRight(s, space) + b && forall c <- b :: space(c)
    ensures TrimRight(s, space) != [] ==> !space(TrimRight(s, space)[|TrimRight(s, space)| - 1])
    decreases |s|
  {
    b := [];
    if s != [] && space(s[|s| - 1]) {
      var rest := TrimmedRight(s[..|s| - 1], space);
      b := rest + [s[|s| - 1]];
    }
  }

  /** Trimming takes away space at both ends, all of it, and nothing else. */
  lemma TrimTakesEnds(s: string, space: char -> bool) returns (a: string, b: string)
    ensures var t := Trim(s, space);
      && s == a + t + b && (forall c <- a :: space(c)) && (forall c <- b :: space(c))
      && (t != [] ==> !space(t[0]) && !space(t[|t| - 1]))
  {
    a := TrimmedLeft(s, space);
    b := TrimmedRight(TrimLeft(s, space), space);
    var t := Trim(s, space);
    assert TrimLeft(s, space) == t + b;
    if t != [] { assert t[0] == TrimLeft(s, space)[0]; }
  }

  /** There is only one text that this describes. */
  lemma {:induction false} TrimIsUnique(s: string, space: char -> bool, a: string, t: string, b: string)
    requires s == a + t + b && (forall c <- a :: space(c)) && (forall c <- b :: space(c))
    requires t != [] ==> !space(t[0]) && !space(t[|t| - 1])
    ensures Trim(s, space) == t
  {
    LeftGoes(a, t + b, space);
    assert s == a + (t + b);
    if t == [] {
      assert t + b == b;
      AllGoes(b, space);
    } else {
      assert (t + b)[0] == t[0];
      RightGoes(t, b, space);
    }
  }

  lemma {:induction false} LeftGoes(a: string, rest: string, space: char -> bool)
    requires forall c <- a :: space(c)
    ensures TrimLeft(a + rest, space) == TrimLeft(rest, space)
  {
    if a == [] {
      assert a + rest == rest;
    } else {
      assert (a + rest)[1..] == a[1..] + rest && a[0] in a;
      LeftGoes(a[1..], rest, space);
    }
  }

  lemma {:induction false} RightGoes(t: string, b: string, space: char -> bool)
    requires (forall c <- b :: space(c)) && (t != [] ==> !space(t[|t| - 1]))
    ensures TrimRight(t + b, space) == t
    decreases |b|
  {
    if b == [] {
      assert t + b == t;
    } else {
      var n := |b| - 1;
      assert (t + b)[..|t + b| - 1] == t + b[..n] && (t + b)[|t + b| - 1] == b[n] && b[n] in b;
      RightGoes(t, b[..n], space);
    }
  }

  lemma AllGoes(b: string, space: char -> bool)
    requires forall c <- b :: space(c)
    ensures Trim(b, space) == []
  {
    LeftGoes(b, [], space);
    assert b + [] == b;
  }

  /** The pieces of s between occurrences of c; always at least one. */
  function Split(s: string, c: char): (parts: seq<string>)
    ensures parts != []
    ensures forall p <- parts :: c !in p
  {
    if s == [] then [[]]
    else if s[0] == c then [[]] + Split(s[1..], c)
    else
      var rest := Split(s[1..], c);
      [[s[0]] + rest[0]] + rest[1..]
  }

  function Join(parts: seq<string>, sep: string): string {
    if parts == [] then []
    else if |parts| == 1 then parts[0]
    else parts[0] + sep + Join(parts[1..], sep)
  }

  /** Joining what was split gives the text back, so no character is lost or moved. */
  lemma {:induction false} JoinSplit(s: string, c: char)
    ensures Join(Split(s, c), [c]) == s
  {
    if s == [] {
    } else {
      JoinSplit(s[1..], c);
      var rest := Split(s[1..], c);
      if s[0] == c {
        assert Split(s, c)[1..] == rest;
      } else {
        assert Split(s, c)[1..] == rest[1..];
        if |rest| > 1 {
          assert Join(rest, [c]) == rest[0] + [c] + Join(rest[1..], [c]);
        }
      }
      assert s == [s[0]] + s[1..];
    }
  }

  /** The decimal form of a natural number. */
  function Decimal(n: nat): string {
    if n < 10 then [Digit(n)] else Decimal(n / 10) + [Digit(n % 10)]
  }

  function Digit(n: nat): char
    requires n < 10
  {
    "0123456789"[n]
  }

  /** The number that a decimal form stands for. */
  function Number(s: string): int {
    if s == [] then 0 else 10 * Number(s[..|s| - 1]) + (s[|s| - 1] as int - '0' as int)
  }

  lemma {:induction false} DecimalReads(n: nat)
    ensures Number(Decimal(n)) == n
  {
    var s := Decimal(n);
    if n >= 10 {
      DecimalReads(n / 10);
      assert s[..|s| - 1] == Decimal(n / 10);
    } else {
      assert s[..0] == [];
    }
  }

  /** Different numbers have different decimal forms. */
  lemma DecimalInjective(m: nat, n: nat)
    ensures Decimal(m) == Decimal(n) ==> m == n
  {
    DecimalReads(m);
    DecimalReads(n);
  }
}
