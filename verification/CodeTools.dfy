/** The tree walks of pkg/analyst/codetools.go. A directory tree is a value whose folders list their
    children in the order the walk meets them; glob matching, the compiled expression and the
    trimming of a line are functions of the query. A file's bytes are kept one per character. */
module CodeTools {
  import opened Llm
  import opened Text

  /** A file whose size or bytes cannot be had has None there; a folder that cannot be listed has
      no children. */
  datatype Entry =
    | File(name: string, size: Option<int>, data: Option<string>)
    | Folder(name: string, children: seq<Entry>)

  /** A glob and what it matches; the empty glob is no restriction. */
  datatype Glob = Glob(pattern: string, matches: string -> bool)

  datatype Query = Query(glob: Glob, hit: string -> bool, shown: string -> string)

  datatype Match = Match(path: seq<string>, line: nat, text: string)

  datatype Report<T> = Report(found: seq<T>, count: nat, truncated: bool)

  const MAX_GREP_MATCHES := 100
  const MAX_FIND_RESULTS := 500
  const GREP_FILE_MAX_SIZE := 2 * 1024 * 1024

  predicate SkipDir(name: string) { name == ".git" || name == "node_modules" || name == "vendor" }

  // ----- isProbablyText -----

  predicate Continues(c: char) { 0x80 <= c as int <= 0xBF }

  predicate Between(c: char, lo: int, hi: int) { lo <= c as int <= hi }

  /** The bytes that may follow a lead byte of a three- or four-byte form, Table 3-7 of the Unicode
      Standard. */
  predicate Second(lead: char, c: char) {
    && Continues(c)
    && (lead as int == 0xE0 ==> 0xA0 <= c as int)
    && (lead as int == 0xED ==> c as int <= 0x9F)
    && (lead as int == 0xF0 ==> 0x90 <= c as int)
    && (lead as int == 0xF4 ==> c as int <= 0x8F)
  }

  /** How many bytes the lead byte announces; none if it cannot lead. */
  function Announced(lead: char): nat {
    if Between(lead, 0, 0x7F) then 1
    else if Between(lead, 0xC2, 0xDF) then 2
    else if Between(lead, 0xE0, 0xEF) then 3
    else if Between(lead, 0xF0, 0xF4) then 4
    else 0
  }

  /** The length of the well-formed UTF-8 sequence at the front of b; 0 if there is none. */
  function Sequence(b: string): (n: nat)
    ensures n <= |b|
  {
    if b == [] || |b| < Announced(b[0]) then 0
    else
      var n := Announced(b[0]);
      if (n > 1 ==> Second(b[0], b[1])) && (n > 2 ==> Continues(b[2])) && (n > 3 ==> Continues(b[3])) then n else 0
  }

  predicate ValidUtf8(b: string)
    decreases |b|
  {
    b == [] || (Sequence(b) > 0 && ValidUtf8(b[Sequence(b)..]))
  }

  // Code points, and the bytes that section 3 of RFC 3629 gives them.

  predicate Scalar(c: int) { 0 <= c <= 0x10FFFF && !(0xD800 <= c <= 0xDFFF) }

  function Byte(n: int): char
    requires 0 <= n < 256
  {
    n as char
  }

  function Encoded(c: int): string
    requires Scalar(c)
  {
    if c < 0x80 then [Byte(c)]
    else if c < 0x800 then [Byte(0xC0 + c / 0x40), Byte(0x80 + c % 0x40)]
    else if c < 0x10000 then [Byte(0xE0 + c / 0x1000), Byte(0x80 + c / 0x40 % 0x40), Byte(0x80 + c % 0x40)]
    else
      [Byte(0xF0 + c / 0x40000), Byte(0x80 + c / 0x1000 % 0x40), Byte(0x80 + c / 0x40 % 0x40), Byte(0x80 + c % 0x40)]
  }

  function EncodedAll(cs: seq<int>): string
    requires forall c <- cs :: Scalar(c)
  {
    if cs == [] then [] else Encoded(cs[0]) + EncodedAll(cs[1..])
  }

  lemma EncodingIsSequence(c: int, rest: string)
    requires Scalar(c)
    ensures Sequence(Encoded(c) + rest) == |Encoded(c)| > 0
  {
    var b := Encoded(c) + rest;
    assert b[0] == Encoded(c)[0];
    if c >= 0x80 { assert b[1] == Encoded(c)[1]; }
    if c >= 0x800 { assert b[2] == Encoded(c)[2]; }
    if c >= 0x10000 { assert b[3] == Encoded(c)[3]; }
  }

  function Decoded(b: string): int
    requires Sequence(b) > 0
  {
    match Sequence(b)
    case 1 => b[0] as int
    case 2 => (b[0] as int - 0xC0) * 0x40 + (b[1] as int - 0x80)
    case 3 => (b[0] as int - 0xE0) * 0x1000 + (b[1] as int - 0x80) * 0x40 + (b[2] as int - 0x80)
    case _ =>
      (b[0] as int - 0xF0) * 0x40000 + (b[1] as int - 0x80) * 0x1000 + (b[2] as int - 0x80) * 0x40
          + (b[3] as int - 0x80)
  }

  lemma SequenceIsEncoding(b: string)
    requires Sequence(b) > 0
    ensures Scalar(Decoded(b)) && Encoded(Decoded(b)) == b[..Sequence(b)]
  {
    var n := Sequence(b);
    hide Encoded;
    if n == 1 {
      OneByte(b[0]);
    } else if n == 2 {
      TwoBytes(b[0] as int - 0xC0, b[1] as int - 0x80);
    } else if n == 3 {
      ThreeBytes(b[0] as int - 0xE0, b[1] as int - 0x80, b[2] as int - 0x80);
    } else {
      FourBytes(b[0] as int - 0xF0, b[1] as int - 0x80, b[2] as int - 0x80, b[3] as int - 0x80);
    }
  }

  lemma OneByte(c: char)
    requires c as int < 0x80
    ensures Scalar(c as int) && Encoded(c as int) == [c]
  {
  }

  lemma TwoBytes(x: int, y: int)
    requires 2 <= x < 0x20 && 0 <= y < 0x40
    ensures var c := x * 0x40 + y;
      Scalar(c) && Encoded(c) == [Byte(0xC0 + x), Byte(0x80 + y)]
  {
  }

  lemma ThreeBytes(x: int, y: int, z: int)
    requires 0 <= x < 0x10 && 0 <= y < 0x40 && 0 <= z < 0x40
    requires (x == 0 ==> y >= 0x20) && (x == 0xD ==> y < 0x20)
    ensures var c := x * 0x1000 + y * 0x40 + z;
      Scalar(c) && Encoded(c) == [Byte(0xE0 + x), Byte(0x80 + y), Byte(0x80 + z)]
  {
    var c := x * 0x1000 + y * 0x40 + z;
    assert c / 0x40 == x * 0x40 + y;
    assert c / 0x1000 == x;
  }

  lemma FourBytes(x: int, y: int, z: int, u: int)
    requires 0 <= x < 5 && 0 <= y < 0x40 && 0 <= z < 0x40 && 0 <= u < 0x40
    requires (x == 0 ==> y >= 0x10) && (x == 4 ==> y < 0x10)
    ensures var c := x * 0x40000 + y * 0x1000 + z * 0x40 + u;
      Scalar(c) && Encoded(c) == [Byte(0xF0 + x), Byte(0x80 + y), Byte(0x80 + z), Byte(0x80 + u)]
  {
    var c := x * 0x40000 + y * 0x1000 + z * 0x40 + u;
    assert c / 0x40 == x * 0x1000 + y * 0x40 + z;
    assert c / 0x1000 == x * 0x40 + y;
    assert c / 0x40000 == x;
  }

  /** The test accepts exactly the encodings of code points. */
  lemma {:induction false} ValidIffEncoded(b: string) returns (cs: seq<int>)
    ensures ValidUtf8(b) ==> (forall c <- cs :: Scalar(c)) && b == EncodedAll(cs)
    decreases |b|
  {
    hide Sequence, Encoded, Scalar;
    cs := [];
    if ValidUtf8(b) && b != [] {
      var n := Sequence(b);
      SequenceIsEncoding(b);
      var rest := ValidIffEncoded(b[n..]);
      cs := [Decoded(b)] + rest;
      assert cs[1..] == rest && b == b[..n] + b[n..];
    }
  }

  lemma {:induction false} EncodedIsValid(cs: seq<int>)
    requires forall c <- cs :: Scalar(c)
    ensures ValidUtf8(EncodedAll(cs))
  {
    hide Sequence, Encoded, Scalar;
    if cs != [] {
      var rest := EncodedAll(cs[1..]);
      EncodingIsSequence(cs[0], rest);
      EncodedIsValid(cs[1..]);
      assert (Encoded(cs[0]) + rest)[|Encoded(cs[0])|..] == rest;
    }
  }

  predicate IsProbablyText(b: string) {
    '\0' !in b && ValidUtf8(if |b| > 1024 then b[..1024] else b)
  }

  lemma LeadStands(b: string)
    requires b != [] && Sequence(b) > 0
    ensures !Continues(b[0])
  {
  }

  /** A cut sequence is no sequence, and its cut-off part begins with a continuation byte. */
  lemma SequenceCut(b: string, n: nat)
    requires 0 < n < |b| && Sequence(b) > 0
    ensures Sequence(b[..n]) == if Sequence(b) <= n then Sequence(b) else 0
    ensures Sequence(b) > n ==> Continues(b[n])
  {
    assert b[..n][0] == b[0];
  }

  /** A prefix of well-formed UTF-8 is well-formed exactly when the cut is between characters. */
  lemma {:induction false} CutsBetweenCharacters(b: string, n: nat)
    requires ValidUtf8(b) && n <= |b|
    ensures ValidUtf8(b[..n]) <==> n == |b| || !Continues(b[n])
    decreases |b|
  {
    hide Sequence;
    if n == |b| {
      assert b[..n] == b;
    } else if n == 0 {
      LeadStands(b);
    } else {
      var k := Sequence(b);
      SequenceCut(b, n);
      if n >= k {
        CutsBetweenCharacters(b[k..], n - k);
        assert b[..n][k..] == b[k..][..n - k];
      }
    }
  }

  /** The test is meant to pass source text and reject binary data. A NUL-free file in well-formed
      UTF-8 is nevertheless rejected exactly when its 1024-byte sample ends inside a character. */
  lemma Utf8SourceIsScannedIff(b: string)
    requires ValidUtf8(b) && '\0' !in b
    ensures IsProbablyText(b) <==> |b| <= 1024 || !Continues(b[1024])
  {
    if |b| > 1024 { CutsBetweenCharacters(b, 1024); }
  }

  lemma {:induction false} AsciiFirst(n: nat, rest: string)
    ensures ValidUtf8(seq(n, _ => 'a') + rest) <==> ValidUtf8(rest)
    decreases n
  {
    var s := seq(n, _ => 'a') + rest;
    if n == 0 {
      assert s == rest;
    } else {
      assert s[0] == 'a' && s[1..] == seq(n - 1, _ => 'a') + rest;
      AsciiFirst(n - 1, rest);
    }
  }

  /** Such a file: 1023 letters and one letter of two bytes. */
  lemma CutCharacterIsSkipped()
    ensures var b := seq(1023, _ => 'a') + [0xC3 as char, 0xA9 as char];
      |b| == 1025 && '\0' !in b && ValidUtf8(b) && !IsProbablyText(b)
  {
    var two := [0xC3 as char, 0xA9 as char];
    var b := seq(1023, _ => 'a') + two;
    AsciiFirst(1023, two);
    assert two[Sequence(two)..] == "";
    Utf8SourceIsScannedIff(b);
  }

  // ----- The whole listing -----

  /** A file with its path below the root and the names of the folders it lies in, root included. */
  datatype Listed = Listed(path: seq<string>, folders: seq<string>, name: string, size: Option<int>,
                           data: Option<string>)

  /** Every file of the tree, in walking order; nothing is pruned. */
  function Listing(e: Entry, path: seq<string>, folders: seq<string>): seq<Listed>
    decreases e
  {
    match e
    case File(name, size, data) => [Listed(path, folders, name, size, data)]
    case Folder(name, children) => ListingOf(children, path, folders + [name])
  }

  function ListingOf(children: seq<Entry>, path: seq<string>, folders: seq<string>): seq<Listed>
    decreases children
  {
    if children == [] then []
    else Listing(children[0], path + [children[0].name], folders) + ListingOf(children[1..], path, folders)
  }

  predicate Named(g: Glob, name: string) { g.pattern == "" || g.matches(name) }

  /** No folder above the file is one of the noise directories. */
  predicate Reachable(f: Listed) { forall d <- f.folders :: d != ".git" && d != "node_modules" && d != "vendor" }

  predicate Searched(q: Query, f: Listed) {
    && Named(q.glob, f.name)
    && (f.size.Some? ==> f.size.value <= 2 * 1024 * 1024)
    && f.data.Some? && IsProbablyText(f.data.value)
  }

  /** The matching lines from number i + 1 on. */
  function LineMatches(q: Query, path: seq<string>, lines: seq<string>, i: nat): seq<Match>
    requires i <= |lines|
    decreases |lines| - i
  {
    if i == |lines| then []
    else (if q.hit(lines[i]) then [Match(path, i + 1, q.shown(lines[i]))] else []) + LineMatches(q, path, lines, i + 1)
  }

  predicate IsHit(q: Query, path: seq<string>, lines: seq<string>, m: Match) {
    0 < m.line <= |lines| && q.hit(lines[m.line - 1]) && m == Match(path, m.line, q.shown(lines[m.line - 1]))
  }

  /** These are exactly the hit lines from line i + 1 on, each once, numbered from 1 and in order. */
  predicate AreHits(q: Query, path: seq<string>, lines: seq<string>, i: nat, ms: seq<Match>) {
    && (forall m <- ms :: IsHit(q, path, lines, m) && m.line > i)
    && (forall k :: i <= k < |lines| && q.hit(lines[k]) ==> Match(path, k + 1, q.shown(lines[k])) in ms)
    && forall a, b :: 0 <= a < b < |ms| ==> ms[a].line < ms[b].line
  }

  lemma {:induction false} LineMatchesAre(q: Query, path: seq<string>, lines: seq<string>, i: nat)
    requires i <= |lines|
    ensures AreHits(q, path, lines, i, LineMatches(q, path, lines, i))
    decreases |lines| - i
  {
    hide AreHits;
    if i < |lines| {
      LineMatchesAre(q, path, lines, i + 1);
      OneMoreLine(q, path, lines, i, LineMatches(q, path, lines, i + 1));
    } else {
      NoMoreLines(q, path, lines);
    }
  }

  lemma NoMoreLines(q: Query, path: seq<string>, lines: seq<string>)
    ensures AreHits(q, path, lines, |lines|, [])
  {
  }

  lemma OneMoreLine(q: Query, path: seq<string>, lines: seq<string>, i: nat, rest: seq<Match>)
    requires i < |lines| && AreHits(q, path, lines, i + 1, rest)
    ensures var m := Match(path, i + 1, q.shown(lines[i]));
      AreHits(q, path, lines, i, (if q.hit(lines[i]) then [m] else []) + rest)
  {
    hide IsHit;
    var m := Match(path, i + 1, q.shown(lines[i]));
    var ms := (if q.hit(lines[i]) then [m] else []) + rest;
    if q.hit(lines[i]) {
      HitIs(q, path, lines, i);
      OneMoreMatch(ms, m, rest);
    } else {
      assert ms == rest;
    }
    forall k | i <= k < |lines| && q.hit(lines[k]) ensures Match(path, k + 1, q.shown(lines[k])) in ms {
      if k > i { assert Match(path, k + 1, q.shown(lines[k])) in rest; }
    }
  }

  lemma HitIs(q: Query, path: seq<string>, lines: seq<string>, i: nat)
    requires i < |lines| && q.hit(lines[i])
    ensures IsHit(q, path, lines, Match(path, i + 1, q.shown(lines[i])))
  {
  }

  lemma OneMoreMatch(ms: seq<Match>, m: Match, rest: seq<Match>)
    requires ms == [m] + rest && forall n <- rest :: m.line < n.line
    requires forall a, b :: 0 <= a < b < |rest| ==> rest[a].line < rest[b].line
    ensures forall n :: n in ms <==> n == m || n in rest
    ensures forall a, b :: 0 <= a < b < |ms| ==> ms[a].line < ms[b].line
  {
    forall a, b | 0 <= a < b < |ms| ensures ms[a].line < ms[b].line {
      assert ms[b] == rest[b - 1] && rest[b - 1] in rest;
    }
  }

  function FileMatches(q: Query, f: Listed): seq<Match> {
    if Reachable(f) && Searched(q, f) then LineMatches(q, f.path, Split(f.data.value, '\n'), 0) else []
  }

  function AllMatches(q: Query, files: seq<Listed>): seq<Match> {
    if files == [] then [] else FileMatches(q, files[0]) + AllMatches(q, files[1..])
  }

  function FileName(g: Glob, f: Listed): seq<seq<string>> {
    if Reachable(f) && Named(g, f.name) then [f.path] else []
  }

  function AllNames(g: Glob, files: seq<Listed>): seq<seq<string>> {
    if files == [] then [] else FileName(g, files[0]) + AllNames(g, files[1..])
  }

  lemma {:induction false} MatchesAdd(q: Query, a: seq<Listed>, b: seq<Listed>)
    ensures AllMatches(q, a + b) == AllMatches(q, a) + AllMatches(q, b)
  {
    hide FileMatches;
    if a == [] {
      assert a + b == b;
    } else {
      MatchesAdd(q, a[1..], b);
      assert (a + b)[1..] == a[1..] + b;
    }
  }

  lemma {:induction false} NamesAdd(g: Glob, a: seq<Listed>, b: seq<Listed>)
    ensures AllNames(g, a + b) == AllNames(g, a) + AllNames(g, b)
  {
    hide FileName;
    if a == [] {
      assert a + b == b;
    } else {
      NamesAdd(g, a[1..], b);
      assert (a + b)[1..] == a[1..] + b;
    }
  }

  /** Everything listed below a folder names that folder. */
  lemma {:induction false} BelowKeepsFolders(e: Entry, path: seq<string>, folders: seq<string>)
    ensures forall f <- Listing(e, path, folders), d <- folders :: d in f.folders
    decreases e
  {
    if e.Folder? {
      AllBelowKeepFolders(e.children, path, folders + [e.name]);
      forall f <- Listing(e, path, folders), d <- folders ensures d in f.folders {
        assert d in folders + [e.name];
      }
    }
  }

  lemma {:induction false} AllBelowKeepFolders(children: seq<Entry>, path: seq<string>, folders: seq<string>)
    ensures forall f <- ListingOf(children, path, folders), d <- folders :: d in f.folders
    decreases children
  {
    if children != [] {
      BelowKeepsFolders(children[0], path + [children[0].name], folders);
      AllBelowKeepFolders(children[1..], path, folders);
    }
  }

  lemma {:induction false} NothingReachable(q: Query, files: seq<Listed>)
    requires forall f <- files :: !Reachable(f)
    ensures AllMatches(q, files) == [] && AllNames(q.glob, files) == []
  {
    if files != [] {
      assert files[0] in files;
      NothingReachable(q, files[1..]);
    }
  }

  /** Pruning a folder loses nothing that the full listing would have reported. */
  lemma PruningIsExact(q: Query, e: Entry, path: seq<string>, folders: seq<string>)
    requires e.Folder? && (e.name == ".git" || e.name == "node_modules" || e.name == "vendor")
    ensures AllMatches(q, Listing(e, path, folders)) == [] && AllNames(q.glob, Listing(e, path, folders)) == []
  {
    AllBelowKeepFolders(e.children, path, folders + [e.name]);
    assert e.name in folders + [e.name] && SkipDir(e.name);
    NothingReachable(q, Listing(e, path, folders));
  }

  // ----- What the listing is -----

  /** The entry that a way of child numbers leads to, with the names on the way. */
  function EntryAt(e: Entry, way: seq<nat>, path: seq<string>, folders: seq<string>): Option<Listed>
    decreases |way|
  {
    match e
    case File(name, size, data) => if way == [] then Some(Listed(path, folders, name, size, data)) else None
    case Folder(name, children) =>
      if way == [] || way[0] >= |children| then None
      else EntryAt(children[way[0]], way[1..], path + [children[way[0]].name], folders + [name])
  }

  /** One way comes before another when at the first place where they differ its child is earlier. */
  predicate Before(a: seq<nat>, b: seq<nat>) {
    a != [] && b != [] && (a[0] < b[0] || (a[0] == b[0] && Before(a[1..], b[1..])))
  }

  /** These ways lead to the listed files, come in order, and leave none out. */
  ghost predicate Walks(e: Entry, ways: seq<seq<nat>>, path: seq<string>, folders: seq<string>, files: seq<Listed>) {
    && |ways| == |files|
    && (forall i :: 0 <= i < |files| ==> EntryAt(e, ways[i], path, folders) == Some(files[i]))
    && (forall i, j :: 0 <= i < j < |ways| ==> Before(ways[i], ways[j]))
    && forall way :: EntryAt(e, way, path, folders).Some? ==> way in ways
  }

  function Under(k: nat, ways: seq<seq<nat>>): (r: seq<seq<nat>>)
    ensures |r| == |ways| && forall i :: 0 <= i < |r| ==> r[i] == [k] + ways[i]
  {
    seq(|ways|, i requires 0 <= i < |ways| => [k] + ways[i])
  }

  /** The listing has every file of the tree once, with its path and its folders, in the order of the
      children at every level. */
  lemma {:induction false} ListingIsTheTree(e: Entry, path: seq<string>, folders: seq<string>)
    returns (ways: seq<seq<nat>>)
    ensures Walks(e, ways, path, folders, Listing(e, path, folders))
    decreases e, 1, 0
  {
    match e
    case File(name, size, data) =>
      ways := [[]];
      forall way | EntryAt(e, way, path, folders).Some? ensures way in ways { assert way == []; }
    case Folder(name, children) =>
      ways := ChildrenAreListed(e, 0, path, folders + [name]);
      assert children[0..] == children;
      FolderWalks(e, ways, path, folders, ListingOf(children, path, folders + [name]));
  }

  lemma FolderWalks(e: Entry, ways: seq<seq<nat>>, path: seq<string>, folders: seq<string>, files: seq<Listed>)
    requires e.Folder? && WalksFrom(e, 0, ways, path, folders + [e.name], files)
    ensures Walks(e, ways, path, folders, files)
  {
    forall way ensures EntryAt(e, way, path, folders) == EntryBelow(e, way, path, folders + [e.name]) {}
    forall way | EntryAt(e, way, path, folders).Some? ensures way in ways {
      assert EntryBelow(e, way, path, folders + [e.name]).Some? && way[0] >= 0;
    }
  }

  function EntryBelow(e: Entry, way: seq<nat>, path: seq<string>, folders: seq<string>): Option<Listed>
    requires e.Folder?
  {
    if way == [] || way[0] >= |e.children| then None
    else EntryAt(e.children[way[0]], way[1..], path + [e.children[way[0]].name], folders)
  }

  /** The ways into a folder from its child k on. */
  ghost predicate WalksFrom(e: Entry, k: nat, ways: seq<seq<nat>>, path: seq<string>, folders: seq<string>,
                            files: seq<Listed>)
    requires e.Folder?
  {
    && |ways| == |files|
    && (forall i :: 0 <= i < |files| ==>
          ways[i] != [] && ways[i][0] >= k && EntryBelow(e, ways[i], path, folders) == Some(files[i]))
    && (forall i, j :: 0 <= i < j < |ways| ==> Before(ways[i], ways[j]))
    && forall way: seq<nat> :: EntryBelow(e, way, path, folders).Some? && way[0] >= k ==> way in ways
  }

  lemma {:induction false} ChildrenAreListed(e: Entry, k: nat, path: seq<string>, folders: seq<string>)
    returns (ways: seq<seq<nat>>)
    requires e.Folder? && k <= |e.children|
    ensures WalksFrom(e, k, ways, path, folders, ListingOf(e.children[k..], path, folders))
    decreases e, 0, |e.children| - k
  {
    ways := [];
    if k < |e.children| {
      hide WalksFrom, Walks, EntryAt, EntryBelow;
      var child := e.children[k];
      ChildListed(e.children, k, path, folders);
      var head := ListingIsTheTree(child, path + [child.name], folders);
      var tail := ChildrenAreListed(e, k + 1, path, folders);
      ways := Under(k, head) + tail;
      OneMoreChild(e, k, path, folders, head, Listing(child, path + [child.name], folders), tail,
                   ListingOf(e.children[k + 1..], path, folders));
    }
  }

  lemma OneMoreChild(e: Entry, k: nat, path: seq<string>, folders: seq<string>, head: seq<seq<nat>>, first: seq<Listed>,
                     tail: seq<seq<nat>>, rest: seq<Listed>)
    requires e.Folder? && k < |e.children|
    requires Walks(e.children[k], head, path + [e.children[k].name], folders, first)
    requires WalksFrom(e, k + 1, tail, path, folders, rest)
    ensures WalksFrom(e, k, Under(k, head) + tail, path, folders, first + rest)
  {
    hide EntryAt, Before;
    var ways := Under(k, head) + tail;
    UnderChild(e, k, path, folders, head, first);
    UnderInOrder(k, head, tail);
    forall way: seq<nat> | EntryBelow(e, way, path, folders).Some? && way[0] >= k ensures way in ways {
      InUnder(k, head, tail, way);
    }
  }

  lemma InUnder(k: nat, head: seq<seq<nat>>, tail: seq<seq<nat>>, way: seq<nat>)
    requires way != [] && way[0] >= k && if way[0] == k then way[1..] in head else way in tail
    ensures way in Under(k, head) + tail
  {
    if way[0] == k {
      var i :| 0 <= i < |head| && head[i] == way[1..];
      assert way == [k] + way[1..] && Under(k, head)[i] == way;
    }
  }

  lemma UnderInOrder(k: nat, head: seq<seq<nat>>, tail: seq<seq<nat>>)
    requires forall i, j :: 0 <= i < j < |head| ==> Before(head[i], head[j])
    requires forall i, j :: 0 <= i < j < |tail| ==> Before(tail[i], tail[j])
    requires forall i :: 0 <= i < |tail| ==> tail[i] != [] && tail[i][0] > k
    ensures var ways := Under(k, head) + tail; forall i, j :: 0 <= i < j < |ways| ==> Before(ways[i], ways[j])
  {
    var ways := Under(k, head) + tail;
    forall i, j | 0 <= i < j < |ways| ensures Before(ways[i], ways[j]) {
      if j < |head| {
        assert ways[i][1..] == head[i] && ways[j][1..] == head[j];
      } else if i >= |head| {
        assert ways[i] == tail[i - |head|] && ways[j] == tail[j - |head|];
      } else {
        assert ways[i][0] == k && ways[j] == tail[j - |head|];
      }
    }
  }

  lemma UnderChild(e: Entry, k: nat, path: seq<string>, folders: seq<string>, head: seq<seq<nat>>, files: seq<Listed>)
    requires e.Folder? && k < |e.children|
    requires Walks(e.children[k], head, path + [e.children[k].name], folders, files)
    ensures forall i :: 0 <= i < |files| ==> EntryBelow(e, Under(k, head)[i], path, folders) == Some(files[i])
  {
    forall i | 0 <= i < |files| ensures EntryBelow(e, Under(k, head)[i], path, folders) == Some(files[i]) {
      assert Under(k, head)[i][1..] == head[i];
    }
  }

  // ----- Stopping at the limit -----

  function First<T>(all: seq<T>, limit: nat): seq<T> { if |all| > limit then all[..limit] else all }

  /** out is the first `limit` of all, and says whether there are more. */
  predicate Cut<T(==)>(out: seq<T>, truncated: bool, all: seq<T>, limit: nat) {
    truncated == (|all| > limit) && out == First(all, limit)
  }

  lemma Assoc<T>(a: seq<T>, b: seq<T>, c: seq<T>)
    ensures a + b + c == a + (b + c)
  {
  }

  lemma CutStays<T>(out: seq<T>, all: seq<T>, more: seq<T>, limit: nat)
    requires Cut(out, true, all, limit)
    ensures Cut(out, true, all + more, limit)
  {
  }

  lemma ChildListed(children: seq<Entry>, i: nat, path: seq<string>, folders: seq<string>)
    requires i < |children|
    ensures ListingOf(children[i..], path, folders) ==
            Listing(children[i], path + [children[i].name], folders) + ListingOf(children[i + 1..], path, folders)
  {
    assert children[i..][1..] == children[i + 1..];
  }

  function MatchesOf(q: Query, children: seq<Entry>, path: seq<string>, folders: seq<string>): seq<Match> {
    AllMatches(q, ListingOf(children, path, folders))
  }

  /** The walk of grepCode: the callback's captured variables. */
  class Grep {
    const q: Query
    const limit: nat
    var matches: seq<Match>
    var truncated: bool

    constructor (q: Query, limit: nat)
      ensures this.q == q && this.limit == limit && matches == [] && !truncated
    {
      this.q, this.limit, matches, truncated := q, limit, [], false;
    }

    ghost predicate Open() reads this { !truncated && |matches| <= limit }

    /** The lines of one file that is searched. */
    method Scan(path: seq<string>, lines: seq<string>) returns (stop: bool)
      requires Open()
      modifies this
      ensures Cut(matches, truncated, old(matches) + LineMatches(q, path, lines, 0), limit) && stop == truncated
    {
      ghost var was := matches;
      ghost var all := was + LineMatches(q, path, lines, 0);
      for i := 0 to |lines|
        invariant Open()
        invariant all == matches + LineMatches(q, path, lines, i)
      {
        ghost var before := matches;
        if q.hit(lines[i]) {
          if |matches| >= limit {
            truncated := true;
            return true;
          }
          matches := matches + [Match(path, i + 1, q.shown(lines[i]))];
          assert all == before + ([Match(path, i + 1, q.shown(lines[i]))] + LineMatches(q, path, lines, i + 1));
        }
      }
      stop := false;
    }

    method Visit(e: Entry, path: seq<string>, ghost folders: seq<string>) returns (stop: bool)
      requires Open() && forall d <- folders :: !SkipDir(d)
      modifies this
      ensures Cut(matches, truncated, old(matches) + AllMatches(q, Listing(e, path, folders)), limit)
          && stop == truncated
      decreases e
    {
      match e
      case File(name, size, data) =>
        ghost var f := Listed(path, folders, name, size, data);
        assert AllMatches(q, Listing(e, path, folders)) == FileMatches(q, f) by { OneFile(q, f); }
        if q.glob.pattern != "" && !q.glob.matches(name) { return false; }
        if size.Some? && size.value > GREP_FILE_MAX_SIZE { return false; }
        if data.None? || !IsProbablyText(data.value) { return false; }
        stop := Scan(path, Split(data.value, '\n'));
      case Folder(name, children) =>
        if SkipDir(name) {
          PruningIsExact(q, e, path, folders);
          return false;
        }
        stop := VisitAll(e, children, path, folders + [name]);
    }

    method VisitAll(ghost parent: Entry, children: seq<Entry>, path: seq<string>, ghost folders: seq<string>)
      returns (stop: bool)
      requires Open() && forall d <- folders :: !SkipDir(d)
      requires parent.Folder? && parent.children == children
      modifies this
      ensures Cut(matches, truncated, old(matches) + MatchesOf(q, children, path, folders), limit) && stop == truncated
      decreases parent, 0
    {
      ghost var all := matches + MatchesOf(q, children, path, folders);
      assert children[0..] == children;
      for i := 0 to |children|
        invariant Open()
        invariant all == matches + MatchesOf(q, children[i..], path, folders)
      {
        ghost var head := AllMatches(q, Listing(children[i], path + [children[i].name], folders));
        ghost var rest := MatchesOf(q, children[i + 1..], path, folders);
        ghost var before := matches;
        ChildListed(children, i, path, folders);
        MatchesAdd(q, Listing(children[i], path + [children[i].name], folders),
                   ListingOf(children[i + 1..], path, folders));
        Assoc(before, head, rest);
        var halted := Visit(children[i], path + [children[i].name], folders);
        if halted {
          CutStays(matches, before + head, rest, limit);
          return true;
        }
      }
      stop := false;
    }
  }

  lemma OneFile(q: Query, f: Listed)
    ensures AllMatches(q, [f]) == FileMatches(q, f)
    ensures AllNames(q.glob, [f]) == FileName(q.glob, f)
  {
    assert [f][1..] == [];
  }

  /** The files of a whole tree; a root that cannot be read has none. */
  function Files(root: Option<Entry>): seq<Listed> {
    if root.None? then [] else Listing(root.value, [], [])
  }

  function Limit(asked: int, usual: nat): nat { if asked <= 0 then usual else asked }

  /** grep_code: the first matches of the full, filtered listing, in walking order. */
  method GrepCode(root: Option<Entry>, pattern: string, compiled: Option<string -> bool>, glob: Glob,
                  shown: string -> string, max: int) returns (r: Result<Report<Match>>)
    ensures r.Err? <==> pattern == "" || compiled.None?
    ensures r.Ok? ==>
              Cut(r.value.found, r.value.truncated,
                  AllMatches(Query(glob, compiled.value, shown), Files(root)), if max <= 0 then 100 else max)
    ensures r.Ok? ==> r.value.count == |r.value.found|
  {
    if pattern == "" { return Err("grep_code requires 'pattern'"); }
    if compiled.None? { return Err("invalid pattern"); }
    var walk := new Grep(Query(glob, compiled.value, shown), Limit(max, MAX_GREP_MATCHES));
    if root.Some? {
      var _ := walk.Visit(root.value, [], []);
    }
    r := Ok(Report(walk.matches, |walk.matches|, walk.truncated));
  }

  // ----- findFiles -----

  class Find {
    const glob: Glob
    const limit: nat
    var paths: seq<seq<string>>
    var truncated: bool

    constructor (glob: Glob, limit: nat)
      ensures this.glob == glob && this.limit == limit && paths == [] && !truncated
    {
      this.glob, this.limit, paths, truncated := glob, limit, [], false;
    }

    ghost predicate Open() reads this { !truncated && |paths| <= limit }

    method Visit(e: Entry, path: seq<string>, ghost folders: seq<string>) returns (stop: bool)
      requires Open() && forall d <- folders :: !SkipDir(d)
      modifies this
      ensures Cut(paths, truncated, old(paths) + AllNames(glob, Listing(e, path, folders)), limit) && stop == truncated
      decreases e
    {
      match e
      case File(name, size, data) =>
        OneFile(Query(glob, s => false, s => s), Listed(path, folders, name, size, data));
        if glob.pattern != "" && !glob.matches(name) { return false; }
        if |paths| >= limit {
          truncated := true;
          return true;
        }
        paths := paths + [path];
        stop := false;
      case Folder(name, children) =>
        if SkipDir(name) {
          PruningIsExact(Query(glob, s => false, s => s), e, path, folders);
          return false;
        }
        stop := VisitAll(e, children, path, folders + [name]);
    }

    method VisitAll(ghost parent: Entry, children: seq<Entry>, path: seq<string>, ghost folders: seq<string>)
      returns (stop: bool)
      requires Open() && forall d <- folders :: !SkipDir(d)
      requires parent.Folder? && parent.children == children
      modifies this
      ensures Cut(paths, truncated, old(paths) + AllNames(glob, ListingOf(children, path, folders)), limit)
          && stop == truncated
      decreases parent, 0
    {
      ghost var all := paths + AllNames(glob, ListingOf(children, path, folders));
      assert children[0..] == children;
      for i := 0 to |children|
        invariant Open()
        invariant all == paths + AllNames(glob, ListingOf(children[i..], path, folders))
      {
        ghost var head := AllNames(glob, Listing(children[i], path + [children[i].name], folders));
        ghost var rest := AllNames(glob, ListingOf(children[i + 1..], path, folders));
        ghost var before := paths;
        ChildListed(children, i, path, folders);
        NamesAdd(glob, Listing(children[i], path + [children[i].name], folders),
                 ListingOf(children[i + 1..], path, folders));
        Assoc(before, head, rest);
        var halted := Visit(children[i], path + [children[i].name], folders);
        if halted {
          CutStays(paths, before + head, rest, limit);
          return true;
        }
      }
      stop := false;
    }
  }

  /** A path as filepath.Rel writes it. */
  function Rel(path: seq<string>): string { if path == [] then "." else Join(path, "/") }

  function Rels(paths: seq<seq<string>>): seq<string> { seq(|paths|, i requires 0 <= i < |paths| => Rel(paths[i])) }

  /** The byte order of sort.Strings. */
  predicate AtMost(a: string, b: string) {
    a == [] || (b != [] && (a[0] < b[0] || (a[0] == b[0] && AtMost(a[1..], b[1..]))))
  }

  lemma {:induction false} AtMostTotal(a: string, b: string)
    ensures AtMost(a, b) || AtMost(b, a)
  {
    if a != [] && b != [] { AtMostTotal(a[1..], b[1..]); }
  }

  lemma {:induction false} AtMostChains(a: string, b: string, c: string)
    requires AtMost(a, b) && AtMost(b, c)
    ensures AtMost(a, c)
  {
    if a != [] && a[0] == b[0] == c[0] { AtMostChains(a[1..], b[1..], c[1..]); }
  }

  ghost predicate Ordered(s: seq<string>) { forall i, j :: 0 <= i < j < |s| ==> AtMost(s[i], s[j]) }

  function Insert(x: string, s: seq<string>): (r: seq<string>)
    requires Ordered(s)
    ensures Ordered(r) && multiset(r) == multiset(s) + multiset{x}
  {
    if s == [] then [x]
    else if AtMost(x, s[0]) then
      PutInFront(x, s);
      [x] + s
    else
      OrderedTail(s);
      var rest := Insert(x, s[1..]);
      PutBehind(x, s, rest);
      [s[0]] + rest
  }

  lemma OrderedTail(s: seq<string>)
    requires s != [] && Ordered(s)
    ensures Ordered(s[1..]) && forall y <- s[1..] :: AtMost(s[0], y)
  {
    hide AtMost;
  }

  lemma PutInFront(x: string, s: seq<string>)
    requires s != [] && Ordered(s) && AtMost(x, s[0])
    ensures Ordered([x] + s) && multiset([x] + s) == multiset(s) + multiset{x}
  {
    hide AtMost;
    forall j | 0 < j < |s| ensures AtMost(x, s[j]) { AtMostChains(x, s[0], s[j]); }
  }

  lemma PutBehind(x: string, s: seq<string>, rest: seq<string>)
    requires s != [] && Ordered(s) && !AtMost(x, s[0])
    requires Ordered(rest) && multiset(rest) == multiset(s[1..]) + multiset{x}
    ensures Ordered([s[0]] + rest) && multiset([s[0]] + rest) == multiset(s) + multiset{x}
  {
    hide AtMost;
    AtMostTotal(x, s[0]);
    OrderedTail(s);
    assert s == [s[0]] + s[1..];
    forall y | y in rest ensures AtMost(s[0], y) { assert y in multiset(rest); }
  }

  function Sort(s: seq<string>): (r: seq<string>)
    ensures Ordered(r) && multiset(r) == multiset(s)
  {
    if s == [] then []
    else
      assert s == [s[0]] + s[1..];
      Insert(s[0], Sort(s[1..]))
  }

  lemma SameSize(a: seq<string>, b: seq<string>)
    requires multiset(a) == multiset(b)
    ensures |a| == |b|
  {
    assert |a| == |multiset(a)| == |multiset(b)| == |b|;
  }

  /** find_files: the first names of the full, filtered listing, put in order; which ones those are
      is decided by walking order, before the sort. */
  method FindFiles(root: Option<Entry>, glob: Glob, max: int) returns (r: Report<string>)
    ensures var all := AllNames(glob, Files(root));
            var limit := if max <= 0 then 500 else max;
            && r.truncated == (|all| > limit)
            && r.count == |r.found|
            && multiset(r.found) == multiset(Rels(First(all, limit)))
            && Ordered(r.found)
  {
    hide Listing, Rel, Ordered, FileName;
    var walk := new Find(glob, Limit(max, MAX_FIND_RESULTS));
    ghost var all := AllNames(glob, Files(root));
    if root.Some? {
      var _ := walk.Visit(root.value, [], []);
      assert [] + all == all;
    }
    assert Cut(walk.paths, walk.truncated, all, Limit(max, MAX_FIND_RESULTS));
    var names := Rels(walk.paths);
    r := Report(Sort(names), |walk.paths|, walk.truncated);
    SameSize(r.found, names);
  }

  // ----- The line window of readFile -----

  /** Addition on Go's int, 64 bits wide. */
  function Wrapped(n: int): int { (n + 0x8000_0000_0000_0000) % 0x1_0000_0000_0000_0000 - 0x8000_0000_0000_0000 }

  predicate IsInt(n: int) { Wrapped(n) == n }

  lemma AddWraps(a: int, b: int)
    requires a >= 0 && b > 0 && IsInt(a) && IsInt(b)
    ensures Wrapped(a + b) == if IsInt(a + b) then a + b else a + b - 0x1_0000_0000_0000_0000
    ensures !IsInt(a + b) ==> Wrapped(a + b) < 0
  {
  }

  function Start(count: nat, off: int): nat { if off < 0 then 0 else if off > count then count else off }

  lemma StartIsInt(count: nat, off: int)
    requires IsInt(count)
    ensures IsInt(Start(count, off)) && Start(count, off) <= count
  {
  }

  /** The lines of the window; None when the slice bounds are out of range, which panics. */
  function Lines(lines: seq<string>, off: int, lim: int): Option<seq<string>> {
    var start := Start(|lines|, off);
    var end := if lim > 0 && Wrapped(start + lim) < |lines| then Wrapped(start + lim) else |lines|;
    if start <= end then Some(lines[start..end]) else None
  }

  function Window(content: string, off: int, lim: int): Option<string> {
    if off <= 0 && lim <= 0 then Some(content)
    else
      var lines := Lines(Split(content, '\n'), off, lim);
      if lines.None? then None else Some(Join(lines.value, "\n"))
  }

  function AtMostLines(lines: seq<string>, n: nat): seq<string> { if n < |lines| then lines[..n] else lines }

  lemma LinesIff(lines: seq<string>, off: int, lim: int)
    requires IsInt(off) && IsInt(lim) && IsInt(|lines|)
    ensures var start := Start(|lines|, off);
            Lines(lines, off, lim) ==
              if lim <= 0 then Some(lines[start..])
              else if !IsInt(start + lim) then None
              else Some(AtMostLines(lines[start..], lim))
  {
    var start := Start(|lines|, off);
    StartIsInt(|lines|, off);
    if lim > 0 { AddWraps(start, lim); }
    hide Wrapped, IsInt;
    assert lines[start..|lines|] == lines[start..];
    if 0 < lim < |lines| - start {
      assert lines[start..][..lim] == lines[start..start + lim];
    }
  }

  /** The window is the asked lines, with one exception: a limit so large that adding it to the start
      wraps around makes the slice panic. */
  lemma WindowIsTheLinesIff(content: string, off: int, lim: int)
    requires IsInt(off) && IsInt(lim) && IsInt(|Split(content, '\n')|)
    ensures var lines := Split(content, '\n');
            var start := Start(|lines|, off);
            Window(content, off, lim) ==
              if lim <= 0 then Some(Join(lines[start..], "\n"))
              else if !IsInt(start + lim) then None
              else Some(Join(AtMostLines(lines[start..], lim), "\n"))
  {
    var lines := Split(content, '\n');
    LinesIff(lines, off, lim);
    JoinSplit(content, '\n');
    hide Split, Join, Wrapped, IsInt;
    assert lines[0..] == lines;
  }

  lemma {:induction false} BreaksSplit(n: nat)
    ensures |Split(seq(n, _ => '\n'), '\n')| == n + 1
    decreases n
  {
    var s := seq(n, _ => '\n');
    if n > 0 {
      assert s[0] == '\n' && s[1..] == seq(n - 1, _ => '\n');
      BreaksSplit(n - 1);
    }
  }

  /** Such a call: a file of 1024 line breaks, its last line, and the largest limit below 2^63 that a
      number in an argument can be. */
  lemma HugeLimitPanics()
    ensures var lim := 0x8000_0000_0000_0000 - 1024;
      IsInt(lim) && Window(seq(1024, _ => '\n'), 1024, lim) == None
  {
    BreaksSplit(1024);
    WindowIsTheLinesIff(seq(1024, _ => '\n'), 1024, 0x8000_0000_0000_0000 - 1024);
  }

  /** Consecutive windows of n lines. */
  function Pages(content: string, n: int, off: nat): seq<Option<string>>
    requires n > 0
    decreases |Split(content, '\n')| - off
  {
    if off >= |Split(content, '\n')| then [] else [Window(content, off, n)] + Pages(content, n, off + n)
  }

  function Values(pages: seq<Option<string>>): seq<string>
    requires forall p <- pages :: p.Some?
  {
    seq(|pages|, i requires 0 <= i < |pages| => pages[i].value)
  }

  lemma {:induction false} JoinAdds(a: seq<string>, b: seq<string>, sep: string)
    requires a != [] && b != []
    ensures Join(a + b, sep) == Join(a, sep) + sep + Join(b, sep)
  {
    assert (a + b)[1..] == a[1..] + b && (a + b)[0] == a[0];
    if |a| > 1 {
      JoinAdds(a[1..], b, sep);
      assert a[0] + sep + (Join(a[1..], sep) + sep + Join(b, sep))
          == a[0] + sep + Join(a[1..], sep) + sep + Join(b, sep);
    } else {
      assert a[1..] + b == b;
    }
  }

  lemma {:induction false} PagesJoin(content: string, n: int, off: nat)
    requires n > 0 && off < |Split(content, '\n')| && IsInt(|Split(content, '\n')| + n)
    ensures forall p <- Pages(content, n, off) :: p.Some?
    ensures Pages(content, n, off) != []
    ensures Join(Values(Pages(content, n, off)), "\n") == Join(Split(content, '\n')[off..], "\n")
    decreases |Split(content, '\n')| - off
  {
    hide Split, Window, IsInt, Join, Values;
    var lines := Split(content, '\n');
    WindowInside(content, off, n);
    var page, rest := Window(content, off, n), Pages(content, n, off + n);
    if off + n < |lines| {
      PagesJoin(content, n, off + n);
      FirstValue(page, rest);
      assert lines[off..] == lines[off..][..n] + lines[off + n..];
      JoinAdds(lines[off..][..n], lines[off + n..], "\n");
      JoinAdds([page.value], Values(rest), "\n");
      JoinOne(page.value);
    } else {
      assert rest == [];
      FirstValue(page, []);
      JoinOne(page.value);
    }
  }

  lemma JoinOne(s: string)
    ensures Join([s], "\n") == s
  {
  }

  /** A window that starts inside the file never wraps around here. */
  lemma WindowInside(content: string, off: int, n: int)
    requires n > 0 && 0 <= off < |Split(content, '\n')| && IsInt(|Split(content, '\n')| + n)
    ensures Window(content, off, n) == Some(Join(AtMostLines(Split(content, '\n')[off..], n), "\n"))
  {
    hide Split, Window, Join;
    var count := |Split(content, '\n')|;
    SmallerIsInt(off, count + n);
    SmallerIsInt(n, count + n);
    SmallerIsInt(count, count + n);
    SmallerIsInt(Start(count, off) + n, count + n);
    WindowIsTheLinesIff(content, off, n);
  }

  lemma SmallerIsInt(m: nat, n: nat)
    requires m <= n && IsInt(n)
    ensures IsInt(m)
  {
  }

  lemma FirstValue(p: Option<string>, rest: seq<Option<string>>)
    requires p.Some? && forall r <- rest :: r.Some?
    ensures forall r <- [p] + rest :: r.Some?
    ensures Values([p] + rest) == [p.value] + Values(rest) && |Values(rest)| == |rest|
    ensures rest == [] ==> Values([p] + rest) == [p.value]
  {
  }

  /** Reading a file window by window, n lines at a time, gives back the file. */
  lemma PagesRebuildTheFile(content: string, n: int)
    requires n > 0 && IsInt(|Split(content, '\n')| + n)
    ensures forall p <- Pages(content, n, 0) :: p.Some?
    ensures Join(Values(Pages(content, n, 0)), "\n") == content
  {
    PagesJoin(content, n, 0);
    JoinSplit(content, '\n');
    assert Split(content, '\n')[0..] == Split(content, '\n');
  }
}
