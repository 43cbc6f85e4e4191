/** Virtual paths: normalising them, printing one relative to another, and getting back
    what was printed. */
module Paths {

  // ---- splitting and joining --------------------------------------------------------------

  /** The pieces between separators; a text without separators is one piece. */
  function Split(s: string): (parts: seq<string>)
    ensures parts != []
  {
    if s == [] then [""]
    else
      var rest := Split(s[1..]);
      if s[0] == '/' then [""] + rest else [[s[0]] + rest[0]] + rest[1..]
  }

  function Join(parts: seq<string>): string {
    if parts == [] then "" else if |parts| == 1 then parts[0] else parts[0] + "/" + Join(parts[1..])
  }

  /** Every backslash made a slash. */
  function Slashed(s: string): string {
    if s == [] then "" else [if s[0] == '\\' then '/' else s[0]] + Slashed(s[1..])
  }

  lemma {:induction false} SplitConcat(a: string, b: string)
    ensures Split(a + "/" + b) == Split(a) + Split(b)
  {
    if a == [] {
      assert a + "/" + b == "/" + b;
      assert ("/" + b)[1..] == b;
    } else {
      assert (a + "/" + b)[1..] == a[1..] + "/" + b;
      SplitConcat(a[1..], b);
    }
  }

  lemma {:induction false} SplitWhole(s: string)
    requires '/' !in s
    ensures Split(s) == [s]
  {
    if s != [] {
      SplitWhole(s[1..]);
      assert s == [s[0]] + s[1..];
    }
  }

  lemma {:induction false} SplitJoin(parts: seq<string>)
    requires parts != [] && forall i :: 0 <= i < |parts| ==> '/' !in parts[i]
    ensures Split(Join(parts)) == parts
  {
    if |parts| == 1 {
      SplitWhole(parts[0]);
    } else {
      SplitConcat(parts[0], Join(parts[1..]));
      SplitWhole(parts[0]);
      SplitJoin(parts[1..]);
      assert parts == [parts[0]] + parts[1..];
    }
  }

  lemma {:induction false} PiecesWhole(s: string, c: char)
    requires c !in s
    ensures forall i :: 0 <= i < |Split(s)| ==> c !in Split(s)[i]
  {
    if s != [] { PiecesWhole(s[1..], c); }
  }

  lemma {:induction false} PiecesUnslashed(s: string)
    ensures forall i :: 0 <= i < |Split(s)| ==> '/' !in Split(s)[i]
  {
    if s != [] { PiecesUnslashed(s[1..]); }
  }

  lemma {:induction false} SlashedWhole(s: string)
    ensures '\\' !in Slashed(s)
    ensures '\\' !in s ==> Slashed(s) == s
  {
    if s != [] {
      SlashedWhole(s[1..]);
      assert s == [s[0]] + s[1..];
    }
  }

  // ---- normalising -------------------------------------------------------------------------

  /** A directory or file name, and not one of the special pieces. */
  predicate Plain(part: string) {
    part != "" && part != "." && part != ".." && '/' !in part && '\\' !in part
  }

  predicate AllPlain(parts: seq<string>) {
    forall i :: 0 <= i < |parts| ==> Plain(parts[i])
  }

  /** One piece walked from a directory given by its own pieces; going up from the root stays there. */
  function Walk(at: seq<string>, part: string): seq<string> {
    if part == "" || part == "." then at
    else if part == ".." then (if at == [] then [] else at[..|at| - 1])
    else at + [part]
  }

  function WalkAll(at: seq<string>, parts: seq<string>): seq<string>
    decreases parts
  {
    if parts == [] then at else WalkAll(Walk(at, parts[0]), parts[1..])
  }

  function Pieces(path: string): seq<string> {
    WalkAll([], Split(Slashed(path)))
  }

  function Normal(path: string): string {
    Join(Pieces(path))
  }

  lemma {:induction false} WalkConcat(at: seq<string>, a: seq<string>, b: seq<string>)
    ensures WalkAll(at, a + b) == WalkAll(WalkAll(at, a), b)
    decreases a
  {
    if a == [] {
      assert a + b == b;
    } else {
      assert (a + b)[1..] == a[1..] + b;
      WalkConcat(Walk(at, a[0]), a[1..], b);
    }
  }

  lemma {:induction false} WalkPlain(at: seq<string>, parts: seq<string>)
    requires AllPlain(parts)
    ensures WalkAll(at, parts) == at + parts
    decreases parts
  {
    if parts != [] {
      WalkPlain(at + [parts[0]], parts[1..]);
      assert parts == [parts[0]] + parts[1..];
    } else {
      assert at + parts == at;
    }
  }

  lemma {:induction false} WalkStaysPlain(at: seq<string>, parts: seq<string>)
    requires AllPlain(at) && forall i :: 0 <= i < |parts| ==> '/' !in parts[i] && '\\' !in parts[i]
    ensures AllPlain(WalkAll(at, parts))
    decreases parts
  {
    if parts != [] { WalkStaysPlain(Walk(at, parts[0]), parts[1..]); }
  }

  lemma PiecesPlain(path: string)
    ensures AllPlain(Pieces(path))
  {
    SlashedWhole(path);
    PiecesWhole(Slashed(path), '\\');
    PiecesUnslashed(Slashed(path));
    WalkStaysPlain([], Split(Slashed(path)));
  }

  lemma {:induction false} JoinPlain(parts: seq<string>)
    requires AllPlain(parts)
    ensures '\\' !in Join(parts) && (parts != [] ==> Join(parts) != "")
  {
    if |parts| > 1 { JoinPlain(parts[1..]); }
  }

  /** Splitting a normal path gives its pieces back. */
  lemma PiecesOfNormal(parts: seq<string>)
    requires AllPlain(parts)
    ensures Pieces(Join(parts)) == parts
  {
    JoinPlain(parts);
    SlashedWhole(Join(parts));
    if parts == [] {
      assert Split("") == [""];
      assert WalkAll([], [""]) == WalkAll([], []) == [];
    } else {
      SplitJoin(parts);
      WalkPlain([], parts);
    }
  }

  /** Normalising twice changes nothing. */
  lemma NormalTwice(path: string)
    ensures Normal(Normal(path)) == Normal(path)
  {
    PiecesPlain(path);
    PiecesOfNormal(Pieces(path));
  }

  method SplitPieces(s: string) returns (parts: seq<string>)
    ensures parts == Split(s)
  {
    parts := [""];
    var i := |s|;
    while i > 0
      invariant 0 <= i <= |s| && parts == Split(s[i..])
    {
      i := i - 1;
      assert s[i..][1..] == s[i + 1..];
      parts := if s[i] == '/' then [""] + parts else [[s[i]] + parts[0]] + parts[1..];
    }
    assert s[0..] == s;
  }

  method NormalizeVirtualPath(value: string) returns (path: string)
    ensures path == Normal(value)
  {
    var split := SplitPieces(Slashed(value));
    var parts := [];
    for i := 0 to |split|
      invariant WalkAll([], split) == WalkAll(parts, split[i..])
    {
      var part := split[i];
      assert split[i..][1..] == split[i + 1..];
      if part == "" || part == "." {
      } else if part == ".." {
        if parts != [] {
          parts := parts[..|parts| - 1];
        }
      } else {
        parts := parts + [part];
      }
    }
    path := Join(parts);
  }

  // ---- relative specifiers -------------------------------------------------------------------

  /** What stands before the last separator, nothing if there is none. */
  function Dirname(file: string): string {
    if '/' !in file then ""
    else if file[|file| - 1] == '/' then file[..|file| - 1]
    else Dirname(file[..|file| - 1])
  }

  function Common(a: seq<string>, b: seq<string>): (n: nat)
    ensures n <= |a| && n <= |b| && a[..n] == b[..n]
  {
    if a != [] && b != [] && a[0] == b[0] then 1 + Common(a[1..], b[1..]) else 0
  }

  function Ups(n: nat): seq<string> {
    if n == 0 then [] else [".."] + Ups(n - 1)
  }

  /** The pieces of the way from one directory to a file: up to where they part, then down. */
  function Way(dir: seq<string>, to: seq<string>): seq<string> {
    Ups(|dir| - Common(dir, to)) + to[Common(dir, to)..]
  }

  function Dotted(joined: string): string {
    if joined != "" && joined[0] == '.' then joined else "./" + joined
  }

  function DirPieces(file: string): seq<string> {
    if Dirname(file) == "" then [] else Split(Dirname(file))
  }

  function Relative(from: string, to: string): string {
    Dotted(Join(Way(DirPieces(from), Pieces(to))))
  }

  method CommonLength(a: seq<string>, b: seq<string>) returns (n: nat)
    ensures n == Common(a, b)
  {
    n := 0;
    while n < |a| && n < |b| && a[n] == b[n]
      invariant n <= |a| && n <= |b| && Common(a, b) == n + Common(a[n..], b[n..])
    {
      assert a[n..][1..] == a[n + 1..] && b[n..][1..] == b[n + 1..];
      n := n + 1;
    }
  }

  method RelativeImportSpecifier(from: string, to: string) returns (specifier: string)
    ensures specifier == Relative(from, to)
  {
    hide Dirname, Split, Join, Normal, Pieces, Common, NonEmpty;
    var fromDir := Dirname(from);
    var fromParts := [];
    if fromDir != "" {
      fromParts := SplitPieces(fromDir);
    }
    var target := NormalizeVirtualPath(to);
    var toParts := NonEmptyPieces(target);
    PiecesPlain(to);
    NonEmptyOfNormal(Pieces(to));
    assert toParts == Pieces(to) by { NormalIs(to); }
    var common := CommonLength(fromParts, toParts);
    var rel := [];
    for i := common to |fromParts|
      invariant rel == Ups(i - common)
    {
      UpsNext(i - common);
      rel := rel + [".."];
    }
    rel := rel + toParts[common..];
    var joined := Join(rel);
    specifier := if joined != "" && joined[0] == '.' then joined else "./" + joined;
  }

  lemma NormalIs(path: string)
    ensures Normal(path) == Join(Pieces(path))
  {
  }

  lemma {:induction false} UpsNext(n: nat)
    ensures Ups(n + 1) == Ups(n) + [".."]
  {
    if n > 0 { UpsNext(n - 1); }
  }

  function NonEmpty(parts: seq<string>): seq<string> {
    if parts == [] then [] else (if parts[0] == "" then [] else [parts[0]]) + NonEmpty(parts[1..])
  }

  method NonEmptyPieces(path: string) returns (parts: seq<string>)
    ensures parts == NonEmpty(Split(path))
  {
    hide NonEmpty, Split;
    var split := SplitPieces(path);
    parts := [];
    assert split[0..] == split;
    for i := 0 to |split|
      invariant NonEmpty(split) == parts + NonEmpty(split[i..])
    {
      NonEmptyFrom(split, i);
      if split[i] != "" {
        parts := parts + [split[i]];
      }
    }
    NonEmptyEnd(split);
  }

  lemma NonEmptyFrom(split: seq<string>, i: nat)
    requires i < |split|
    ensures NonEmpty(split[i..]) == (if split[i] == "" then [] else [split[i]]) + NonEmpty(split[i + 1..])
  {
    assert split[i..][1..] == split[i + 1..];
  }

  lemma NonEmptyEnd(split: seq<string>)
    ensures NonEmpty(split[|split|..]) == []
  {
  }

  lemma NonEmptyOfNormal(parts: seq<string>)
    requires AllPlain(parts)
    ensures NonEmpty(Split(Join(parts))) == parts
  {
    if parts == [] {
      assert Split("") == [""] && [""][1..] == [];
    } else {
      SplitJoin(parts);
      NothingEmpty(parts);
    }
  }

  lemma {:induction false} NothingEmpty(parts: seq<string>)
    requires AllPlain(parts)
    ensures NonEmpty(parts) == parts
  {
    if parts != [] {
      NothingEmpty(parts[1..]);
      assert parts == [parts[0]] + parts[1..];
    }
  }

  // ---- the round trip ------------------------------------------------------------------------

  lemma {:induction false} DirnameTail(a: string, b: string)
    requires '/' !in b
    ensures Dirname(a + "/" + b) == a
    decreases |b|
  {
    var s := a + "/" + b;
    assert s[|a|] == '/';
    if b == [] {
      assert s[..|s| - 1] == a;
    } else {
      assert s[..|s| - 1] == a + "/" + b[..|b| - 1];
      DirnameTail(a, b[..|b| - 1]);
    }
  }

  lemma {:induction false} JoinLast(parts: seq<string>)
    requires |parts| > 1
    ensures Join(parts) == Join(parts[..|parts| - 1]) + "/" + parts[|parts| - 1]
  {
    var n := |parts| - 1;
    if n > 1 {
      JoinLast(parts[1..]);
      assert parts[1..][..n - 1] == parts[..n][1..];
    } else {
      assert parts[..1] == [parts[0]] && parts[1..] == [parts[1]];
    }
  }

  /** The directory of a normal path has its pieces but the last. */
  lemma DirOfNormal(parts: seq<string>)
    requires AllPlain(parts)
    ensures var dir := if parts == [] then [] else parts[..|parts| - 1];
            Dirname(Join(parts)) == Join(dir) && DirPieces(Join(parts)) == dir
  {
    var dir := if parts == [] then [] else parts[..|parts| - 1];
    if |parts| > 1 {
      JoinLast(parts);
      DirnameTail(Join(dir), parts[|parts| - 1]);
      JoinPlain(dir);
      SplitJoin(dir);
    }
  }

  lemma {:induction false} WalkUps(at: seq<string>, n: nat)
    requires n <= |at|
    ensures WalkAll(at, Ups(n)) == at[..|at| - n]
    decreases n
  {
    if n > 0 {
      assert Ups(n)[1..] == Ups(n - 1);
      WalkUps(at[..|at| - 1], n - 1);
    }
  }

  /** Walking the way from a directory to a file ends at the file. */
  lemma WalkWay(dir: seq<string>, to: seq<string>)
    requires AllPlain(to)
    ensures WalkAll(dir, Way(dir, to)) == to
  {
    var n := Common(dir, to);
    WalkConcat(dir, Ups(|dir| - n), to[n..]);
    WalkUps(dir, |dir| - n);
    WalkPlain(dir[..n], to[n..]);
    assert to == to[..n] + to[n..];
  }

  lemma {:induction false} UpsUnslashed(n: nat, i: nat)
    requires i < |Ups(n)|
    ensures Ups(n)[i] == ".."
  {
    if i > 0 { UpsUnslashed(n - 1, i - 1); }
  }

  lemma {:induction false} JoinKeeps(parts: seq<string>, c: char)
    requires c != '/' && forall i :: 0 <= i < |parts| ==> c !in parts[i]
    ensures c !in Join(parts)
  {
    if |parts| > 1 { JoinKeeps(parts[1..], c); }
  }

  /** Walking the printed specifier is walking the way it was printed from. */
  lemma WalkDotted(at: seq<string>, way: seq<string>)
    requires forall i :: 0 <= i < |way| ==> '/' !in way[i]
    ensures WalkAll(at, Split(Dotted(Join(way)))) == WalkAll(at, way)
  {
    var joined := Join(way);
    if way == [] {
      assert Split("") == [""];
      assert WalkAll(at, [""]) == WalkAll(at, []);
    } else {
      SplitJoin(way);
    }
    assert WalkAll(at, Split(joined)) == WalkAll(at, way);
    if Dotted(joined) != joined {
      assert "./" + joined == "." + "/" + joined;
      SplitConcat(".", joined);
      SplitWhole(".");
      WalkConcat(at, ["."], Split(joined));
      assert WalkAll(at, ["."]) == WalkAll(at, []);
    }
  }

  lemma WayPieces(dir: seq<string>, to: seq<string>)
    requires AllPlain(to)
    ensures forall i :: 0 <= i < |Way(dir, to)| ==> '/' !in Way(dir, to)[i] && '\\' !in Way(dir, to)[i]
  {
    var up := Ups(|dir| - Common(dir, to));
    forall i | 0 <= i < |Way(dir, to)| ensures '/' !in Way(dir, to)[i] && '\\' !in Way(dir, to)[i] {
      if i < |up| { UpsUnslashed(|dir| - Common(dir, to), i); }
    }
  }

  /** Resolving the specifier printed for a file against the importing file's directory
      gives that file back, for every normal importing file and any target. */
  lemma RelativeRoundTrip(from: string, to: string)
    requires Normal(from) == from
    ensures Normal(Dirname(from) + "/" + Relative(from, to)) == Normal(to)
  {
    PiecesPlain(from);
    PiecesPlain(to);
    DirOfNormal(Pieces(from));
    var dir := DirPieces(from);
    var way := Way(dir, Pieces(to));
    assert AllPlain(dir);
    WayPieces(dir, Pieces(to));
    ResolveWay(dir, way);
    WalkWay(dir, Pieces(to));
  }

  lemma ResolveWay(dir: seq<string>, way: seq<string>)
    requires AllPlain(dir) && forall i :: 0 <= i < |way| ==> '/' !in way[i] && '\\' !in way[i]
    ensures Pieces(Join(dir) + "/" + Dotted(Join(way))) == WalkAll(dir, way)
  {
    var spec := Dotted(Join(way));
    JoinKeeps(way, '\\');
    JoinPlain(dir);
    SlashedWhole(Join(dir) + "/" + spec);
    SplitConcat(Join(dir), spec);
    WalkConcat([], Split(Join(dir)), Split(spec));
    PiecesOfNormal(dir);
    SlashedWhole(Join(dir));
    WalkDotted(dir, way);
  }

  // ---- what normalising and the specifier are, without walking ------------------------------------

  /** A backslash is a separator like a slash; nothing else changes. */
  lemma {:induction false} SlashedEach(s: string)
    ensures |Slashed(s)| == |s|
    ensures forall i :: 0 <= i < |s| ==> Slashed(s)[i] == if s[i] == '\\' then '/' else s[i]
  {
    if s != [] { SlashedEach(s[1..]); }
  }

  lemma JoinHead(c: char, rest: seq<string>)
    requires rest != []
    ensures Join([[c] + rest[0]] + rest[1..]) == [c] + Join(rest)
  {
    var parts := [[c] + rest[0]] + rest[1..];
    assert parts[1..] == rest[1..];
    if |rest| > 1 { assert [c] + rest[0] + "/" + Join(rest[1..]) == [c] + (rest[0] + "/" + Join(rest[1..])); }
  }

  lemma JoinEmptyHead(rest: seq<string>)
    requires rest != []
    ensures Join([""] + rest) == "/" + Join(rest)
  {
    assert ([""] + rest)[1..] == rest;
    assert "" + "/" == "/";
  }

  /** The pieces make up the text again, with a separator between any two. */
  lemma {:induction false} JoinSplit(s: string)
    ensures Join(Split(s)) == s
  {
    hide Join;
    if s == [] {
      JoinOne("");
    } else {
      JoinSplit(s[1..]);
      if s[0] == '/' { JoinEmptyHead(Split(s[1..])); } else { JoinHead(s[0], Split(s[1..])); }
      assert s == [s[0]] + s[1..];
    }
  }

  lemma JoinOne(part: string)
    ensures Join([part]) == part
  {
  }

  /** The laws that make a path normal: empty pieces and dots go, a name goes with the two dots
      after it, two dots at the root go, and what is then left stays as it is. */
  lemma NormalLaws(a: seq<string>, name: string, b: seq<string>)
    requires Plain(name)
    ensures WalkAll([], a + [""] + b) == WalkAll([], a + ["."] + b) == WalkAll([], a + b)
    ensures WalkAll([], a + [name, ".."] + b) == WalkAll([], a + b)
    ensures WalkAll([], [".."] + b) == WalkAll([], b)
    ensures AllPlain(a) ==> WalkAll([], a) == a
  {
    var at := WalkAll([], a);
    forall x | x in ["", "."] ensures WalkAll([], a + [x] + b) == WalkAll([], a + b) {
      WalkConcat([], a + [x], b);
      WalkConcat([], a, [x]);
      assert [x][1..] == [];
      assert WalkAll(at, [x]) == WalkAll(Walk(at, x), []);
      WalkConcat([], a, b);
    }
    assert "" in ["", "."] && "." in ["", "."];
    WalkConcat([], a + [name, ".."], b);
    WalkConcat([], a, [name, ".."]);
    assert [name, ".."][1..] == [".."] && [".."][1..] == [];
    assert Walk(at, name) == at + [name] && Walk(at + [name], "..") == at;
    assert WalkAll(at, [name, ".."]) == WalkAll(at + [name], [".."]) == WalkAll(at, []);
    WalkConcat([], a, b);
    assert ([".."] + b)[1..] == b;
    if AllPlain(a) { WalkPlain([], a); }
  }

  function UpsIn(parts: seq<string>): nat {
    if parts == [] then 0 else (if parts[0] == ".." then 1 else 0) + UpsIn(parts[1..])
  }

  /** However one walks from a directory, what is not left by going up is still there. */
  lemma {:induction false} WalkKeeps(at: seq<string>, parts: seq<string>, k: nat)
    requires k + UpsIn(parts) <= |at|
    ensures k <= |WalkAll(at, parts)| && WalkAll(at, parts)[..k] == at[..k]
    decreases parts
  {
    if parts != [] {
      var next := Walk(at, parts[0]);
      assert next[..k] == at[..k];
      WalkKeeps(next, parts[1..], k);
    }
  }

  lemma {:induction false} CommonMost(a: seq<string>, b: seq<string>, k: nat)
    requires k <= |a| && k <= |b| && a[..k] == b[..k]
    ensures Common(a, b) >= k
  {
    if k > 0 {
      assert a[0] == a[..k][0] == b[..k][0] == b[0];
      assert a[1..][..k - 1] == a[..k][1..] && b[1..][..k - 1] == b[..k][1..];
      CommonMost(a[1..], b[1..], k - 1);
    }
  }

  lemma {:induction false} UpsInConcat(a: seq<string>, b: seq<string>)
    ensures UpsIn(a + b) == UpsIn(a) + UpsIn(b)
    decreases a
  {
    if a == [] {
      assert a + b == b;
    } else {
      assert (a + b)[1..] == a[1..] + b;
      UpsInConcat(a[1..], b);
    }
  }

  lemma {:induction false} UpsInUps(n: nat)
    ensures UpsIn(Ups(n)) == n
  {
    if n > 0 {
      assert Ups(n)[1..] == Ups(n - 1);
      UpsInUps(n - 1);
    }
  }

  lemma {:induction false} NoUpsInPlain(parts: seq<string>)
    requires AllPlain(parts)
    ensures UpsIn(parts) == 0
    decreases parts
  {
    if parts != [] { NoUpsInPlain(parts[1..]); }
  }

  /** No list of pieces that leads from the directory to the file goes up less often than the
      way that is printed. */
  lemma FewestUps(dir: seq<string>, to: seq<string>, parts: seq<string>)
    requires AllPlain(to) && WalkAll(dir, parts) == to
    ensures UpsIn(Way(dir, to)) <= UpsIn(parts)
  {
    hide WalkAll, Walk, Plain, UpsIn;
    var n := Common(dir, to);
    UpsInConcat(Ups(|dir| - n), to[n..]);
    UpsInUps(|dir| - n);
    NoUpsInPlain(to[n..]);
    if UpsIn(parts) < |dir| {
      var k := |dir| - UpsIn(parts);
      WalkKeeps(dir, parts, k);
      CommonMost(dir, to, k);
    }
  }

  /** Two dots, or something after one or two dots and a slash. */
  predicate IsRelative(spec: string) { spec == ".." || "./" <= spec || "../" <= spec }

  lemma {:induction false} JoinFirst(parts: seq<string>)
    requires parts != []
    ensures parts[0] <= Join(parts) && (|parts| > 1 ==> parts[0] + "/" <= Join(parts))
  {
    if |parts| > 1 { assert Join(parts) == parts[0] + "/" + Join(parts[1..]); }
  }

  /** Every specifier begins with a dot, and is relative unless it goes straight down to a name
      that begins with one. */
  lemma SpecifierRelative(from: string, to: string)
    ensures var dir, target := DirPieces(from), Pieces(to);
            var n := Common(dir, target);
            var spec := Relative(from, to);
            && spec != "" && spec[0] == '.'
            && (IsRelative(spec) <==> !(n == |dir| && n < |target| && "." <= target[n]))
  {
    hide Pieces, DirPieces;
    var dir, target := DirPieces(from), Pieces(to);
    PiecesPlain(to);
    var n := Common(dir, target);
    var way := Way(dir, target);
    if n < |dir| {
      assert way[0] == "..";
      JoinFirst(way);
      if |way| == 1 { assert Join(way) == ".."; }
    } else if n < |target| {
      assert way == target[n..] && way[0] == target[n];
      assert Plain(target[n]);
      JoinFirst(way);
      DotName(target[n], Join(way));
    } else {
      assert way == [];
    }
  }

  lemma DotName(name: string, joined: string)
    requires Plain(name) && name <= joined && (joined == name || name + "/" <= joined)
    ensures name[0] == '.' ==> !IsRelative(joined)
    ensures joined != "" && joined[0] == name[0]
  {
    if name[0] == '.' {
      assert |name| > 1;
      assert joined[1] == name[1];
      if name[1] == '.' { assert |name| > 2 && joined[2] == name[2] != '/'; }
    }
  }

  /** A file beside the importing one whose name begins with a dot is printed as it is, which
      is not a relative specifier. */
  lemma HiddenFile()
    ensures Relative("a.js", ".b.js") == ".b.js" && !IsRelative(".b.js")
  {
    hide Split, Slashed, Dirname, WalkAll, Walk;
    var to := ".b.js";
    SlashedWhole(to);
    SplitWhole(to);
    assert Plain(to) && Pieces(to) == WalkAll([], [to]);
    WalkPlain([], [to]);
    DirnameOfPlain("a.js");
    assert Common([], [to]) == 0 && Ups(0) == [];
    assert Way([], [to]) == [to];
    assert to[1] == 'b' && "./"[1] == '/' && "../"[1] == '.' && ".."[1] == '.';
  }

  lemma {:induction false} DirnameOfPlain(s: string)
    requires '/' !in s
    ensures Dirname(s) == ""
  {
  }
}
