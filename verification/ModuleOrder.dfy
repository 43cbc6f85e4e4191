/** The order in which a project's modules are bundled: imports first, depth first,
    whatever cycles there are. */
module ModuleOrder {

  /** Every source file, with the files its imports resolve to, in source order. */
  type Graph = map<string, seq<string>>

  /** A chain of imports from its first file to its last. */
  predicate Chain(g: Graph, path: seq<string>) {
    path != [] && forall i :: 0 <= i < |path| - 1 ==> path[i] in g && path[i + 1] in g[path[i]]
  }

  /** `b` is `a`, or is imported by it, directly or through other files. */
  ghost predicate Reaches(g: Graph, a: string, b: string) {
    exists path :: Chain(g, path) && path[0] == a && path[|path| - 1] == b
  }

  lemma ReachesItself(g: Graph, a: string)
    ensures Reaches(g, a, a)
  {
    assert Chain(g, [a]);
  }

  lemma ReachesFurther(g: Graph, a: string, b: string, c: string)
    requires Reaches(g, a, b) && b in g && c in g[b]
    ensures Reaches(g, a, c)
  {
    var path :| Chain(g, path) && path[0] == a && path[|path| - 1] == b;
    assert Chain(g, path + [c]);
    assert (path + [c])[|path|] == c && (path + [c])[0] == a;
  }

  predicate Distinct(s: seq<string>) {
    forall i, j :: 0 <= i < j < |s| ==> s[i] != s[j]
  }

  function Files(s: seq<string>): set<string> {
    set f | f in s
  }

  /** `b` stands before position `i`. */
  predicate Before(s: seq<string>, b: string, i: nat)
    requires i <= |s|
  {
    b in s[..i]
  }

  /** Every import of a listed file that is a source itself is listed before it, unless
      the two are on a cycle. */
  ghost predicate ImportsFirst(g: Graph, s: seq<string>) {
    forall i, b :: 0 <= i < |s| && s[i] in g && b in g[s[i]] && b in g ==> Before(s, b, i) || Reaches(g, b, s[i])
  }

  /** One of the first `n` roots leads to `f`. */
  ghost predicate Led(g: Graph, roots: seq<string>, n: nat, f: string) {
    exists k :: 0 <= k < n && k < |roots| && Reaches(g, roots[k], f)
  }

  /** The roots are taken in their order: a file that comes before root `i` in the list is
      led to by one of the roots up to `i`. In particular a later root comes first only if an
      earlier one leads to it. */
  ghost predicate InTurn(g: Graph, roots: seq<string>, added: seq<string>) {
    forall i, x, y :: 0 <= i < |roots| && 0 <= y < x < |added| && added[x] == roots[i] ==>
      Led(g, roots, i + 1, added[y])
  }

  class Visitor {
    var seen: set<string>
    var visiting: set<string>
    var ordered: seq<string>

    constructor ()
      ensures seen == {} && visiting == {} && ordered == []
    {
      seen, visiting, ordered := {}, {}, [];
    }

    ghost predicate Valid(g: Graph)
      reads this
    {
      && Distinct(ordered) && Files(ordered) == seen && seen !! visiting && seen <= g.Keys && visiting <= g.Keys
      && ImportsFirst(g, ordered)
    }

    /** Lists the file after everything it imports that is not being visited already. What
        the visit adds can be reached from the file, and the file's imports take their turns
        in it. */
    method VisitFile(g: Graph, file: string)
      requires Valid(g) && forall v :: v in visiting ==> Reaches(g, v, file)
      modifies this
      ensures Valid(g) && visiting == old(visiting) && old(seen) <= seen && old(ordered) <= ordered
      ensures file in g && file !in visiting ==> file in seen
      ensures forall f :: f in ordered[|old(ordered)|..] ==> Reaches(g, file, f)
      ensures file in g ==> InTurn(g, g[file], ordered[|old(ordered)|..])
      decreases g.Keys - visiting - seen
    {
      hide Led, Reaches;
      if file in seen || file in visiting {
        return;
      }
      if file !in g {
        return;
      }
      visiting := visiting + {file};
      ReachesItself(g, file);
      var imports := g[file];
      var i := 0;
      ghost var marks: seq<nat> := [|ordered|];
      while i < |imports|
        invariant 0 <= i <= |imports| && Valid(g) && visiting == old(visiting) + {file}
        invariant old(seen) <= seen && old(ordered) <= ordered
        invariant forall k :: 0 <= k < i && imports[k] in g ==> imports[k] in seen || imports[k] in visiting
        invariant Marked(g, imports, i, visiting, |old(ordered)|, ordered, marks)
      {
        forall v | v in visiting ensures Reaches(g, v, imports[i]) { ReachesFurther(g, v, file, imports[i]); }
        assert file in old(g.Keys - visiting - seen) && file !in g.Keys - visiting - seen;
        ghost var before := ordered;
        VisitFile(g, imports[i]);
        MarkedOne(g, imports, i, visiting, |old(ordered)|, before, ordered, marks);
        marks := marks + [|ordered|];
        i := i + 1;
      }
      visiting := visiting - {file};
      seen := seen + {file};
      ListedLast(g, ordered, file);
      VisitEnds(g, file, old(visiting), |old(ordered)|, ordered, marks);
      ordered := ordered + [file];
    }
  }

  /** What has been listed since the start, root by root: `marks[k]` is the length of the list
      before root `k` was taken. */
  ghost predicate Marked(g: Graph, roots: seq<string>, n: nat, visiting: set<string>, start: nat, ordered: seq<string>,
                         marks: seq<nat>) {
    && n <= |roots| && |marks| == n + 1 && marks[0] == start && marks[n] == |ordered|
    && (forall j, k :: 0 <= j <= k <= n ==> marks[j] <= marks[k])
    && (forall k, y :: 1 <= k <= n && start <= y < marks[k] ==> Led(g, roots, k, ordered[y]))
    && (forall k :: 0 <= k < n && roots[k] in g ==> roots[k] in ordered[..marks[k + 1]] || roots[k] in visiting)
  }

  lemma MarkedOne(g: Graph, roots: seq<string>, n: nat, visiting: set<string>, start: nat, before: seq<string>,
                  ordered: seq<string>, marks: seq<nat>)
    requires Marked(g, roots, n, visiting, start, before, marks) && n < |roots| && before <= ordered
    requires forall f :: f in ordered[|before|..] ==> Reaches(g, roots[n], f)
    requires roots[n] in g ==> roots[n] in ordered || roots[n] in visiting
    ensures Marked(g, roots, n + 1, visiting, start, ordered, marks + [|ordered|])
  {
    var more := marks + [|ordered|];
    forall k, y | 1 <= k <= n + 1 && start <= y < more[k] ensures Led(g, roots, k, ordered[y]) {
      if y >= |before| {
        assert ordered[|before|..][y - |before|] == ordered[y];
      } else if k == n + 1 {
        assert Led(g, roots, n, before[y]);
      } else {
        assert Led(g, roots, k, before[y]);
      }
    }
    forall k | 0 <= k < n + 1 && roots[k] in g ensures roots[k] in ordered[..more[k + 1]] || roots[k] in visiting {
      if k < n {
        assert ordered[..more[k + 1]] == before[..more[k + 1]];
      } else {
        assert ordered[..|ordered|] == ordered;
      }
    }
  }

  lemma NoneMarked(g: Graph, roots: seq<string>)
    ensures Marked(g, roots, 0, {}, 0, [], [0])
  {
  }

  /** Marks show that the roots took their turns. */
  lemma MarkedInTurn(g: Graph, roots: seq<string>, visiting: set<string>, start: nat, ordered: seq<string>,
                     marks: seq<nat>)
    requires Marked(g, roots, |roots|, visiting, start, ordered, marks) && Distinct(ordered)
    requires Files(ordered) <= g.Keys && Files(ordered) !! visiting
    ensures InTurn(g, roots, ordered[start..])
    ensures forall y :: start <= y < |ordered| ==> Led(g, roots, |roots|, ordered[y])
  {
    var added := ordered[start..];
    forall i, x, y | 0 <= i < |roots| && 0 <= y < x < |added| && added[x] == roots[i]
      ensures Led(g, roots, i + 1, added[y])
    {
      assert ordered[start + x] == roots[i] && roots[i] in Files(ordered);
      var z :| 0 <= z < marks[i + 1] && ordered[..marks[i + 1]][z] == roots[i];
      assert ordered[z] == ordered[start + x];
      assert added[y] == ordered[start + y];
      assert Led(g, roots, i + 1, ordered[start + y]);
    }
    forall y | start <= y < |ordered| ensures Led(g, roots, |roots|, ordered[y]) {
      assert y < marks[|roots|];
    }
  }

  lemma VisitEnds(g: Graph, file: string, visiting: set<string>, start: nat, ordered: seq<string>, marks: seq<nat>)
    requires file in g && Marked(g, g[file], |g[file]|, visiting + {file}, start, ordered, marks) && Distinct(ordered)
    requires Files(ordered) <= g.Keys && Files(ordered) !! visiting + {file} && start <= |ordered|
    ensures var more := ordered + [file];
            InTurn(g, g[file], more[start..]) && forall f :: f in more[start..] ==> Reaches(g, file, f)
  {
    var imports := g[file];
    MarkedInTurn(g, imports, visiting + {file}, start, ordered, marks);
    ReachesItself(g, file);
    var more := (ordered + [file])[start..];
    assert more == ordered[start..] + [file];
    forall y | 0 <= y < |more| - 1 ensures Led(g, imports, |imports|, more[y]) && Reaches(g, file, more[y]) {
      assert more[y] == ordered[start + y];
      var k :| 0 <= k < |imports| && Reaches(g, imports[k], more[y]);
      ImportLeads(g, file, imports[k], more[y]);
    }
    forall i, x, y | 0 <= i < |imports| && 0 <= y < x < |more| && more[x] == imports[i]
      ensures Led(g, imports, i + 1, more[y])
    {
      if x < |more| - 1 {
        assert ordered[start..][x] == imports[i] && ordered[start..][y] == more[y];
      } else {
        assert imports[i] == file && Reaches(g, imports[i], more[y]);
      }
    }
  }

  lemma ImportLeads(g: Graph, a: string, b: string, c: string)
    requires a in g && b in g[a] && Reaches(g, b, c)
    ensures Reaches(g, a, c)
  {
    var path :| Chain(g, path) && path[0] == b && path[|path| - 1] == c;
    var longer := [a] + path;
    forall i | 0 <= i < |longer| - 1 ensures longer[i] in g && longer[i + 1] in g[longer[i]] {
      if i > 0 { assert longer[i] == path[i - 1] && longer[i + 1] == path[i]; }
    }
    assert Chain(g, longer) && longer[0] == a && longer[|longer| - 1] == c;
  }

  lemma ListedLast(g: Graph, s: seq<string>, file: string)
    requires ImportsFirst(g, s) && file in g
    requires forall b :: b in g[file] && b in g ==> b in s || Reaches(g, b, file)
    ensures ImportsFirst(g, s + [file])
  {
    var t := s + [file];
    forall i, b | 0 <= i < |t| && t[i] in g && b in g[t[i]] && b in g ensures Before(t, b, i) || Reaches(g, b, t[i]) {
      if i < |s| {
        assert t[..i] == s[..i] && t[i] == s[i];
      } else {
        assert t[..i] == s;
      }
    }
  }

  /** The entry's files first, then the rest in the order of their names; the entry and the
      names take their turns. */
  method OrderedFiles(g: Graph, entry: string, names: seq<string>) returns (ordered: seq<string>)
    requires Files(names) == g.Keys
    ensures Distinct(ordered) && Files(ordered) == g.Keys
    ensures ImportsFirst(g, ordered) && InTurn(g, [entry] + names, ordered)
  {
    hide Reaches, Led, InTurn, Marked;
    var v := new Visitor();
    ghost var roots := [entry] + names;
    v.VisitFile(g, entry);
    ghost var marks: seq<nat> := [0] + [|v.ordered|];
    NoneMarked(g, roots);
    MarkedOne(g, roots, 0, {}, 0, [], v.ordered, [0]);
    for i := 0 to |names|
      invariant v.Valid(g) && v.visiting == {}
      invariant forall k :: 0 <= k < i ==> names[k] in v.seen
      invariant Marked(g, roots, i + 1, {}, 0, v.ordered, marks)
    {
      assert names[i] in Files(names) && roots[i + 1] == names[i];
      ghost var before := v.ordered;
      v.VisitFile(g, names[i]);
      MarkedOne(g, roots, i + 1, {}, 0, before, v.ordered, marks);
      marks := marks + [|v.ordered|];
    }
    forall f | f in g ensures f in v.seen {
      assert f in Files(names);
    }
    MarkedInTurn(g, roots, {}, 0, v.ordered, marks);
    assert v.ordered[0..] == v.ordered;
    ordered := v.ordered;
  }

  /** What comes before the entry, the entry leads to. */
  lemma BeforeEntry(g: Graph, entry: string, names: seq<string>, ordered: seq<string>, x: nat, y: nat)
    requires InTurn(g, [entry] + names, ordered) && y < x < |ordered| && ordered[x] == entry
    ensures Reaches(g, entry, ordered[y])
  {
    var roots := [entry] + names;
    assert ordered[x] == roots[0];
    assert Led(g, roots, 0 + 1, ordered[y]);
  }

  /** An import that stands later in its file comes first only where an earlier one, or one at
      its own place, leads to it. */
  lemma ImportsInTurn(g: Graph, file: string, added: seq<string>, i: nat, j: nat, x: nat, y: nat)
    requires file in g && InTurn(g, g[file], added) && i < j < |g[file]| && y < x < |added|
    requires added[x] == g[file][i] && added[y] == g[file][j]
    ensures exists k :: 0 <= k <= i && Reaches(g, g[file][k], g[file][j])
  {
    assert Led(g, g[file], i + 1, added[y]);
    var k :| 0 <= k < i + 1 && k < |g[file]| && Reaches(g, g[file][k], added[y]);
  }

  /** Where two files cannot reach each other both ways, the imported one comes first. */
  lemma AcyclicImportFirst(g: Graph, s: seq<string>, i: nat, b: string)
    requires ImportsFirst(g, s) && i < |s| && s[i] in g && b in g[s[i]] && b in g && !Reaches(g, b, s[i])
    ensures exists j :: 0 <= j < i && s[j] == b
  {
    assert Before(s, b, i);
    var j :| 0 <= j < |s[..i]| && s[..i][j] == b;
  }

  /** The same list, the entry alone moved to its end. */
  method RuntimeExecutionOrder(g: Graph, entry: string, names: seq<string>) returns (ordered: seq<string>)
    requires Files(names) == g.Keys
    ensures Distinct(ordered) && Files(ordered) == g.Keys
    ensures exists s :: Distinct(s) && Files(s) == g.Keys && ImportsFirst(g, s) && InTurn(g, [entry] + names, s)
                     && EntryMoved(s, entry, ordered)
  {
    hide ImportsFirst, InTurn;
    var s := OrderedFiles(g, entry, names);
    ordered := s;
    var index := 0;
    while index < |s| && s[index] != entry
      invariant 0 <= index <= |s| && entry !in s[..index]
    {
      index := index + 1;
    }
    if index < |s| {
      ordered := s[..index] + s[index + 1..] + [entry];
      Removed(s, entry, index);
    } else {
      assert s[..index] == s;
    }
  }

  predicate EntryMoved(s: seq<string>, entry: string, t: seq<string>) {
    if entry in s then exists i :: 0 <= i < |s| && s[i] == entry && t == s[..i] + s[i + 1..] + [entry] else t == s
  }

  lemma Removed(s: seq<string>, entry: string, index: nat)
    requires Distinct(s) && index < |s| && s[index] == entry
    ensures var t := s[..index] + s[index + 1..] + [entry]; Distinct(t) && Files(t) == Files(s)
  {
    var t := s[..index] + s[index + 1..] + [entry];
    forall f | f in s ensures f in t {
      var k :| 0 <= k < |s| && s[k] == f;
      assert t[if k < index then k else if k == index then |s| - 1 else k - 1] == f;
    }
  }
}
