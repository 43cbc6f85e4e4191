/** The first pass as a whole: a lowered function body ends as its source does, with the
    same outcome and world, and runs for ever exactly when its source does. */
module FunctionMeaning {
  import opened Syntax
  import opened Semantics
  import opened Ir
  import opened Lower
  import opened Machine
  import opened StmtSimulation
  import opened LabelUniqueness
  import opened ScopedJumps

  /** No early errors: every `break` and `continue` has a target, a `switch` one default at
      most; and no `try`. */
  predicate Legal(body: seq<Stmt>) { ListWellFormed(body, Jumps({}, {})) }

  /** The flat code of a function body, lowered in a context of its own. */
  predicate Compiled(p: Program, q: seq<nat>, body: seq<Stmt>) {
    p.m.base > 0 && p.ops == Linear(LowerList(q, [], body, Ids(0, 0, 0)).code)
  }

  lemma {:induction false} SingleOf(s: Stmt, labels: seq<string>, j: Jumps)
    requires WellFormed(s, labels, j)
    ensures SingleDefaults(s)
    decreases s, 1
  {
    match s
    case Block(body) => ListSingleOf(body, j);
    case If(_, c, alt) =>
      SingleOf(c, [], j);
      if alt.Some? { SingleOf(alt.value, [], j); }
    case While(_, body) => SingleOf(body, [], InLoop(j, labels));
    case DoWhile(body, _) => SingleOf(body, [], InLoop(j, labels));
    case For(_, _, _, body) => SingleOf(body, [], InLoop(j, labels));
    case Switch(_, cases) => CasesSingleOf(cases, InSwitch(j, labels));
    case Labeled(l, body) =>
      if IsControlTarget(body) { SingleOf(body, labels + [l], j); }
      else { SingleOf(body, [], j.(breaks := j.breaks + {Some(l)})); }
    case _ =>
  }

  lemma {:induction false} ListSingleOf(ss: seq<Stmt>, j: Jumps)
    requires ListWellFormed(ss, j)
    ensures ListSingle(ss)
    decreases ss, 0
  {
    if ss != [] {
      SingleOf(ss[0], [], j);
      ListSingleOf(ss[1..], j);
    }
  }

  lemma {:induction false} CasesSingleOf(cases: seq<Case>, j: Jumps)
    requires CasesWellFormed(cases, j)
    ensures CasesSingle(cases)
    decreases cases, 0
  {
    if cases != [] {
      ListSingleOf(cases[0].body, j);
      CasesSingleOf(cases[1..], j);
    }
  }

  /** How a body that has completed ends its function's run. */
  function OutcomeOf(c: Completion): Option<Outcome> {
    match c
    case Normal => Some(Completed)
    case ReturnWith(v) => Some(Returned(v))
    case ThrowWith(v) => Some(Thrown(v))
    case _ => None
  }

  /** With so much fuel the source ends with this outcome. */
  predicate Ends(m: Setting, body: seq<Stmt>, env: seq<nat>, w: World, fuel: nat, out: Outcome, w': World) {
    var r := ExecBody(m, body, env, w, fuel);
    OutcomeOf(r.0) == Some(out) && r.1 == w'
  }

  lemma Answered(p: Program, q: seq<nat>, body: seq<Stmt>, regs: map<nat, Value>, env: seq<nat>, w: World, fuel: nat)
    requires Legal(body) && Compiled(p, q, body) && |env| == p.m.base
    ensures var (r, w') := ExecList(p.m, body, env, w, fuel);
            match OutcomeOf(r)
            case Some(out) => Halts(p, Run(0, regs, env, w), out, w')
            case None => r.OutOfFuel? && Lasts(p, Run(0, regs, env, w), fuel)
  {
    hide Exec, LowerStmt, Linear;
    var c := Run(0, regs, env, w);
    var code := LowerList(q, [], body, Ids(0, 0, 0)).code;
    ListSingleOf(body, Jumps({}, {}));
    FunctionLabelsUnique(q, body);
    assert At(p, 0, 0, code);
    Refl(p, c);
    assert Arrives(p, c, 0, env, w);
    ListSim(p, 0, 0, q, [], body, Jumps({}, {}), Ids(0, 0, 0), c, env, w, fuel);
    var r := ExecList(p.m, body, env, w, fuel);
    if r.0.Normal? {
      var regs' :| Reaches(p, c, Run(|p.ops|, regs', env, r.1));
      One(p, Run(|p.ops|, regs', env, r.1), Done(Completed, r.1));
      Trans(p, c, Run(|p.ops|, regs', env, r.1), Done(Completed, r.1));
    }
  }

  /** Same outcome and same world, in both directions; in particular the lowered body
      never gets stuck. */
  lemma LoweringPreservesMeaning(p: Program, q: seq<nat>, body: seq<Stmt>, regs: map<nat, Value>, env: seq<nat>,
                                 w: World, out: Outcome, w': World)
    requires Legal(body) && Compiled(p, q, body) && |env| == p.m.base
    ensures Halts(p, Run(0, regs, env, w), out, w') <==> exists fuel :: Ends(p.m, body, env, w, fuel, out, w')
  {
    hide ExecList, LowerList, Linear, Legal, OutcomeOf;
    var c := Run(0, regs, env, w);
    if Halts(p, c, out, w') {
      var n: nat :| RunN(p, c, n) == Done(out, w');
      Answered(p, q, body, regs, env, w, n);
      var r := ExecList(p.m, body, env, w, n);
      if OutcomeOf(r.0).None? { HaltsEndsLasting(p, c, out, w', n, n); }
      HaltsOnce(p, c, out, w', OutcomeOf(r.0).value, r.1);
      assert Ends(p.m, body, env, w, n, out, w');
    }
    if fuel :| Ends(p.m, body, env, w, fuel, out, w') {
      Answered(p, q, body, regs, env, w, fuel);
    }
  }

  ghost predicate RunsForever(p: Program, c: Config) {
    forall k: nat :: Lasts(p, c, k)
  }

  /** No fuel is enough. */
  ghost predicate Diverges(m: Setting, body: seq<Stmt>, env: seq<nat>, w: World) {
    forall fuel: nat :: ExecBody(m, body, env, w, fuel).0.OutOfFuel?
  }

  /** The lowered body runs for ever exactly when its source does. */
  lemma LoweringPreservesDivergence(p: Program, q: seq<nat>, body: seq<Stmt>, regs: map<nat, Value>, env: seq<nat>,
                                    w: World)
    requires Legal(body) && Compiled(p, q, body) && |env| == p.m.base
    ensures RunsForever(p, Run(0, regs, env, w)) <==> Diverges(p.m, body, env, w)
  {
    hide ExecList, LowerList, Linear, Legal;
    var c := Run(0, regs, env, w);
    if RunsForever(p, c) {
      forall fuel: nat ensures ExecBody(p.m, body, env, w, fuel).0.OutOfFuel? {
        Answered(p, q, body, regs, env, w, fuel);
        var r := ExecList(p.m, body, env, w, fuel);
        if OutcomeOf(r.0).Some? {
          var n: nat :| RunN(p, c, n) == Done(OutcomeOf(r.0).value, r.1);
          HaltsEndsLasting(p, c, OutcomeOf(r.0).value, r.1, n, n);
        }
      }
    }
    if Diverges(p.m, body, env, w) {
      forall k: nat ensures Lasts(p, c, k) {
        assert ExecBody(p.m, body, env, w, k).0.OutOfFuel?;
        Answered(p, q, body, regs, env, w, k);
      }
    }
  }

  /** In every run of a function's flat code, without `try`, statically counted scopes are the frames in
      place: the table the executor cuts environments by is right at every step. */
  lemma FunctionDepths(p: Program, q: seq<nat>, body: seq<Stmt>, regs: map<nat, Value>, outer: seq<nat>, w: World,
                       n: nat)
    requires Legal(body) && Compiled(p, q, body) && |outer| > 0
    ensures InStep(p, outer, RunN(p, Run(0, regs, outer, w), n))
  {
    ListSingleOf(body, Jumps({}, {}));
    FunctionLabelsUnique(q, body);
    FunctionScoped(p, q, body);
    StaticDepthIsDynamic(p, outer, Run(0, regs, outer, w), n);
  }
}
