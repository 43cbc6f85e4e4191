/** The two readings of a program, the standard's and the compiler's, and a large class of
    programs on which they cannot be told apart. */
module Readings {
  import opened Syntax
  import opened Semantics
  import opened Machine
  import opened FunctionMeaning

  /** `++` and `--` convert to a numeric value and change it. */
  ghost predicate Bumps(h: Host) {
    forall op: StepSign, v, w :: h.unary(op, v, w) == Bumped(h, op, h.numeric(v, w))
  }

  function Bumped(h: Host, op: string, n: (Result, World)): (Result, World) {
    if n.0.Ok? then (Ok(h.bump(op, n.0.v)), n.1) else n
  }

  // ---- where the readings agree -----------------------------------------------------------

  /** No logical assignment, no postfix operator whose value is used, and no use of a name
      that the code takes for a constant. */
  predicate Alike(e: Expr)
    decreases e, 1
  {
    match e
    case Lit(_) | Fn(_) => true
    case Name(x) => ConstantName(x).None?
    case Bin(_, a, b) => Alike(a) && Alike(b)
    case Unary(_, a) => Alike(a)
    case And(a, b) => Alike(a) && Alike(b)
    case Or(a, b) => Alike(a) && Alike(b)
    case Nullish(a, b) => Alike(a) && Alike(b)
    case Cond(t, a, b) => Alike(t) && Alike(a) && Alike(b)
    case Seq(es) => AllAlike(es)
    case Assign(_, a) => Alike(a)
    case AssignOp(op, _, a) => !IsLogical(op) && Alike(a)
    case Update(_, prefix, x) => prefix && ConstantName(x).None?
    case Call(f, args) => Alike(f) && AllAlike(args)
  }

  predicate AllAlike(es: seq<Expr>)
    decreases es, 0
  {
    es == [] || (Alike(es[0]) && AllAlike(es[1..]))
  }

  /** The same for an expression whose value is dropped. */
  predicate AlikeEffect(e: Expr) { if e.Update? then ConstantName(e.name).None? else Alike(e) }

  predicate AlikeOpt(e: Option<Expr>) { e.Some? ==> Alike(e.value) }

  /** No `var` without an initialiser. */
  predicate AlikeDecls(kind: DeclKind, decls: seq<Declarator>) {
    decls == [] || (AlikeOpt(decls[0].init) && !(kind.VarKind? && decls[0].init.None?) && AlikeDecls(kind, decls[1..]))
  }

  predicate AlikeInit(init: ForInit) {
    match init
    case NoInit => true
    case InitExpr(e) => AlikeEffect(e)
    case InitDecl(kind, decls) => AlikeDecls(kind, decls)
  }

  /** And no `switch` with a `let` or a `const` among its own statements. */
  predicate AlikeStmt(s: Stmt)
    decreases s, 1
  {
    match s
    case ExprStmt(e) => AlikeEffect(e)
    case Decl(kind, decls) => AlikeDecls(kind, decls)
    case Block(body) => AlikeList(body)
    case If(t, c, alt) => Alike(t) && AlikeStmt(c) && (alt.Some? ==> AlikeStmt(alt.value))
    case While(t, body) => Alike(t) && AlikeStmt(body)
    case DoWhile(body, t) => AlikeStmt(body) && Alike(t)
    case For(init, t, u, body) => AlikeInit(init) && AlikeOpt(t) && (u.Some? ==> AlikeEffect(u.value))
        && AlikeStmt(body)
    case Switch(d, cases) => Alike(d) && !Lexical(cases) && AlikeCases(cases)
    case Labeled(_, body) => AlikeStmt(body)
    case Return(arg) => AlikeOpt(arg)
    case Throw(e) => Alike(e)
    case _ => true
  }

  predicate AlikeList(ss: seq<Stmt>)
    decreases ss, 0
  {
    ss == [] || (AlikeStmt(ss[0]) && AlikeList(ss[1..]))
  }

  predicate AlikeCases(cases: seq<Case>)
    decreases cases, 0
  {
    cases == [] || (AlikeOpt(cases[0].test) && AlikeList(cases[0].body) && AlikeCases(cases[1..]))
  }

  function StandardHost(h: Host): Host { h.(standard := true) }

  lemma {:induction false} EvalAgrees(h: Host, e: Expr, env: seq<nat>, w: World)
    requires !h.standard && Bumps(h) && Alike(e)
    ensures Eval(StandardHost(h), e, env, w) == Eval(h, e, env, w)
    decreases e, 1
  {
    match e
    case Bin(_, a, b) =>
      EvalAgrees(h, a, env, w);
      EvalAgrees(h, b, env, Eval(h, a, env, w).1);
    case Unary(_, a) => EvalAgrees(h, a, env, w);
    case And(a, b) => ShortAgrees(h, e, env, w);
    case Or(a, b) => ShortAgrees(h, e, env, w);
    case Nullish(a, b) => ShortAgrees(h, e, env, w);
    case Cond(t, a, b) =>
      EvalAgrees(h, t, env, w);
      EvalAgrees(h, a, env, Eval(h, t, env, w).1);
      EvalAgrees(h, b, env, Eval(h, t, env, w).1);
    case Seq(es) => SeqAgrees(h, es, Undefined, env, w);
    case Assign(_, a) => EvalAgrees(h, a, env, w);
    case AssignOp(_, x, a) => EvalAgrees(h, a, env, Load(h, env, x, w).1);
    case Update(op, _, x) => StepAgrees(h, op, true, x, env, w);
    case Call(f, args) =>
      EvalAgrees(h, f, env, w);
      ArgsAgree(h, args, env, Eval(h, f, env, w).1);
    case _ =>
  }

  lemma {:induction false} ShortAgrees(h: Host, e: Expr, env: seq<nat>, w: World)
    requires !h.standard && Bumps(h) && (e.And? || e.Or? || e.Nullish?) && Alike(e)
    ensures EvalShortCircuit(StandardHost(h), e, env, w) == EvalShortCircuit(h, e, env, w)
    decreases e, 0
  {
    EvalAgrees(h, e.left, env, w);
    EvalAgrees(h, e.right, env, Eval(h, e.left, env, w).1);
  }

  /** Effects always agree; so do the values of the prefix operators. */
  lemma StepAgrees(h: Host, op: StepSign, prefix: bool, x: string, env: seq<nat>, w: World)
    requires !h.standard && Bumps(h) && ConstantName(x).None?
    ensures var code, std := EvalIncDec(h, op, prefix, x, env, w), EvalIncDec(StandardHost(h), op, prefix, x, env, w);
            code.1 == std.1 && code.0.Ok? == std.0.Ok? && (prefix || code.0.Throws? ==> code == std)
  {
    var (a, w1) := EvalName(h, x, env, w);
    assert h.unary(op, a.v, w1) == Bumped(h, op, h.numeric(a.v, w1));
  }

  lemma {:induction false} SeqAgrees(h: Host, es: seq<Expr>, last: Value, env: seq<nat>, w: World)
    requires !h.standard && Bumps(h) && AllAlike(es)
    ensures EvalSeq(StandardHost(h), es, last, env, w) == EvalSeq(h, es, last, env, w)
    decreases es, 0
  {
    if es != [] {
      EvalAgrees(h, es[0], env, w);
      var (a, w1) := Eval(h, es[0], env, w);
      SeqAgrees(h, es[1..], a.v, env, w1);
    }
  }

  lemma {:induction false} ArgsAgree(h: Host, es: seq<Expr>, env: seq<nat>, w: World)
    requires !h.standard && Bumps(h) && AllAlike(es)
    ensures EvalArgs(StandardHost(h), es, env, w) == EvalArgs(h, es, env, w)
    decreases es, 0
  {
    if es != [] {
      EvalAgrees(h, es[0], env, w);
      ArgsAgree(h, es[1..], env, Eval(h, es[0], env, w).1);
    }
  }

  lemma EffectAgrees(h: Host, e: Expr, env: seq<nat>, w: World)
    requires !h.standard && Bumps(h) && AlikeEffect(e)
    ensures var code, std := Eval(h, e, env, w), Eval(StandardHost(h), e, env, w);
            code.1 == std.1 && code.0.Ok? == std.0.Ok? && (code.0.Throws? ==> code == std)
  {
    hide Alike, EvalIncDec;
    if e.Update? { StepAgrees(h, e.step, e.prefix, e.name, env, w); } else { EvalAgrees(h, e, env, w); }
  }

  lemma OptAgrees(h: Host, e: Option<Expr>, env: seq<nat>, w: World)
    requires !h.standard && Bumps(h) && AlikeOpt(e)
    ensures EvalOpt(StandardHost(h), e, env, w) == EvalOpt(h, e, env, w)
  {
    if e.Some? { EvalAgrees(h, e.value, env, w); }
  }

  lemma {:induction false} DeclsAgree(m: CodeSetting, kind: DeclKind, decls: seq<Declarator>, env: seq<nat>, w: World)
    requires Bumps(m.host) && AlikeDecls(kind, decls)
    ensures ExecDecls(Standard(m), kind, decls, env, w) == ExecDecls(m, kind, decls, env, w)
    decreases decls
  {
    if decls != [] {
      var d := decls[0];
      if d.init.Some? { EvalAgrees(m.host, d.init.value, env, w); }
      var (a, w1) := match d.init case Some(e) => Eval(m.host, e, env, w) case None => (Ok(Undefined), w);
      var (s, w3) := Store(m.host, env, d.name, a.v, Declare(m.base, env, kind, d.name, w1));
      DeclsAgree(m, kind, decls[1..], env, w3);
    }
  }

  // ---- statements ---------------------------------------------------------------------------

  lemma {:induction false} StmtAgrees(m: CodeSetting, s: Stmt, labels: seq<string>, env: seq<nat>, w: World, fuel: nat)
    requires Bumps(m.host) && AlikeStmt(s)
    ensures Exec(Standard(m), s, labels, env, w, fuel) == Exec(m, s, labels, env, w, fuel)
    decreases fuel, s, 5
  {
    hide Bumps, ExecSwitch;
    match s
    case ExprStmt(e) => EffectAgrees(m.host, e, env, w);
    case Decl(kind, decls) => DeclsAgree(m, kind, decls, env, w);
    case Block(body) => ListAgrees(m, body, env + [|w.heap|], PushFrame(w), fuel);
    case If(t, c, alt) =>
      EvalAgrees(m.host, t, env, w);
      var w1 := Eval(m.host, t, env, w).1;
      StmtAgrees(m, c, [], env, w1, fuel);
      if alt.Some? { StmtAgrees(m, alt.value, [], env, w1, fuel); }
    case While(t, body) => WhileAgrees(m, t, body, labels, env, w, fuel);
    case DoWhile(body, t) => DoWhileAgrees(m, body, t, labels, env, w, fuel);
    case For(_, _, _, _) => ForAgrees(m, s, labels, env, w, fuel);
    case Switch(_, _) => SwitchAgrees(m, s, env, w, fuel);
    case Labeled(l, body) => StmtAgrees(m, body, labels + [l], env, w, fuel);
    case Return(arg) => if arg.Some? { EvalAgrees(m.host, arg.value, env, w); }
    case Throw(e) => EvalAgrees(m.host, e, env, w);
    case _ =>
  }

  lemma {:induction false} ListAgrees(m: CodeSetting, ss: seq<Stmt>, env: seq<nat>, w: World, fuel: nat)
    requires Bumps(m.host) && AlikeList(ss)
    ensures ExecList(Standard(m), ss, env, w, fuel) == ExecList(m, ss, env, w, fuel)
    decreases fuel, ss, 1
  {
    if ss != [] {
      StmtAgrees(m, ss[0], [], env, w, fuel);
      ListAgrees(m, ss[1..], env, Exec(m, ss[0], [], env, w, fuel).1, fuel);
    }
  }

  lemma {:induction false} WhileAgrees(m: CodeSetting, t: Expr, body: Stmt, labels: seq<string>, env: seq<nat>,
                                       w: World, fuel: nat)
    requires Bumps(m.host) && Alike(t) && AlikeStmt(body)
    ensures ExecWhile(Standard(m), t, body, labels, env, w, fuel) == ExecWhile(m, t, body, labels, env, w, fuel)
    decreases fuel, body, 3
  {
    hide ExecList, ExecReturn, ExecSwitch, ExecThrow, IsLogical, Lexical, LoopContinues, LoopExit, Truthy;
    if fuel > 0 {
      EvalAgrees(m.host, t, env, w);
      var w1 := Eval(m.host, t, env, w).1;
      StmtAgrees(m, body, [], env, w1, fuel - 1);
      WhileAgrees(m, t, body, labels, env, Exec(m, body, [], env, w1, fuel - 1).1, fuel - 1);
    }
  }

  lemma {:induction false} DoWhileAgrees(m: CodeSetting, body: Stmt, t: Expr, labels: seq<string>, env: seq<nat>,
                                         w: World, fuel: nat)
    requires Bumps(m.host) && Alike(t) && AlikeStmt(body)
    ensures ExecDoWhile(Standard(m), body, t, labels, env, w, fuel) == ExecDoWhile(m, body, t, labels, env, w, fuel)
    decreases fuel, body, 3
  {
    hide ExecReturn, ExecSwitch, ExecThrow, ExecWhile, IsLogical, Lexical, LoopContinues, LoopExit, Truthy;
    if fuel > 0 {
      StmtAgrees(m, body, [], env, w, fuel - 1);
      var w1 := Exec(m, body, [], env, w, fuel - 1).1;
      EvalAgrees(m.host, t, env, w1);
      DoWhileAgrees(m, body, t, labels, env, Eval(m.host, t, env, w1).1, fuel - 1);
    }
  }

  /** A missing update does nothing in either reading. */
  lemma UpdateAgrees(h: Host, u: Option<Expr>, env: seq<nat>, w: World)
    requires !h.standard && Bumps(h) && (u.Some? ==> AlikeEffect(u.value))
    ensures var code, std := EvalOpt(h, u, env, w), EvalOpt(StandardHost(h), u, env, w);
            code.1 == std.1 && code.0.Ok? == std.0.Ok? && (code.0.Throws? ==> code == std)
  {
    hide Eval, AlikeEffect;
    if u.Some? { EffectAgrees(h, u.value, env, w); }
  }

  lemma {:induction false} ForAgrees(m: CodeSetting, s: Stmt, labels: seq<string>, env: seq<nat>, w: World, fuel: nat)
    requires Bumps(m.host) && s.For? && AlikeStmt(s)
    ensures ExecForStmt(Standard(m), s, labels, env, w, fuel) == ExecForStmt(m, s, labels, env, w, fuel)
    decreases fuel, s, 4
  {
    hide Eval, AlikeEffect;
    if s.init.InitDecl? && !s.init.kind.VarKind? {
      var env1 := env + [|w.heap|];
      DeclsAgree(m, s.init.kind, s.init.decls, env1, PushFrame(w));
      var w1 := ExecDecls(m, s.init.kind, s.init.decls, env1, PushFrame(w)).1;
      PerIterationAgrees(m, BoundNames(s.init.decls), s.guard, s.update, s.stmt, labels, env1, env1, false, w1, fuel);
    } else {
      if s.init.InitDecl? { DeclsAgree(m, s.init.kind, s.init.decls, env, w); }
      if s.init.InitExpr? { EffectAgrees(m.host, s.init.expr, env, w); }
      RoundsAgree(m, s.guard, s.update, s.stmt, labels, env, ExecInit(m, s.init, env, w).1, fuel);
    }
  }

  lemma {:induction false} RoundsAgree(m: CodeSetting, t: Option<Expr>, u: Option<Expr>, body: Stmt,
                                       labels: seq<string>,
                                       env: seq<nat>, w: World, fuel: nat)
    requires Bumps(m.host) && AlikeOpt(t) && (u.Some? ==> AlikeEffect(u.value)) && AlikeStmt(body)
    ensures ExecFor(Standard(m), t, u, body, labels, env, w, fuel) == ExecFor(m, t, u, body, labels, env, w, fuel)
    decreases fuel, body, 3
  {
    hide EvalOpt, AlikeEffect;
    if fuel > 0 {
      OptAgrees(m.host, t, env, w);
      var w1 := EvalOpt(m.host, t, env, w).1;
      StmtAgrees(m, body, [], env, w1, fuel - 1);
      var w2 := Exec(m, body, [], env, w1, fuel - 1).1;
      UpdateAgrees(m.host, u, env, w2);
      RoundsAgree(m, t, u, body, labels, env, EvalOpt(m.host, u, env, w2).1, fuel - 1);
    }
  }

  lemma {:induction false} LoadAllSame(h: Host, names: seq<string>, env: seq<nat>, w: World)
    ensures LoadAll(StandardHost(h), names, env, w) == LoadAll(h, names, env, w)
    decreases |names|
  {
    if names != [] { LoadAllSame(h, names[1..], env, Load(h, env, names[0], w).1); }
  }

  lemma {:induction false} PerIterationAgrees(m: CodeSetting, names: seq<string>, t: Option<Expr>, u: Option<Expr>,
                                              body: Stmt,
                                              labels: seq<string>, loopEnv: seq<nat>, from: seq<nat>, update: bool,
                                                  w: World, fuel: nat)
    requires Bumps(m.host) && AlikeOpt(t) && (u.Some? ==> AlikeEffect(u.value)) && AlikeStmt(body)
    ensures ExecPerIteration(Standard(m), names, t, u, body, labels, loopEnv, from, update, w, fuel)
         == ExecPerIteration(m, names, t, u, body, labels, loopEnv, from, update, w, fuel)
    decreases fuel, body, 3
  {
    hide EvalOpt, AlikeEffect, LoadAll, BindAll, Alike, Bumped, ExecRound, AlikeStmt;
    if fuel > 0 {
      LoadAllSame(m.host, names, from, w);
      var (vs, thrown, w1) := LoadAll(m.host, names, from, w);
      if thrown.None? {
        var env := loopEnv + [|w1.heap|];
        var w2 := w1.(heap := w1.heap + [BindAll(map[], names, vs)]);
        UpdateAgrees(m.host, u, env, w2);
        var w3 := if update then EvalOpt(m.host, u, env, w2).1 else w2;
        RoundAgrees(m, names, t, u, body, labels, loopEnv, env, w3, fuel);
      }
    }
  }

  lemma {:induction false} RoundAgrees(m: CodeSetting, names: seq<string>, t: Option<Expr>, u: Option<Expr>, body: Stmt,
                                       labels: seq<string>, loopEnv: seq<nat>, env: seq<nat>, w: World, fuel: nat)
    requires fuel > 0 && Bumps(m.host) && AlikeOpt(t) && (u.Some? ==> AlikeEffect(u.value)) && AlikeStmt(body)
    ensures ExecRound(Standard(m), names, t, u, body, labels, loopEnv, env, w, fuel)
         == ExecRound(m, names, t, u, body, labels, loopEnv, env, w, fuel)
    decreases fuel, body, 2
  {
    hide EvalOpt, AlikeEffect;
    OptAgrees(m.host, t, env, w);
    var w1 := EvalOpt(m.host, t, env, w).1;
    StmtAgrees(m, body, [], env, w1, fuel - 1);
    PerIterationAgrees(m, names, t, u, body, labels, loopEnv, env, true, Exec(m, body, [], env, w1, fuel - 1).1,
        fuel - 1);
  }

  lemma {:induction false} MatchAgrees(h: Host, d: Value, cases: seq<Case>, from: nat, env: seq<nat>, w: World)
    requires !h.standard && Bumps(h) && forall c :: c in cases ==> AlikeOpt(c.test)
    ensures MatchCase(StandardHost(h), d, cases, from, env, w) == MatchCase(h, d, cases, from, env, w)
    decreases |cases| - from
  {
    hide Eval, Alike;
    if from < |cases| {
      var c := cases[from];
      assert c in cases;
      if c.test.Some? {
        EvalAgrees(h, c.test.value, env, w);
        var (a, w1) := Eval(h, c.test.value, env, w);
        MatchAgrees(h, d, cases, from + 1, env, BinaryOp(h, "===", d, a.v, w1).1);
      } else {
        MatchAgrees(h, d, cases, from + 1, env, w);
      }
    }
  }

  lemma {:induction false} TestsAlike(cases: seq<Case>, c: Case)
    requires AlikeCases(cases) && c in cases
    ensures AlikeOpt(c.test)
    decreases |cases|
  {
    hide AlikeList, Alike;
    if c != cases[0] { TestsAlike(cases[1..], c); }
  }

  lemma {:induction false} CasesFrom(cases: seq<Case>, k: nat)
    requires AlikeCases(cases) && k <= |cases|
    ensures AlikeCases(cases[k..])
    decreases k
  {
    hide AlikeList, AlikeOpt;
    if k > 0 {
      CasesFrom(cases[1..], k - 1);
      assert cases[1..][k - 1..] == cases[k..];
    }
  }

  lemma {:induction false} SwitchAgrees(m: CodeSetting, s: Stmt, env: seq<nat>, w: World, fuel: nat)
    requires Bumps(m.host) && s.Switch? && AlikeStmt(s)
    ensures ExecSwitch(Standard(m), s, env, w, fuel) == ExecSwitch(m, s, env, w, fuel)
    decreases fuel, s, 4
  {
    hide Eval, Alike, AlikeCases, Lexical, ExecCases, MatchCase;
    EvalAgrees(m.host, s.disc, env, w);
    var (a, w1) := Eval(m.host, s.disc, env, w);
    forall c | c in s.cases ensures AlikeOpt(c.test) { TestsAlike(s.cases, c); }
    MatchAgrees(m.host, a.v, s.cases, 0, env, w1);
    var (sel, w2) := SelectCase(m.host, a.v, s.cases, env, w1);
    if sel.Chosen? && sel.k < |s.cases| {
      CasesFrom(s.cases, sel.k);
      CasesAgree(m, s.cases[sel.k..], env, w2, fuel);
    }
  }

  lemma {:induction false} CasesAgree(m: CodeSetting, cases: seq<Case>, env: seq<nat>, w: World, fuel: nat)
    requires Bumps(m.host) && AlikeCases(cases)
    ensures ExecCases(Standard(m), cases, env, w, fuel) == ExecCases(m, cases, env, w, fuel)
    decreases fuel, cases, 1
  {
    if cases != [] {
      ListAgrees(m, cases[0].body, env, w, fuel);
      CasesAgree(m, cases[1..], env, ExecList(m, cases[0].body, env, w, fuel).1, fuel);
    }
  }

  // ---- from the standard's reading to bytecode ----------------------------------------------

  /** The code for a body ends with an outcome and a world exactly when the body does. */
  ghost predicate SameMeaning(p: Program, m: Setting, body: seq<Stmt>) {
    forall regs: map<nat, Value>, env: seq<nat>, w, out, w' :: |env| == m.base ==>
      (Halts(p, Run(0, regs, env, w), out, w') <==> exists fuel :: Ends(m, body, env, w, fuel, out, w'))
  }

  /** It runs for ever exactly when the body does. */
  ghost predicate SameDivergence(p: Program, m: Setting, body: seq<Stmt>) {
    forall regs: map<nat, Value>, env: seq<nat>, w :: |env| == m.base ==>
      (RunsForever(p, Run(0, regs, env, w)) <==> Diverges(m, body, env, w))
  }

  /** The function's frame binds the names of the body's `var`s. */
  predicate VarsBound(base: nat, body: seq<Stmt>, env: seq<nat>, w: World) {
    0 < base <= |env| && env[base - 1] < |w.heap| && VarsOf(body) <= w.heap[env[base - 1]].Keys
  }

  lemma BoundEntered(m: Setting, body: seq<Stmt>, env: seq<nat>, w: World)
    requires VarsOf(body) == {} || VarsBound(m.base, body, env, w)
    ensures Entered(m, body, env, w) == w
  {
    if m.host.standard && 0 < m.base <= |env| && env[m.base - 1] < |w.heap| {
      var f := w.heap[env[m.base - 1]];
      assert WithUnset(VarsOf(body), f) == f;
    }
  }

  /** From every world in which a body's `var`s are bound, or if it has none, the code for it
      ends, or runs for ever, exactly as the body does in the standard's reading. */
  ghost predicate StandardMeaning(p: Program, m: Setting, body: seq<Stmt>) {
    forall regs: map<nat, Value>, env: seq<nat>, w, out, w' ::
      |env| == m.base && (VarsOf(body) == {} || VarsBound(m.base, body, env, w)) ==>
        (Halts(p, Run(0, regs, env, w), out, w') <==> exists fuel :: Ends(Standard(m), body, env, w, fuel, out, w'))
  }

  ghost predicate StandardDivergence(p: Program, m: Setting, body: seq<Stmt>) {
    forall regs: map<nat, Value>, env: seq<nat>, w ::
      |env| == m.base && (VarsOf(body) == {} || VarsBound(m.base, body, env, w)) ==>
        (RunsForever(p, Run(0, regs, env, w)) <==> Diverges(Standard(m), body, env, w))
  }

  /** A body on which the readings agree ends, and runs for ever, as the standard says. */
  lemma ReadingsAgree(p: Program, m: CodeSetting, body: seq<Stmt>)
    requires Bumps(m.host) && AlikeList(body)
    ensures SameMeaning(p, m, body) ==> StandardMeaning(p, m, body)
    ensures SameDivergence(p, m, body) ==> StandardDivergence(p, m, body)
  {
    hide ExecList, Reaches, Lasts, Bumps, AlikeList, VarsBound, VarsOf, Entered;
    forall env: seq<nat>, w: World, fuel: nat | VarsOf(body) == {} || VarsBound(m.base, body, env, w)
      ensures ExecBody(Standard(m), body, env, w, fuel) == ExecBody(m, body, env, w, fuel)
    {
      BoundEntered(m, body, env, w);
      BoundEntered(Standard(m), body, env, w);
      ListAgrees(m, body, env, w, fuel);
    }
    forall env: seq<nat>, w: World, fuel: nat, out, w' | VarsOf(body) == {} || VarsBound(m.base, body, env, w)
      ensures Ends(Standard(m), body, env, w, fuel, out, w') == Ends(m, body, env, w, fuel, out, w') {}
  }
}
