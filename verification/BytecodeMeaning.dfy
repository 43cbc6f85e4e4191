/** Both passes together: from the statements of a function body to the bytecode written
    out for its blocks. */
module BytecodeMeaning {
  import opened Syntax
  import opened Ir
  import opened Lower
  import opened Machine
  import opened ExprSimulation
  import opened StmtShape
  import opened StmtSimulation
  import opened LabelUniqueness
  import opened ScopedJumps
  import opened FunctionMeaning
  import opened Blocks
  import opened BlocksMeaning

  // ---- what the second pass relies on ------------------------------------------------------

  /** Scopes at the top level are whole: their entering and leaving are nested. */
  predicate Outer(code: seq<Instr>) {
    forall i :: 0 <= i < |code| ==> !code[i].EnterScope? && !code[i].LeaveScope?
  }

  lemma {:induction false} StmtOuter(p: seq<nat>, ctrl: seq<ControlTarget>, pending: seq<string>, s: Stmt, ids: Ids)
    ensures Outer(LowerStmt(p, ctrl, pending, s, ids).code)
    decreases s, 2
  {
    hide LowerExpr, Outer;
    match s
    case Empty | ExprStmt(_) | Decl(_, _) | Break(_) | Continue(_) | Return(_) | Throw(_) =>
        LeafOuter(p, ctrl, pending, s, ids);
    case Block(_) => ScopeOuter(LowerList(p, ctrl, s.body, ids).code);
    case If(_, _, _) => IfOuter(p, ctrl, pending, s, ids);
    case While(_, _) => LoopOuter(p, ctrl, pending, s, ids);
    case DoWhile(_, _) => LoopOuter(p, ctrl, pending, s, ids);
    case For(_, _, _, _) => ForOuter(p, ctrl, pending, s, ids);
    case Switch(_, _) => SwitchOuter(p, ctrl, pending, s, ids);
    case Labeled(_, _) => LabeledOuter(p, ctrl, pending, s, ids);
    case Try(_, _, _) => TryOuter(p, ctrl, pending, s, ids);
  }

  lemma ScopeOuter(body: seq<Instr>)
    ensures Outer([Scope(body)])
  {
  }

  lemma LeafOuter(p: seq<nat>, ctrl: seq<ControlTarget>, pending: seq<string>, s: Stmt, ids: Ids)
    requires s.Empty? || s.ExprStmt? || s.Decl? || s.Break? || s.Continue? || s.Return? || s.Throw?
    ensures Outer(LowerStmt(p, ctrl, pending, s, ids).code)
  {
    hide LowerExpr;
    match s
    case ExprStmt(e) => ExprShape(p, e, ids);
    case Decl(kind, decls) => DeclsPlain(p, kind, decls, ids);
    case Return(arg) => if arg.Some? { ExprShape(p, arg.value, ids); }
    case Throw(e) => ExprShape(p, e, ids);
    case _ =>
  }

  lemma {:induction false} IfOuter(p: seq<nat>, ctrl: seq<ControlTarget>, pending: seq<string>, s: Stmt, ids: Ids)
    requires s.If?
    ensures Outer(LowerStmt(p, ctrl, pending, s, ids).code)
    decreases s, 1
  {
    hide LowerTest;
    assert LowerStmt(p, ctrl, pending, s, ids) == LowerIf(p, ctrl, s, ids);
    var els := L(p, "if_else", ids, 0);
    var x := LowerTest(p, Some(s.test), els, Labels(ids, 2));
    var y := LowerStmt(p, ctrl, [], s.cons, x.ids);
    TestPlain(p, Some(s.test), els, Labels(ids, 2));
    StmtOuter(p, ctrl, [], s.cons, x.ids);
    if s.alt.Some? { StmtOuter(p, ctrl, [], s.alt.value, y.ids); }
  }

  lemma {:induction false} LoopOuter(p: seq<nat>, ctrl: seq<ControlTarget>, pending: seq<string>, s: Stmt, ids: Ids)
    requires s.While? || s.DoWhile?
    ensures Outer(LowerStmt(p, ctrl, pending, s, ids).code)
    decreases s, 1
  {
    hide LowerTest;
    if s.While? {
      assert LowerStmt(p, ctrl, pending, s, ids) == LowerWhile(p, ctrl, pending, s, ids);
      var start, end := L(p, "while_start", ids, 0), L(p, "while_end", ids, 1);
      TestPlain(p, Some(s.test), end, Labels(ids, 2));
      StmtOuter(p, PushTargets(ctrl, pending, end, Some(start)), [], s.stmt,
          LowerTest(p, Some(s.test), end, Labels(ids, 2)).ids);
    } else {
      assert LowerStmt(p, ctrl, pending, s, ids) == LowerDoWhile(p, ctrl, pending, s, ids);
      var test, end := L(p, "do_test", ids, 1), L(p, "do_end", ids, 2);
      var ctrl' := PushTargets(ctrl, pending, end, Some(test));
      StmtOuter(p, ctrl', [], s.stmt, Labels(ids, 3));
      TestPlain(p, Some(s.test), end, LowerStmt(p, ctrl', [], s.stmt, Labels(ids, 3)).ids);
    }
  }

  lemma {:induction false} ForOuter(p: seq<nat>, ctrl: seq<ControlTarget>, pending: seq<string>, s: Stmt, ids: Ids)
    requires s.For?
    ensures Outer(LowerStmt(p, ctrl, pending, s, ids).code)
    decreases s, 1
  {
    hide LowerTest, LowerInit, LowerUpdate, PerIteration;
    if IsLexicalFor(s) {
      assert LowerStmt(p, ctrl, pending, s, ids) == LowerForLexical(p, ctrl, pending, s, ids);
    } else {
      assert LowerStmt(p, ctrl, pending, s, ids) == LowerForUnscoped(p, ctrl, pending, s, ids);
      var i := LowerInit(p, s.init, ids);
      var next, end := L(p, "for_update", i.ids, 1), L(p, "for_end", i.ids, 2);
      var x := LowerTest(p, s.guard, end, Labels(i.ids, 3));
      var ctrl' := PushTargets(ctrl, pending, end, Some(next));
      var y := LowerStmt(p, ctrl', [], s.stmt, x.ids);
      InitPlain(p, s.init, ids);
      TestPlain(p, s.guard, end, Labels(i.ids, 3));
      StmtOuter(p, ctrl', [], s.stmt, x.ids);
      UpdatePlain(p, s.update, y.ids);
    }
  }

  lemma {:induction false} SwitchOuter(p: seq<nat>, ctrl: seq<ControlTarget>, pending: seq<string>, s: Stmt, ids: Ids)
    requires s.Switch?
    ensures Outer(LowerStmt(p, ctrl, pending, s, ids).code)
    decreases s, 1
  {
    hide LowerExpr, LowerTests, CaseLabels, LowerCases;
    assert LowerStmt(p, ctrl, pending, s, ids) == LowerSwitch(p, ctrl, pending, s, ids);
    var x := LowerExpr(p, s.disc, ids);
    var end, dflt := L(p, "switch_end", x.ids, 0), L(p, "switch_default", x.ids, 1);
    var ls := CaseLabels(p, s.cases, 0, dflt, Labels(x.ids, 2));
    ExprShape(p, s.disc, ids);
    TestsPlain(p, x.value, s.cases, ls.0, ls.1);
    CasesOuter(p, PushTargets(ctrl, pending, end, None), s.cases, ls.0,
        LowerTests(p, x.value, s.cases, ls.0, ls.1).ids);
  }

  lemma {:induction false} CasesOuter(p: seq<nat>, ctrl: seq<ControlTarget>, cases: seq<Case>, labels: seq<Label>,
                                      ids: Ids)
    requires |labels| == |cases|
    ensures Outer(LowerCases(p, ctrl, cases, labels, ids).code)
    decreases cases, 1
  {
    if cases != [] {
      ListOuter(p, ctrl, cases[0].body, ids);
      CasesOuter(p, ctrl, cases[1..], labels[1..], LowerList(p, ctrl, cases[0].body, ids).ids);
    }
  }

  lemma {:induction false} LabeledOuter(p: seq<nat>, ctrl: seq<ControlTarget>, pending: seq<string>, s: Stmt, ids: Ids)
    requires s.Labeled?
    ensures Outer(LowerStmt(p, ctrl, pending, s, ids).code)
    decreases s, 1
  {
    assert LowerStmt(p, ctrl, pending, s, ids) == LowerLabeled(p, ctrl, pending, s, ids);
    if IsControlTarget(s.stmt) { StmtOuter(p, ctrl, pending + [s.name], s.stmt, ids); }
    else { StmtOuter(p, ctrl + [ControlTarget(Some(s.name), L(p, "label_end", ids, 0), None)], [], s.stmt,
         Labels(ids, 1)); }
  }

  lemma TryOuter(p: seq<nat>, ctrl: seq<ControlTarget>, pending: seq<string>, s: Stmt, ids: Ids)
    requires s.Try?
    ensures Outer(LowerStmt(p, ctrl, pending, s, ids).code)
  {
    hide LowerList;
    assert LowerStmt(p, ctrl, pending, s, ids) == LowerTry(p, s, ids);
    assert |LowerTry(p, s, ids).code| == 1 && LowerTry(p, s, ids).code[0].TryInstr?;
  }

  lemma {:induction false} ListOuter(p: seq<nat>, ctrl: seq<ControlTarget>, ss: seq<Stmt>, ids: Ids)
    ensures Outer(LowerList(p, ctrl, ss, ids).code)
    decreases ss, 1
  {
    if ss != [] {
      StmtOuter(p, ctrl, [], ss[0], ids);
      ListOuter(p, ctrl, ss[1..], LowerStmt(p, ctrl, [], ss[0], ids).ids);
    }
  }

  lemma {:induction false} HereAhead(code: seq<Instr>, l: Label)
    requires l in Here(code)
    ensures Ahead(code, 0, l)
  {
    if !(code[0].LabelAt? && code[0].l == l) {
      HereAhead(code[1..], l);
      var k :| 0 <= k < |code[1..]| && code[1..][k] == LabelAt(l);
      assert code[k + 1] == LabelAt(l);
    }
  }

  /** An instruction of the top level ends at the scope depth it began at. */
  lemma LevelOne(i: Instr, depthOf: Label -> nat, visible: set<Label>)
    requires ScopedOne(i, 0, depthOf, visible) && !i.EnterScope? && !i.LeaveScope?
    ensures DepthFrom(0, LinearOne(i)) == 0
  {
    if i.Scope? {
      DepthFromConcat(0, [OpEnterScope] + Linear(i.body), [OpLeaveScope]);
      DepthFromConcat(0, [OpEnterScope], Linear(i.body));
      OneDepth(0, OpEnterScope);
      OneDepth(1, OpLeaveScope);
    } else if i.TryInstr? {
      LevelTry(i, depthOf, visible);
    } else {
      PlainDepth(i, 0);
    }
  }

  lemma LevelTry(i: Instr, depthOf: Label -> nat, visible: set<Label>)
    requires i.TryInstr? && ScopedOne(i, 0, depthOf, visible)
    ensures DepthFrom(0, LinearOne(i)) == 0
  {
    hide DepthFrom, Linear;
    var b := [OpEnterTry] + Linear(i.body);
    var c := if i.catchBody == [] then [] else [OpEnterCatch(i.param)] + Linear(i.catchBody);
    var f := if i.finallyBody == [] then [] else [OpEnterFinally] + Linear(i.finallyBody);
    assert LinearOne(i) == b + c + f + [OpLeaveTry];
    DepthFromConcat(0, b + c + f, [OpLeaveTry]);
    DepthFromConcat(0, b + c, f);
    DepthFromConcat(0, b, c);
    DepthFromConcat(0, [OpEnterTry], Linear(i.body));
    DepthFromConcat(0, [OpEnterCatch(i.param)], Linear(i.catchBody));
    DepthFromConcat(0, [OpEnterFinally], Linear(i.finallyBody));
    MarkKeeps(OpEnterTry, 0);
    MarkKeeps(OpEnterCatch(i.param), 0);
    MarkKeeps(OpEnterFinally, 0);
    MarkKeeps(OpLeaveTry, 0);
    NoDepth();
  }

  lemma {:induction false} TopLevelOf(code: seq<Instr>, whole: seq<Instr>, depthOf: Label -> nat, visible: set<Label>)
    requires Outer(code) && Scoped(code, 0, depthOf, visible) && forall l :: l in visible ==> Ahead(whole, 0, l)
    ensures forall k :: 0 <= k < |code| ==>
      && DepthFrom(0, LinearOne(code[k])) == 0
      && (code[k].Jump? ==> Ahead(whole, 0, code[k].l)) && (code[k].JumpIfFalse? ==> Ahead(whole, 0, code[k].l))
  {
    hide DepthFrom, LinearOne, Ahead;
    if code != [] {
      LevelOne(code[0], depthOf, visible);
      TopLevelOf(code[1..], whole, depthOf, visible);
      forall k | 0 <= k < |code|
        ensures DepthFrom(0, LinearOne(code[k])) == 0
             && (code[k].Jump? ==> Ahead(whole, 0, code[k].l)) && (code[k].JumpIfFalse? ==> Ahead(whole, 0, code[k].l))
      {
        if k > 0 { assert code[k] == code[1..][k - 1]; }
      }
    }
  }

  /** Lowered function bodies are what the second pass needs, with or without `try`. */
  lemma FunctionWellCut(s: Pair, q: seq<nat>, body: seq<Stmt>)
    requires ListSingle(body) && s.code == LowerList(q, [], body, Ids(0, 0, 0)).code && Splits(s.code, s.cut)
    ensures WellCut(s)
  {
    hide LowerList, Linear, Splits, Scoped, Here, Safe, LabelCount;
    FunctionLabelsUnique(q, body);
    FunctionScoped(s.Flat(), q, body);
    ListOuter(q, [], body, Ids(0, 0, 0));
    forall l | l in Here(s.code) ensures Ahead(s.code, 0, l) { HereAhead(s.code, l); }
    TopLevelOf(s.code, s.code, SiteOf(s.Flat()), Here(s.code));
    ListFresh(q, [], body, Ids(0, 0, 0));
    CountCode(s.code);
  }

  // ---- from source to bytecode --------------------------------------------------------------------

  /** The statements' meaning survives both passes: the bytecode written out for the blocks
      ends with an outcome and a world exactly when the source does. */
  lemma BytecodePreservesMeaning(s: Pair, q: seq<nat>, body: seq<Stmt>, regs: map<nat, Value>, env: seq<nat>, w: World,
                                 out: Outcome, w': World)
    requires Legal(body) && s.m.base > 0 && |env| == s.m.base
    requires s.code == LowerList(q, [], body, Ids(0, 0, 0)).code && Splits(s.code, s.cut)
    ensures Halts(s.Written(), Run(0, regs, env, w), out, w') <==> exists fuel :: Ends(s.m, body, env, w, fuel, out, w')
  {
    hide LowerList, Linear, Splits, WellCut, Ends, Reaches;
    ListSingleOf(body, Jumps({}, {}));
    FunctionWellCut(s, q, body);
    BlocksPreserveMeaning(s, regs, env, w, out, w');
    LoweringPreservesMeaning(s.Flat(), q, body, regs, env, w, out, w');
  }

  /** It runs for ever exactly when the source does. */
  lemma BytecodePreservesDivergence(s: Pair, q: seq<nat>, body: seq<Stmt>, regs: map<nat, Value>, env: seq<nat>,
                                    w: World)
    requires Legal(body) && s.m.base > 0 && |env| == s.m.base
    requires s.code == LowerList(q, [], body, Ids(0, 0, 0)).code && Splits(s.code, s.cut)
    ensures RunsForever(s.Written(), Run(0, regs, env, w)) <==> Diverges(s.m, body, env, w)
  {
    hide LowerList, Linear, Splits, WellCut, Diverges, Lasts;
    ListSingleOf(body, Jumps({}, {}));
    FunctionWellCut(s, q, body);
    BlocksPreserveDivergence(s, regs, env, w);
    LoweringPreservesDivergence(s.Flat(), q, body, regs, env, w);
  }

  lemma DistinctCode(q: seq<nat>, body: seq<Stmt>)
    requires ListSingle(body)
    ensures Distinct(LowerList(q, [], body, Ids(0, 0, 0)).code)
  {
    hide LowerList, Linear, LabelCount;
    var code := LowerList(q, [], body, Ids(0, 0, 0)).code;
    ListFresh(q, [], body, Ids(0, 0, 0));
    forall i, j | 0 <= i < j < |code| && code[i].LabelAt? ensures code[i] != code[j] {
      if code[i] == code[j] { TwiceEmitted(code, i, j); }
    }
  }

  lemma TwiceEmitted(code: seq<Instr>, i: nat, j: nat)
    requires i < j < |code| && code[i].LabelAt? && code[i] == code[j]
    ensures Emitted(code)[code[i].l] > 1
  {
    assert code == code[..j] + code[j..] && code[..j] == code[..i] + code[i..j];
    EmittedConcat(code[..j], code[j..]);
    EmittedConcat(code[..i], code[i..j]);
    assert code[i..j][0] == code[i] && code[j..][0] == code[j];
  }
}
