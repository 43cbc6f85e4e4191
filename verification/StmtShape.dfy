/** Lowered statements leave the scope depth where they found it. */
module StmtShape {
  import opened Syntax
  import opened Ir
  import opened Lower
  import opened Machine
  import opened ExprSimulation

  lemma KeepsConcat(a: seq<Instr>, b: seq<Instr>)
    requires Keeps(a) && Keeps(b)
    ensures Keeps(a + b)
  {
    LinearConcat(a, b);
    forall d: nat ensures DepthFrom(d, Linear(a + b)) == d { DepthFromConcat(d, Linear(a), Linear(b)); }
  }

  lemma OneDepth(d: nat, op: Op)
    ensures DepthFrom(d, [op]) == DepthStep(op, d)
  {
    assert [op][..0] == [];
  }

  lemma ScopeKeeps(body: seq<Instr>)
    requires Keeps(body)
    ensures Keeps([Scope(body)])
  {
    hide DepthFrom;
    var f := Linear(body);
    assert Linear([Scope(body)]) == [OpEnterScope] + f + [OpLeaveScope];
    forall d: nat ensures DepthFrom(d, [OpEnterScope] + f + [OpLeaveScope]) == d {
      DepthFromConcat(d, [OpEnterScope] + f, [OpLeaveScope]);
      DepthFromConcat(d, [OpEnterScope], f);
      OneDepth(d, OpEnterScope);
      OneDepth(d + 1, OpLeaveScope);
    }
  }

  lemma MarkKeeps(op: Op, d: nat)
    requires op.OpEnterTry? || op.OpEnterCatch? || op.OpEnterFinally? || op.OpLeaveTry?
    ensures DepthFrom(d, [op]) == d
  {
    OneDepth(d, op);
  }

  lemma TryKeeps(body: seq<Instr>, param: Option<string>, catchBody: seq<Instr>, finallyBody: seq<Instr>)
    requires Keeps(body) && Keeps(catchBody) && Keeps(finallyBody)
    ensures Keeps([TryInstr(body, param, catchBody, finallyBody)])
  {
    var b := [OpEnterTry] + Linear(body);
    var c := if catchBody == [] then [] else [OpEnterCatch(param)] + Linear(catchBody);
    var f := if finallyBody == [] then [] else [OpEnterFinally] + Linear(finallyBody);
    assert Linear([TryInstr(body, param, catchBody, finallyBody)]) == b + c + f + [OpLeaveTry];
    forall d: nat ensures DepthFrom(d, Linear([TryInstr(body, param, catchBody, finallyBody)])) == d {
      DepthFromConcat(d, b + c + f, [OpLeaveTry]);
      DepthFromConcat(d, b + c, f);
      DepthFromConcat(d, b, c);
      DepthFromConcat(d, [OpEnterTry], Linear(body));
      DepthFromConcat(d, [OpEnterCatch(param)], Linear(catchBody));
      DepthFromConcat(d, [OpEnterFinally], Linear(finallyBody));
      MarkKeeps(OpEnterTry, d);
      MarkKeeps(OpEnterCatch(param), d);
      MarkKeeps(OpEnterFinally, d);
      MarkKeeps(OpLeaveTry, d);
    }
  }

  lemma ExprKeeps(p: seq<nat>, e: Expr, ids: Ids)
    ensures Keeps(LowerExpr(p, e, ids).code)
  {
    ExprShape(p, e, ids);
    PlainKeeps(LowerExpr(p, e, ids).code);
  }

  /** Expression code followed by plain instructions. */
  lemma ExprThenKeeps(p: seq<nat>, e: Expr, ids: Ids, rest: seq<Instr>)
    requires Plain(rest)
    ensures Keeps(LowerExpr(p, e, ids).code + rest)
  {
    ExprKeeps(p, e, ids);
    PlainKeeps(rest);
    KeepsConcat(LowerExpr(p, e, ids).code, rest);
  }

  lemma {:induction false} DeclsPlain(p: seq<nat>, kind: DeclKind, decls: seq<Declarator>, ids: Ids)
    ensures var x := LowerDecls(p, kind, decls, ids); Plain(x.code) && Later(ids, x.ids)
  {
    if decls != [] {
      var a := LowerOpt(p, decls[0].init, Const(Undefined), ids);
      if decls[0].init.Some? { ExprShape(p, decls[0].init.value, ids); }
      DeclsPlain(p, kind, decls[1..], a.ids);
      var two := [DeclareName(kind, decls[0].name), StoreName(decls[0].name, a.value)];
      PlainConcat(two, LowerDecls(p, kind, decls[1..], a.ids).code);
      PlainConcat(a.code, two + LowerDecls(p, kind, decls[1..], a.ids).code);
    }
  }

  lemma InitPlain(p: seq<nat>, init: ForInit, ids: Ids)
    ensures var x := LowerInit(p, init, ids); Plain(x.code) && Later(ids, x.ids)
  {
    match init
    case NoInit =>
    case InitExpr(e) => ExprShape(p, e, ids);
    case InitDecl(kind, decls) => DeclsPlain(p, kind, decls, ids);
  }

  lemma TestPlain(p: seq<nat>, t: Option<Expr>, end: Label, ids: Ids)
    ensures var x := LowerTest(p, t, end, ids); Plain(x.code) && Later(ids, x.ids)
  {
    if t.Some? { ExprShape(p, t.value, ids); }
  }

  lemma UpdatePlain(p: seq<nat>, u: Option<Expr>, ids: Ids)
    ensures var x := LowerUpdate(p, u, ids); Plain(x.code) && Later(ids, x.ids)
  {
    if u.Some? { ExprShape(p, u.value, ids); }
  }

  lemma {:induction false} LoadsPlain(names: seq<string>, t: nat)
    ensures Plain(CopyLoads(names, t)) && |CopyLoads(names, t)| == |names|
    decreases names
  {
    if names != [] { LoadsPlain(names[1..], t + 1); }
  }

  lemma {:induction false} StoresPlain(names: seq<string>, t: nat)
    ensures Plain(CopyStores(names, t)) && |CopyStores(names, t)| == 2 * |names|
    decreases names
  {
    if names != [] { StoresPlain(names[1..], t + 1); }
  }

  /** The copies open the iteration's frame, or replace it. */
  lemma PerIterationDepth(names: seq<string>, leave: bool, ids: Ids, d: nat)
    requires leave ==> d > 0
    ensures DepthFrom(d, Linear(PerIteration(names, leave, ids).code)) == (if leave then d else d + 1)
  {
    var a, b := CopyLoads(names, ids.temp), CopyStores(names, ids.temp);
    var m := if leave then [LeaveScope, EnterScope] else [EnterScope];
    LoadsPlain(names, ids.temp);
    StoresPlain(names, ids.temp);
    PlainKeeps(a);
    PlainKeeps(b);
    LinearConcat(a, m + b);
    LinearConcat(m, b);
    DepthFromConcat(d, Linear(a), Linear(m) + Linear(b));
    DepthFromConcat(d, Linear(m), Linear(b));
    EnterDepth(leave, d);
  }

  lemma EnterDepth(leave: bool, d: nat)
    requires leave ==> d > 0
    ensures var m := if leave then [LeaveScope, EnterScope] else [EnterScope];
            DepthFrom(d, Linear(m)) == (if leave then d else d + 1)
  {
    if leave {
      assert Linear([LeaveScope, EnterScope]) == [OpLeaveScope] + [OpEnterScope];
      DepthFromConcat(d, [OpLeaveScope], [OpEnterScope]);
      assert DepthFrom(d, [OpLeaveScope]) == DepthStep(OpLeaveScope, DepthFrom(d, []));
      assert DepthFrom(d - 1, [OpEnterScope]) == DepthStep(OpEnterScope, DepthFrom(d - 1, []));
    } else {
      assert Linear([EnterScope]) == [OpEnterScope];
      assert DepthFrom(d, [OpEnterScope]) == DepthStep(OpEnterScope, DepthFrom(d, []));
    }
  }

  // ---- statements --------------------------------------------------------------

  lemma {:induction false} StmtKeeps(p: seq<nat>, ctrl: seq<ControlTarget>, pending: seq<string>, s: Stmt, ids: Ids)
    ensures Keeps(LowerStmt(p, ctrl, pending, s, ids).code)
    decreases s, 2
  {
    hide IsLexicalFor, LowerForLexical, LowerExpr, L, Keeps, LowerForUnscoped, LowerSwitch, LowerDoWhile;
    match s
    case Empty => PlainKeeps([]);
    case ExprStmt(e) =>
      var a := LowerExpr(p, e, ids);
      ExprThenKeeps(p, e, ids, if a.value.Register? then [Pop(a.value)]
                                                         else [Move(a.ids.temp, a.value), Pop(Register(a.ids.temp))]);
    case Decl(kind, decls) => DeclsPlain(p, kind, decls, ids); PlainKeeps(LowerDecls(p, kind, decls, ids).code);
    case Block(body) =>
      ListKeeps(p, ctrl, body, ids);
      ScopeKeeps(LowerList(p, ctrl, body, ids).code);
      assert LowerStmt(p, ctrl, pending, s, ids) == LowerBlockScope(p, ctrl, s, ids);
    case If(_, _, _) => IfKeeps(p, ctrl, s, ids);
    case While(_, _) => WhileKeeps(p, ctrl, pending, s, ids);
    case DoWhile(_, _) => DoWhileKeeps(p, ctrl, pending, s, ids);
    case For(init, _, _, _) =>
      if IsLexicalFor(s) { ForLexicalKeeps(p, ctrl, pending, s, ids); } else { ForKeeps(p, ctrl, pending, s, ids); }
    case Switch(_, _) => SwitchKeeps(p, ctrl, pending, s, ids);
    case Labeled(l, body) =>
      assert LowerStmt(p, ctrl, pending, s, ids) == LowerLabeled(p, ctrl, pending, s, ids);
      if IsControlTarget(body) { StmtKeeps(p, ctrl, pending + [l], body, ids); }
      else {
        var end := L(p, "label_end", ids, 0);
        var ctrl' := ctrl + [ControlTarget(Some(l), end, None)];
        StmtKeeps(p, ctrl', [], body, Labels(ids, 1));
        PlainKeeps([LabelAt(end)]);
        KeepsConcat(LowerStmt(p, ctrl', [], body, Labels(ids, 1)).code, [LabelAt(end)]);
      }
    case Break(t) => PlainKeeps(LowerStmt(p, ctrl, pending, s, ids).code);
    case Continue(t) => PlainKeeps(LowerStmt(p, ctrl, pending, s, ids).code);
    case Return(arg) =>
      if arg.Some? { ExprThenKeeps(p, arg.value, ids, [ReturnInstr(Some(LowerExpr(p, arg.value, ids).value))]); }
      else { PlainKeeps([ReturnInstr(None)]); }
    case Throw(e) => ExprThenKeeps(p, e, ids, [ThrowInstr(LowerExpr(p, e, ids).value)]);
    case Try(_, _, _) => TryStmtKeeps(p, ctrl, pending, s, ids);
  }

  lemma {:induction false} ListKeeps(p: seq<nat>, ctrl: seq<ControlTarget>, ss: seq<Stmt>, ids: Ids)
    ensures Keeps(LowerList(p, ctrl, ss, ids).code)
    decreases ss, 1
  {
    if ss == [] {
      PlainKeeps([]);
    } else {
      var a := LowerStmt(p, ctrl, [], ss[0], ids);
      StmtKeeps(p, ctrl, [], ss[0], ids);
      ListKeeps(p, ctrl, ss[1..], a.ids);
      KeepsConcat(a.code, LowerList(p, ctrl, ss[1..], a.ids).code);
    }
  }

  lemma Keeps3(a: seq<Instr>, b: seq<Instr>, c: seq<Instr>)
    requires Keeps(a) && Keeps(b) && Keeps(c)
    ensures Keeps(a + (b + c))
  {
    KeepsConcat(b, c);
    KeepsConcat(a, b + c);
  }

  lemma {:induction false} IfKeeps(p: seq<nat>, ctrl: seq<ControlTarget>, s: Stmt, ids: Ids)
    requires s.If?
    ensures Keeps(LowerIf(p, ctrl, s, ids).code)
    decreases s, 1
  {
    var els, end := L(p, "if_else", ids, 0), L(p, "if_end", ids, 1);
    var x := LowerTest(p, Some(s.test), els, Labels(ids, 2));
    var y := LowerStmt(p, ctrl, [], s.cons, x.ids);
    var z := match s.alt case Some(b) => LowerStmt(p, ctrl, [], b, y.ids) case None => Lowered([], y.ids);
    TestPlain(p, Some(s.test), els, Labels(ids, 2)); PlainKeeps(x.code);
    StmtKeeps(p, ctrl, [], s.cons, x.ids);
    if s.alt.Some? { StmtKeeps(p, ctrl, [], s.alt.value, y.ids); } else { PlainKeeps([]); }
    PlainKeeps([LabelAt(end)]);
    PlainKeeps([Jump(end), LabelAt(els)]);
    Keeps3([Jump(end), LabelAt(els)], z.code, [LabelAt(end)]);
    Keeps3(x.code, y.code, [Jump(end), LabelAt(els)] + (z.code + [LabelAt(end)]));
  }

  lemma {:induction false} WhileKeeps(p: seq<nat>, ctrl: seq<ControlTarget>, pending: seq<string>, s: Stmt, ids: Ids)
    requires s.While?
    ensures Keeps(LowerWhile(p, ctrl, pending, s, ids).code)
    decreases s, 1
  {
    var start, end := L(p, "while_start", ids, 0), L(p, "while_end", ids, 1);
    var x := LowerTest(p, Some(s.test), end, Labels(ids, 2));
    var ctrl' := PushTargets(ctrl, pending, end, Some(start));
    var y := LowerStmt(p, ctrl', [], s.stmt, x.ids);
    TestPlain(p, Some(s.test), end, Labels(ids, 2)); PlainKeeps(x.code);
    StmtKeeps(p, ctrl', [], s.stmt, x.ids);
    PlainKeeps([LabelAt(start)]);
    PlainKeeps([Jump(start), LabelAt(end)]);
    KeepsConcat(y.code, [Jump(start), LabelAt(end)]);
    Keeps3([LabelAt(start)], x.code, y.code + [Jump(start), LabelAt(end)]);
  }

  lemma {:induction false} DoWhileKeeps(p: seq<nat>, ctrl: seq<ControlTarget>, pending: seq<string>, s: Stmt, ids: Ids)
    requires s.DoWhile?
    ensures Keeps(LowerDoWhile(p, ctrl, pending, s, ids).code)
    decreases s, 1
  {
    var start, test, end := L(p, "do_start", ids, 0), L(p, "do_test", ids, 1), L(p, "do_end", ids, 2);
    var ctrl' := PushTargets(ctrl, pending, end, Some(test));
    var y := LowerStmt(p, ctrl', [], s.stmt, Labels(ids, 3));
    var x := LowerTest(p, Some(s.test), end, y.ids);
    StmtKeeps(p, ctrl', [], s.stmt, Labels(ids, 3));
    TestPlain(p, Some(s.test), end, y.ids); PlainKeeps(x.code);
    var tail := [Jump(start), LabelAt(end)];
    PlainKeeps([LabelAt(start)]);
    PlainKeeps([LabelAt(test)]);
    PlainKeeps(tail);
    Keeps3([LabelAt(test)], x.code, tail);
    Keeps3([LabelAt(start)], y.code, [LabelAt(test)] + (x.code + tail));
  }

  lemma {:induction false} ForKeeps(p: seq<nat>, ctrl: seq<ControlTarget>, pending: seq<string>, s: Stmt, ids: Ids)
    requires s.For? && !IsLexicalFor(s)
    ensures Keeps(LowerForUnscoped(p, ctrl, pending, s, ids).code)
    decreases s, 1
  {
    var i := LowerInit(p, s.init, ids);
    var start, next, end := L(p, "for_start", i.ids, 0), L(p, "for_update", i.ids, 1), L(p, "for_end", i.ids, 2);
    var x := LowerTest(p, s.guard, end, Labels(i.ids, 3));
    var ctrl' := PushTargets(ctrl, pending, end, Some(next));
    var y := LowerStmt(p, ctrl', [], s.stmt, x.ids);
    var z := LowerUpdate(p, s.update, y.ids);
    InitPlain(p, s.init, ids); PlainKeeps(i.code);
    TestPlain(p, s.guard, end, Labels(i.ids, 3)); PlainKeeps(x.code);
    StmtKeeps(p, ctrl', [], s.stmt, x.ids);
    UpdatePlain(p, s.update, y.ids); PlainKeeps(z.code);
    PlainKeeps([LabelAt(start)]);
    PlainKeeps([LabelAt(next)]);
    PlainKeeps([Jump(start), LabelAt(end)]);
    Keeps3([LabelAt(next)], z.code, [Jump(start), LabelAt(end)]);
    Keeps3(x.code, y.code, [LabelAt(next)] + (z.code + [Jump(start), LabelAt(end)]));
    Keeps3(i.code, [LabelAt(start)], x.code + (y.code + ([LabelAt(next)] + (z.code + [Jump(start), LabelAt(end)]))));
  }

  /** The part of a lexical `for` from its first label to its last. */
  function Rounds(start: Label, next: Label, end: Label, x: seq<Instr>, y: seq<Instr>, copies: seq<Instr>,
                  z: seq<Instr>): seq<Instr> {
    [LabelAt(start)] + (x + (y + ([LabelAt(next)] + (copies + (z + [Jump(start), LabelAt(end), LeaveScope])))))
  }

  lemma RoundsDepth(start: Label, next: Label, end: Label, x: seq<Instr>, y: seq<Instr>, copies: seq<Instr>,
                    z: seq<Instr>, d: nat)
    requires Keeps(x) && Keeps(y) && Keeps(z) && d > 0 && DepthFrom(d, Linear(copies)) == d
    ensures DepthFrom(d, Linear(Rounds(start, next, end, x, y, copies, z))) == d - 1
  {
    var last := [Jump(start), LabelAt(end), LeaveScope];
    PlainKeeps([LabelAt(start)]);
    PlainKeeps([LabelAt(next)]);
    Keeps3([LabelAt(start)], x, y);
    KeepsConcat([LabelAt(start)] + (x + y), [LabelAt(next)]);
    var head := [LabelAt(start)] + (x + y) + [LabelAt(next)];
    assert Rounds(start, next, end, x, y, copies, z) == head + (copies + (z + last));
    LinearConcat(head, copies + (z + last));
    LinearConcat(copies, z + last);
    LinearConcat(z, last);
    DepthFromConcat(d, Linear(head), Linear(copies) + (Linear(z) + Linear(last)));
    DepthFromConcat(d, Linear(copies), Linear(z) + Linear(last));
    DepthFromConcat(d, Linear(z), Linear(last));
    LastDepth(start, end, d);
  }

  lemma LastDepth(start: Label, end: Label, d: nat)
    requires d > 0
    ensures DepthFrom(d, Linear([Jump(start), LabelAt(end), LeaveScope])) == d - 1
  {
    hide DepthFrom;
    var a := [Jump(start), LabelAt(end)];
    assert [Jump(start), LabelAt(end), LeaveScope] == a + [LeaveScope];
    LinearConcat(a, [LeaveScope]);
    PlainKeeps(a);
    DepthFromConcat(d, Linear(a), [OpLeaveScope]);
    assert Linear([LeaveScope]) == [OpLeaveScope] + Linear([]) && Linear([]) == [];
    assert Linear([LeaveScope]) == [OpLeaveScope];
    OneDepth(d, OpLeaveScope);
  }

  lemma {:induction false} ForLexicalKeeps(p: seq<nat>, ctrl: seq<ControlTarget>, pending: seq<string>, s: Stmt,
                                           ids: Ids)
    requires IsLexicalFor(s)
    ensures Keeps(LowerForLexical(p, ctrl, pending, s, ids).code)
    decreases s, 1
  {
    var names := BoundNames(s.init.decls);
    var i := LowerInit(p, s.init, ids);
    var c := PerIteration(names, false, i.ids);
    var start, next, end := L(p, "for_start", c.ids, 0), L(p, "for_update", c.ids, 1), L(p, "for_end", c.ids, 2);
    var x := LowerTest(p, s.guard, end, Labels(c.ids, 3));
    var ctrl' := PushTargets(ctrl, pending, end, Some(next));
    var y := LowerStmt(p, ctrl', [], s.stmt, x.ids);
    var e := PerIteration(names, true, y.ids);
    var z := LowerUpdate(p, s.update, e.ids);
    InitPlain(p, s.init, ids); PlainKeeps(i.code);
    TestPlain(p, s.guard, end, Labels(c.ids, 3)); PlainKeeps(x.code);
    StmtKeeps(p, ctrl', [], s.stmt, x.ids);
    UpdatePlain(p, s.update, e.ids); PlainKeeps(z.code);
    var r := Rounds(start, next, end, x.code, y.code, e.code, z.code);
    forall d: nat ensures DepthFrom(d, Linear(i.code + (c.code + r))) == d {
      PerIterationDepth(names, false, i.ids, d);
      PerIterationDepth(names, true, y.ids, d + 1);
      RoundsDepth(start, next, end, x.code, y.code, e.code, z.code, d + 1);
      LinearConcat(i.code, c.code + r);
      LinearConcat(c.code, r);
      DepthFromConcat(d, Linear(i.code), Linear(c.code) + Linear(r));
      DepthFromConcat(d, Linear(c.code), Linear(r));
    }
    ScopeKeeps(i.code + (c.code + r));
  }

  lemma {:induction false} TestsPlain(p: seq<nat>, d: Operand, cases: seq<Case>, labels: seq<Label>, ids: Ids)
    requires |labels| == |cases|
    ensures var x := LowerTests(p, d, cases, labels, ids); Plain(x.code) && Later(ids, x.ids)
    decreases cases
  {
    if cases != [] {
      if cases[0].test.None? {
        TestsPlain(p, d, cases[1..], labels[1..], ids);
      } else {
        var a := LowerExpr(p, cases[0].test.value, ids);
        var ids1 := Labels(Temp(a.ids), 1);
        var b := LowerTests(p, d, cases[1..], labels[1..], ids1);
        ExprShape(p, cases[0].test.value, ids);
        TestsPlain(p, d, cases[1..], labels[1..], ids1);
        var next := L(p, "switch_next", a.ids, 0);
        var m := [BinaryInstr(a.ids.temp, "===", d, a.value), JumpIfFalse(Register(a.ids.temp), next), Jump(labels[0]),
            LabelAt(next)];
        PlainConcat(m, b.code);
        PlainConcat(a.code, m + b.code);
      }
    }
  }

  lemma {:induction false} CasesKeep(p: seq<nat>, ctrl: seq<ControlTarget>, cases: seq<Case>, labels: seq<Label>,
                                     ids: Ids)
    requires |labels| == |cases|
    ensures Keeps(LowerCases(p, ctrl, cases, labels, ids).code)
    decreases cases, 1
  {
    if cases == [] {
      PlainKeeps([]);
    } else {
      var a := LowerList(p, ctrl, cases[0].body, ids);
      ListKeeps(p, ctrl, cases[0].body, ids);
      CasesKeep(p, ctrl, cases[1..], labels[1..], a.ids);
      PlainKeeps([LabelAt(labels[0])]);
      Keeps3([LabelAt(labels[0])], a.code, LowerCases(p, ctrl, cases[1..], labels[1..], a.ids).code);
    }
  }

  lemma {:induction false} SwitchKeeps(p: seq<nat>, ctrl: seq<ControlTarget>, pending: seq<string>, s: Stmt, ids: Ids)
    requires s.Switch?
    ensures Keeps(LowerSwitch(p, ctrl, pending, s, ids).code)
    decreases s, 1
  {
    var x := LowerExpr(p, s.disc, ids);
    var end, dflt := L(p, "switch_end", x.ids, 0), L(p, "switch_default", x.ids, 1);
    var labels := CaseLabels(p, s.cases, 0, dflt, Labels(x.ids, 2));
    var tests := LowerTests(p, x.value, s.cases, labels.0, labels.1);
    var target := if HasDefault(s.cases) then dflt else end;
    var ctrl' := PushTargets(ctrl, pending, end, None);
    var y := LowerCases(p, ctrl', s.cases, labels.0, tests.ids);
    ExprKeeps(p, s.disc, ids);
    TestsPlain(p, x.value, s.cases, labels.0, labels.1); PlainKeeps(tests.code);
    CasesKeep(p, ctrl', s.cases, labels.0, tests.ids);
    PlainKeeps([Jump(target)]);
    PlainKeeps([LabelAt(end)]);
    Keeps3([Jump(target)], y.code, [LabelAt(end)]);
    Keeps3(x.code, tests.code, [Jump(target)] + (y.code + [LabelAt(end)]));
  }

  lemma {:induction false} TryStmtKeeps(p: seq<nat>, ctrl: seq<ControlTarget>, pending: seq<string>, s: Stmt, ids: Ids)
    requires s.Try?
    ensures Keeps(LowerTry(p, s, ids).code)
    decreases s, 1
  {
    var start := Ids(0, 0, 0);
    var i := LowerTry(p, s, ids).code[0];
    var ids1 := Child(ids);
    var ids2 := if s.handler.Some? then Child(ids1) else ids1;
    ListKeeps(p + [ids.child], [], s.block, start);
    ScopeKeeps(LowerList(p + [ids.child], [], s.block, start).code);
    PlainKeeps([]);
    if s.handler.Some? {
      ListKeeps(p + [ids1.child], [], s.handler.value.body, start);
      ScopeKeeps(LowerList(p + [ids1.child], [], s.handler.value.body, start).code);
    }
    if s.finalizer.Finally? {
      ListKeeps(p + [ids2.child], [], s.finalizer.body, start);
      ScopeKeeps(LowerList(p + [ids2.child], [], s.finalizer.body, start).code);
    }
    TryKeeps(i.body, i.param, i.catchBody, i.finallyBody);
  }
}
