/** What lowering produces: the instructions, operand and fresh-name counters that
    each construct yields. The class in LoweringContext.dfy computes exactly this. */
module Lower {
  import opened Syntax
  import opened Ir

  /** Next free temporary, label and child-context numbers. */
  datatype Ids = Ids(temp: nat, lbl: nat, child: nat)

  datatype ControlTarget = ControlTarget(name: Option<string>, brk: Label, cont: Option<Label>)

  datatype LoweredExpr = LoweredExpr(code: seq<Instr>, value: Operand, ids: Ids)
  datatype LoweredArgs = LoweredArgs(code: seq<Instr>, values: seq<Operand>, ids: Ids)
  datatype Lowered = Lowered(code: seq<Instr>, ids: Ids)

  function L(p: seq<nat>, stem: string, ids: Ids, k: nat): Label {
    CodeLabel(p, stem, ids.lbl + k)
  }

  function Temp(ids: Ids): Ids { ids.(temp := ids.temp + 1) }
  function Labels(ids: Ids, k: nat): Ids { ids.(lbl := ids.lbl + k) }
  function Child(ids: Ids): Ids { ids.(child := ids.child + 1) }

  // ---- control targets ----------------------------------------------------------

  function PendingTargets(pending: seq<string>, brk: Label, cont: Option<Label>): seq<ControlTarget> {
    if pending == [] then []
    else [ControlTarget(Some(pending[0]), brk, cont)] + PendingTargets(pending[1..], brk, cont)
  }

  function PushTargets(ctrl: seq<ControlTarget>, pending: seq<string>, brk: Label,
                       cont: Option<Label>): seq<ControlTarget> {
    ctrl + [ControlTarget(None, brk, cont)] + PendingTargets(pending, brk, cont)
  }

  function ResolveBreak(ctrl: seq<ControlTarget>, name: Option<string>): Option<Label> {
    if ctrl == [] then None
    else
      var t := ctrl[|ctrl| - 1];
      if t.name == name then Some(t.brk) else ResolveBreak(ctrl[..|ctrl| - 1], name)
  }

  function ResolveContinue(ctrl: seq<ControlTarget>, name: Option<string>): Option<Label> {
    if ctrl == [] then None
    else
      var t := ctrl[|ctrl| - 1];
      if t.name == name && t.cont.Some? then t.cont else ResolveContinue(ctrl[..|ctrl| - 1], name)
  }

  // ---- expressions -------------------------------------------------------------

  function LowerName(x: string, ids: Ids): LoweredExpr {
    if x == "undefined" then LoweredExpr([], Const(Undefined), ids)
    else if x == "NaN" then LoweredExpr([], Const(Number(NaN)), ids)
    else if x == "Infinity" then LoweredExpr([], Const(Number(Infinity)), ids)
    else LoweredExpr([LoadName(ids.temp, x)], Register(ids.temp), Temp(ids))
  }

  /** What stands between the operands of `&&`, and after the right one. */
  function AndCode(p: seq<nat>, a: LoweredExpr, right: Operand): (seq<Instr>, seq<Instr>) {
    var dst := a.ids.temp;
    var end := L(p, "logical_and_end", a.ids, 0);
    ([Move(dst, a.value), JumpIfFalse(a.value, end)],
     [Move(dst, right), LabelAt(end)])
  }

  function OrCode(p: seq<nat>, a: LoweredExpr, right: Operand): (seq<Instr>, seq<Instr>) {
    var dst := a.ids.temp;
    var rhs := L(p, "logical_or_rhs", a.ids, 0);
    var end := L(p, "logical_or_end", a.ids, 1);
    ([Move(dst, a.value), JumpIfFalse(a.value, rhs), Jump(end), LabelAt(rhs)],
     [Move(dst, right), LabelAt(end)])
  }

  function NullishCode(p: seq<nat>, a: LoweredExpr, right: Operand): (seq<Instr>, seq<Instr>) {
    var dst := a.ids.temp;
    var check := L(p, "nullish_check_undefined", a.ids, 0);
    var rhs := L(p, "nullish_rhs", a.ids, 1);
    var end := L(p, "nullish_end", a.ids, 2);
    ([Move(dst, a.value), BinaryInstr(dst + 1, "==", a.value, Const(Null)),
      JumpIfFalse(Register(dst + 1), check), Jump(rhs), LabelAt(check),
      BinaryInstr(dst + 2, "==", a.value, Const(Undefined)),
      JumpIfFalse(Register(dst + 2), end), LabelAt(rhs)],
     [Move(dst, right), LabelAt(end)])
  }

  /** What follows the middle and the last operand of a conditional. */
  function CondCode(p: seq<nat>, ids: Ids, cons: Operand, alt: Operand): (seq<Instr>, seq<Instr>) {
    var els := L(p, "cond_else", ids, 0);
    var end := L(p, "cond_end", ids, 1);
    ([Move(ids.temp, cons), Jump(end), LabelAt(els)],
     [Move(ids.temp, alt), LabelAt(end)])
  }

  function LowerExpr(p: seq<nat>, e: Expr, ids: Ids): LoweredExpr
    decreases e, 2
  {
    match e
    case Lit(v) => LoweredExpr([LoadConst(ids.temp, v)], Register(ids.temp), Temp(ids))
    case Name(x) => LowerName(x, ids)
    case Bin(_, _, _) => LowerBinary(p, e, ids)
    case Unary(_, _) => LowerUnary(p, e, ids)
    case And(_, _) => LowerAnd(p, e, ids)
    case Or(_, _) => LowerOr(p, e, ids)
    case Nullish(_, _) => LowerNullish(p, e, ids)
    case Cond(_, _, _) => LowerCond(p, e, ids)
    case Seq(es) => LowerSeq(p, es, Const(Undefined), ids)
    case Assign(_, _) => LowerAssign(p, e, ids)
    case AssignOp(_, _, _) => LowerAssignOp(p, e, ids)
    case Update(op, prefix, x) => LowerIncDec(op, prefix, x, ids)
    case Call(_, _) => LowerCall(p, e, ids)
    case Fn(fn) => LoweredExpr([FunctionExpr(ids.temp, fn)], Register(ids.temp), Child(Temp(ids)))
  }

  function LowerBinary(p: seq<nat>, e: Expr, ids: Ids): LoweredExpr
    requires e.Bin?
    decreases e, 1
  {
    var a := LowerExpr(p, e.left, ids);
    var b := LowerExpr(p, e.right, a.ids);
    LoweredExpr(a.code + (b.code + [BinaryInstr(b.ids.temp, e.infix, a.value, b.value)]), Register(b.ids.temp),
        Temp(b.ids))
  }

  function LowerUnary(p: seq<nat>, e: Expr, ids: Ids): LoweredExpr
    requires e.Unary?
    decreases e, 1
  {
    var a := LowerExpr(p, e.arg, ids);
    LoweredExpr(a.code + [UnaryInstr(a.ids.temp, e.sign, a.value)], Register(a.ids.temp), Temp(a.ids))
  }

  function LowerAnd(p: seq<nat>, e: Expr, ids: Ids): LoweredExpr
    requires e.And?
    decreases e, 1
  {
    var a := LowerExpr(p, e.left, ids);
    var b := LowerExpr(p, e.right, Labels(Temp(a.ids), 1));
    var (mid, tail) := AndCode(p, a, b.value);
    LoweredExpr(a.code + (mid + (b.code + tail)), Register(a.ids.temp), b.ids)
  }

  function LowerOr(p: seq<nat>, e: Expr, ids: Ids): LoweredExpr
    requires e.Or?
    decreases e, 1
  {
    var a := LowerExpr(p, e.left, ids);
    var b := LowerExpr(p, e.right, Labels(Temp(a.ids), 2));
    var (mid, tail) := OrCode(p, a, b.value);
    LoweredExpr(a.code + (mid + (b.code + tail)), Register(a.ids.temp), b.ids)
  }

  function LowerNullish(p: seq<nat>, e: Expr, ids: Ids): LoweredExpr
    requires e.Nullish?
    decreases e, 1
  {
    var a := LowerExpr(p, e.left, ids);
    var b := LowerExpr(p, e.right, Labels(Temp(Temp(Temp(a.ids))), 3));
    var (mid, tail) := NullishCode(p, a, b.value);
    LoweredExpr(a.code + (mid + (b.code + tail)), Register(a.ids.temp), b.ids)
  }

  function LowerCond(p: seq<nat>, e: Expr, ids: Ids): LoweredExpr
    requires e.Cond?
    decreases e, 1
  {
    var x := LowerExpr(p, e.test, Labels(Temp(ids), 2));
    var y := LowerExpr(p, e.cons, x.ids);
    var z := LowerExpr(p, e.alt, y.ids);
    var (m2, m3) := CondCode(p, ids, y.value, z.value);
    LoweredExpr(x.code + ([JumpIfFalse(x.value, L(p, "cond_else", ids, 0))] + (y.code + (m2 + (z.code + m3)))),
                Register(ids.temp), z.ids)
  }

  function LowerAssign(p: seq<nat>, e: Expr, ids: Ids): LoweredExpr
    requires e.Assign?
    decreases e, 1
  {
    var a := LowerExpr(p, e.right, ids);
    LoweredExpr(a.code + [StoreName(e.name, a.value)], a.value, a.ids)
  }

  function LowerAssignOp(p: seq<nat>, e: Expr, ids: Ids): LoweredExpr
    requires e.AssignOp?
    decreases e, 1
  {
    var b := LowerExpr(p, e.right, Temp(ids));
    var dst := b.ids.temp;
    LoweredExpr([LoadName(ids.temp, e.name)]
        + (b.code + [BinaryInstr(dst, e.op, Register(ids.temp), b.value), StoreName(e.name, Register(dst))]),
                Register(dst), Temp(b.ids))
  }

  function LowerIncDec(op: string, prefix: bool, x: string, ids: Ids): LoweredExpr {
    var a := LowerName(x, ids);
    var dst := a.ids.temp;
    LoweredExpr(a.code + [UnaryInstr(dst, op, a.value), StoreName(x, Register(dst))],
                if prefix then Register(dst) else a.value, Temp(a.ids))
  }

  function LowerCall(p: seq<nat>, e: Expr, ids: Ids): LoweredExpr
    requires e.Call?
    decreases e, 1
  {
    var a := LowerExpr(p, e.callee, ids);
    var b := LowerArgs(p, e.args, Temp(a.ids));
    LoweredExpr(a.code + (b.code + [CallInstr(a.ids.temp, a.value, b.values)]), Register(a.ids.temp), b.ids)
  }

  /** Operands of a comma list are evaluated in turn; the last one is the value. */
  function LowerSeq(p: seq<nat>, es: seq<Expr>, last: Operand, ids: Ids): LoweredExpr
    decreases es, 0
  {
    if es == [] then LoweredExpr([], last, ids)
    else
      var a := LowerExpr(p, es[0], ids);
      var b := LowerSeq(p, es[1..], a.value, a.ids);
      LoweredExpr(a.code + b.code, b.value, b.ids)
  }

  function LowerArgs(p: seq<nat>, es: seq<Expr>, ids: Ids): (r: LoweredArgs)
    ensures |r.values| == |es|
    decreases es, 0
  {
    if es == [] then LoweredArgs([], [], ids)
    else
      var a := LowerExpr(p, es[0], ids);
      var b := LowerArgs(p, es[1..], a.ids);
      LoweredArgs(a.code + b.code, [a.value] + b.values, b.ids)
  }

  function LowerOpt(p: seq<nat>, e: Option<Expr>, none: Operand, ids: Ids): LoweredExpr {
    match e
    case None => LoweredExpr([], none, ids)
    case Some(e) => LowerExpr(p, e, ids)
  }

  // ---- statements --------------------------------------------------------------

  function LowerExprStmt(p: seq<nat>, e: Expr, ids: Ids): Lowered {
    var a := LowerExpr(p, e, ids);
    match a.value
    case Register(_) => Lowered(a.code + [Pop(a.value)], a.ids)
    case Const(_) => Lowered(a.code + [Move(a.ids.temp, a.value), Pop(Register(a.ids.temp))], Temp(a.ids))
  }

  function LowerDecls(p: seq<nat>, kind: DeclKind, decls: seq<Declarator>, ids: Ids): Lowered {
    if decls == [] then Lowered([], ids)
    else
      var a := LowerOpt(p, decls[0].init, Const(Undefined), ids);
      var b := LowerDecls(p, kind, decls[1..], a.ids);
      Lowered(a.code + ([DeclareName(kind, decls[0].name), StoreName(decls[0].name, a.value)] + b.code), b.ids)
  }

  /** A test, and the jump taken when it is false; without a test, nothing. */
  function LowerTest(p: seq<nat>, t: Option<Expr>, end: Label, ids: Ids): Lowered {
    match t
    case None => Lowered([], ids)
    case Some(e) =>
      var a := LowerExpr(p, e, ids);
      Lowered(a.code + [JumpIfFalse(a.value, end)], a.ids)
  }

  /** An expression whose value is dropped. */
  function LowerUpdate(p: seq<nat>, u: Option<Expr>, ids: Ids): Lowered {
    match u
    case None => Lowered([], ids)
    case Some(e) =>
      var a := LowerExpr(p, e, ids);
      Lowered(a.code + [Pop(a.value)], a.ids)
  }

  function LowerInit(p: seq<nat>, init: ForInit, ids: Ids): Lowered {
    match init
    case NoInit => Lowered([], ids)
    case InitExpr(e) => LowerUpdate(p, Some(e), ids)
    case InitDecl(kind, decls) => LowerDecls(p, kind, decls, ids)
  }

  function CopyLoads(names: seq<string>, temp: nat): seq<Instr> {
    if names == [] then [] else [LoadName(temp, names[0])] + CopyLoads(names[1..], temp + 1)
  }

  function CopyStores(names: seq<string>, temp: nat): seq<Instr> {
    if names == [] then []
    else [DeclareName(LetKind, names[0]), StoreName(names[0], Register(temp))] + CopyStores(names[1..], temp + 1)
  }

  /** Reads the loop bindings, replaces (or first opens) the iteration's frame, and
      binds the copies in it. */
  function PerIteration(names: seq<string>, leave: bool, ids: Ids): Lowered {
    Lowered(CopyLoads(names, ids.temp)
            + ((if leave then [LeaveScope, EnterScope] else [EnterScope]) + CopyStores(names, ids.temp)),
            ids.(temp := ids.temp + |names|))
  }

  function LowerStmt(p: seq<nat>, ctrl: seq<ControlTarget>, pending: seq<string>, s: Stmt, ids: Ids): Lowered
    decreases s, 2
  {
    match s
    case Empty => Lowered([], ids)
    case ExprStmt(e) => LowerExprStmt(p, e, ids)
    case Decl(kind, decls) => LowerDecls(p, kind, decls, ids)
    case Block(_) => LowerBlockScope(p, ctrl, s, ids)
    case If(_, _, _) => LowerIf(p, ctrl, s, ids)
    case While(_, _) => LowerWhile(p, ctrl, pending, s, ids)
    case DoWhile(_, _) => LowerDoWhile(p, ctrl, pending, s, ids)
    case For(_, _, _, _) =>
      if IsLexicalFor(s) then LowerForLexical(p, ctrl, pending, s, ids) else LowerForUnscoped(p, ctrl, pending, s, ids)
    case Switch(_, _) => LowerSwitch(p, ctrl, pending, s, ids)
    case Labeled(_, _) => LowerLabeled(p, ctrl, pending, s, ids)
    case Break(t) => LowerJump(ResolveBreak(ctrl, t), "break", ids)
    case Continue(t) => LowerJump(ResolveContinue(ctrl, t), "continue", ids)
    case Return(arg) => LowerReturn(p, arg, ids)
    case Throw(e) => LowerThrow(p, e, ids)
    case Try(_, _, _) => LowerTry(p, s, ids)
  }

  /** A jump to the target, or a marker where there is none. */
  function LowerJump(l: Option<Label>, text: string, ids: Ids): Lowered {
    Lowered(if l.Some? then [Jump(l.value)] else [Marker(text)], ids)
  }

  function LowerReturn(p: seq<nat>, arg: Option<Expr>, ids: Ids): Lowered {
    match arg
    case None => Lowered([ReturnInstr(None)], ids)
    case Some(e) =>
      var a := LowerExpr(p, e, ids);
      Lowered(a.code + [ReturnInstr(Some(a.value))], a.ids)
  }

  function LowerThrow(p: seq<nat>, e: Expr, ids: Ids): Lowered {
    var a := LowerExpr(p, e, ids);
    Lowered(a.code + [ThrowInstr(a.value)], a.ids)
  }

  predicate IsLexicalFor(s: Stmt) {
    s.For? && s.init.InitDecl? && !s.init.kind.VarKind?
  }

  function LowerBlockScope(p: seq<nat>, ctrl: seq<ControlTarget>, s: Stmt, ids: Ids): Lowered
    requires s.Block?
    decreases s, 1
  {
    var b := LowerList(p, ctrl, s.body, ids);
    Lowered([Scope(b.code)], b.ids)
  }

  function LowerIf(p: seq<nat>, ctrl: seq<ControlTarget>, s: Stmt, ids: Ids): Lowered
    requires s.If?
    decreases s, 1
  {
    var els := L(p, "if_else", ids, 0);
    var end := L(p, "if_end", ids, 1);
    var x := LowerTest(p, Some(s.test), els, Labels(ids, 2));
    var y := LowerStmt(p, ctrl, [], s.cons, x.ids);
    var z := (match s.alt case Some(b) => LowerStmt(p, ctrl, [], b, y.ids) case None => Lowered([], y.ids));
    Lowered(x.code + (y.code + ([Jump(end), LabelAt(els)] + (z.code + [LabelAt(end)]))), z.ids)
  }

  function LowerWhile(p: seq<nat>, ctrl: seq<ControlTarget>, pending: seq<string>, s: Stmt, ids: Ids): Lowered
    requires s.While?
    decreases s, 1
  {
    var start := L(p, "while_start", ids, 0);
    var end := L(p, "while_end", ids, 1);
    var x := LowerTest(p, Some(s.test), end, Labels(ids, 2));
    var y := LowerStmt(p, PushTargets(ctrl, pending, end, Some(start)), [], s.stmt, x.ids);
    Lowered([LabelAt(start)] + (x.code + (y.code + [Jump(start), LabelAt(end)])), y.ids)
  }

  function LowerDoWhile(p: seq<nat>, ctrl: seq<ControlTarget>, pending: seq<string>, s: Stmt, ids: Ids): Lowered
    requires s.DoWhile?
    decreases s, 1
  {
    var start := L(p, "do_start", ids, 0);
    var test := L(p, "do_test", ids, 1);
    var end := L(p, "do_end", ids, 2);
    var y := LowerStmt(p, PushTargets(ctrl, pending, end, Some(test)), [], s.stmt, Labels(ids, 3));
    var x := LowerTest(p, Some(s.test), end, y.ids);
    Lowered([LabelAt(start)] + (y.code + ([LabelAt(test)] + (x.code + [Jump(start), LabelAt(end)]))), x.ids)
  }

  function LowerForLexical(p: seq<nat>, ctrl: seq<ControlTarget>, pending: seq<string>, s: Stmt, ids: Ids): Lowered
    requires IsLexicalFor(s)
    decreases s, 1
  {
    var names := BoundNames(s.init.decls);
    var i := LowerInit(p, s.init, ids);
    var c := PerIteration(names, false, i.ids);
    var start := L(p, "for_start", c.ids, 0);
    var next := L(p, "for_update", c.ids, 1);
    var end := L(p, "for_end", c.ids, 2);
    var x := LowerTest(p, s.guard, end, Labels(c.ids, 3));
    var y := LowerStmt(p, PushTargets(ctrl, pending, end, Some(next)), [], s.stmt, x.ids);
    var d := PerIteration(names, true, y.ids);
    var z := LowerUpdate(p, s.update, d.ids);
    Lowered([Scope(i.code + (c.code + ([LabelAt(start)] + (x.code + (y.code + ([LabelAt(next)] + (d.code
                   + (z.code + [Jump(start), LabelAt(end), LeaveScope]))))))))], z.ids)
  }

  function LowerForUnscoped(p: seq<nat>, ctrl: seq<ControlTarget>, pending: seq<string>, s: Stmt, ids: Ids): Lowered
    requires s.For? && !IsLexicalFor(s)
    decreases s, 1
  {
    var i := LowerInit(p, s.init, ids);
    var start := L(p, "for_start", i.ids, 0);
    var next := L(p, "for_update", i.ids, 1);
    var end := L(p, "for_end", i.ids, 2);
    var x := LowerTest(p, s.guard, end, Labels(i.ids, 3));
    var y := LowerStmt(p, PushTargets(ctrl, pending, end, Some(next)), [], s.stmt, x.ids);
    var z := LowerUpdate(p, s.update, y.ids);
    Lowered(i.code + ([LabelAt(start)]
        + (x.code + (y.code + ([LabelAt(next)] + (z.code + [Jump(start), LabelAt(end)]))))), z.ids)
  }

  function LowerSwitch(p: seq<nat>, ctrl: seq<ControlTarget>, pending: seq<string>, s: Stmt, ids: Ids): Lowered
    requires s.Switch?
    decreases s, 1
  {
    var x := LowerExpr(p, s.disc, ids);
    var end := L(p, "switch_end", x.ids, 0);
    var dflt := L(p, "switch_default", x.ids, 1);
    var labels := CaseLabels(p, s.cases, 0, dflt, Labels(x.ids, 2));
    var tests := LowerTests(p, x.value, s.cases, labels.0, labels.1);
    var target := if HasDefault(s.cases) then dflt else end;
    var y := LowerCases(p, PushTargets(ctrl, pending, end, None), s.cases, labels.0, tests.ids);
    Lowered(x.code + (tests.code + ([Jump(target)] + (y.code + [LabelAt(end)]))), y.ids)
  }

  function LowerLabeled(p: seq<nat>, ctrl: seq<ControlTarget>, pending: seq<string>, s: Stmt, ids: Ids): Lowered
    requires s.Labeled?
    decreases s, 1
  {
    if IsControlTarget(s.stmt) then LowerStmt(p, ctrl, pending + [s.name], s.stmt, ids)
    else
      var end := L(p, "label_end", ids, 0);
      var y := LowerStmt(p, ctrl + [ControlTarget(Some(s.name), end, None)], [], s.stmt, Labels(ids, 1));
      Lowered(y.code + [LabelAt(end)], y.ids)
  }

  function LowerTry(p: seq<nat>, s: Stmt, ids: Ids): Lowered
    requires s.Try?
    decreases s, 1
  {
    // every part is lowered in a context of its own: no control targets, numbering restarted
    var start := Ids(0, 0, 0);
    var b := LowerList(p + [ids.child], [], s.block, start);
    var ids1 := Child(ids);
    var (catchBody, param, ids2) := (
      match s.handler
      case None => ([], None, ids1)
      case Some(h) => ([Scope(LowerList(p + [ids1.child], [], h.body, start).code)], h.param, Child(ids1)));
    var (finallyBody, ids3) := (
      match s.finalizer
      case NoFinally => ([], ids2)
      case Finally(f) => ([Scope(LowerList(p + [ids2.child], [], f, start).code)], Child(ids2)));
    Lowered([TryInstr([Scope(b.code)], param, catchBody, finallyBody)], ids3)
  }

  function LowerList(p: seq<nat>, ctrl: seq<ControlTarget>, ss: seq<Stmt>, ids: Ids): Lowered
    decreases ss, 1
  {
    if ss == [] then Lowered([], ids)
    else
      var a := LowerStmt(p, ctrl, [], ss[0], ids);
      var b := LowerList(p, ctrl, ss[1..], a.ids);
      Lowered(a.code + b.code, b.ids)
  }

  predicate HasDefault(cases: seq<Case>) {
    exists k :: 0 <= k < |cases| && cases[k].test.None?
  }

  function CaseLabels(p: seq<nat>, cases: seq<Case>, from: nat, dflt: Label, ids: Ids): (r: (seq<Label>, Ids))
    ensures |r.0| == |cases|
  {
    if cases == [] then ([], ids)
    else if cases[0].test.Some? then
      var rest := CaseLabels(p, cases[1..], from + 1, dflt, Labels(ids, 1));
      ([L(p, "switch_case_" + Decimal(from), ids, 0)] + rest.0, rest.1)
    else
      var rest := CaseLabels(p, cases[1..], from + 1, dflt, ids);
      ([dflt] + rest.0, rest.1)
  }

  function LowerTests(p: seq<nat>, d: Operand, cases: seq<Case>, labels: seq<Label>, ids: Ids): Lowered
    requires |labels| == |cases|
  {
    if cases == [] then Lowered([], ids)
    else
      match cases[0].test
      case None => LowerTests(p, d, cases[1..], labels[1..], ids)
      case Some(e) =>
        var a := LowerExpr(p, e, ids);
        var cmp := a.ids.temp;
        var next := L(p, "switch_next", a.ids, 0);
        var b := LowerTests(p, d, cases[1..], labels[1..], Labels(Temp(a.ids), 1));
        Lowered(a.code + ([BinaryInstr(cmp, "===", d, a.value), JumpIfFalse(Register(cmp), next), Jump(labels[0]),
            LabelAt(next)] + b.code), b.ids)
  }

  function LowerCases(p: seq<nat>, ctrl: seq<ControlTarget>, cases: seq<Case>, labels: seq<Label>, ids: Ids): Lowered
    requires |labels| == |cases|
    decreases cases, 1
  {
    if cases == [] then Lowered([], ids)
    else
      var a := LowerList(p, ctrl, cases[0].body, ids);
      var b := LowerCases(p, ctrl, cases[1..], labels[1..], a.ids);
      Lowered([LabelAt(labels[0])] + (a.code + b.code), b.ids)
  }

  function Digit(d: nat): char
    requires d < 10
  {
    "0123456789"[d]
  }

  function Decimal(n: nat): (s: string)
    ensures s != []
  {
    if n < 10 then [Digit(n)] else Decimal(n / 10) + [Digit(n % 10)]
  }
}
