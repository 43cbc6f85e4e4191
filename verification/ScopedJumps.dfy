/** Every jump of lowered code goes to a label at its own nesting level or an enclosing
    one, and to no deeper scope. */
module ScopedJumps {
  import opened Syntax
  import opened Ir
  import opened Lower
  import opened Machine
  import opened ExprSimulation
  import opened StmtShape
  import opened Regions

  /** The labels that stand in the code itself, not in what it nests. */
  function Here(code: seq<Instr>): set<Label> {
    if code == [] then {} else HereOne(code[0]) + Here(code[1..])
  }

  function HereOne(i: Instr): set<Label> { if i.LabelAt? then {i.l} else {} }

  /** `depthOf` gives every label the scope depth it stands at. */
  ghost predicate Sited(code: seq<Instr>, d: nat, depthOf: Label -> nat)
    decreases code, 0
  {
    code == [] || (SitedOne(code[0], d, depthOf) && Sited(code[1..], DepthFrom(d, LinearOne(code[0])), depthOf))
  }

  ghost predicate SitedOne(i: Instr, d: nat, depthOf: Label -> nat)
    decreases i, 1
  {
    match i
    case LabelAt(l) => depthOf(l) == d
    case Scope(body) => Sited(body, d + 1, depthOf)
    case TryInstr(body, _, catchBody, finallyBody) =>
      var d1 := DepthFrom(d, Linear(body));
      Sited(body, d, depthOf) && Sited(catchBody, d1, depthOf)
          && Sited(finallyBody, DepthFrom(d1, Linear(catchBody)), depthOf)
    case _ => true
  }

  /** Ends at the depth it begins at. */
  predicate Level(code: seq<Instr>, d: nat) { DepthFrom(d, Linear(code)) == d }

  /** Jumps go to labels in `visible`, which grows with the labels of each enclosing
      level and with nothing else, and never to a deeper scope; no scope is left that
      was not entered. */
  ghost predicate Scoped(code: seq<Instr>, d: nat, depthOf: Label -> nat, visible: set<Label>)
    decreases code, 0
  {
    code == [] || (ScopedOne(code[0], d, depthOf, visible)
        && Scoped(code[1..], DepthFrom(d, LinearOne(code[0])), depthOf, visible))
  }

  ghost predicate ScopedOne(i: Instr, d: nat, depthOf: Label -> nat, visible: set<Label>)
    decreases i, 1
  {
    match i
    case Jump(l) => l in visible && depthOf(l) <= d
    case JumpIfFalse(_, l) => l in visible && depthOf(l) <= d
    case LeaveScope => d > 0
    case Scope(body) => Level(body, d + 1) && Scoped(body, d + 1, depthOf, visible + Here(body))
    case TryInstr(body, _, catchBody, finallyBody) =>
      && Level(body, d) && Scoped(body, d, depthOf, visible + Here(body))
      && Level(catchBody, d) && Scoped(catchBody, d, depthOf, visible + Here(catchBody))
      && Level(finallyBody, d) && Scoped(finallyBody, d, depthOf, visible + Here(finallyBody))
    case _ => true
  }

  lemma {:induction false} Split(a: seq<Instr>, b: seq<Instr>, d: nat, depthOf: Label -> nat, visible: set<Label>)
    ensures Sited(a + b, d, depthOf) <==> Sited(a, d, depthOf) && Sited(b, DepthFrom(d, Linear(a)), depthOf)
    ensures Scoped(a + b, d, depthOf, visible) <==> Scoped(a, d, depthOf, visible)
                                                    && Scoped(b, DepthFrom(d, Linear(a)), depthOf, visible)
    ensures Here(a + b) == Here(a) + Here(b)
  {
    if a == [] {
      assert a + b == b;
    } else {
      assert (a + b)[1..] == a[1..] + b;
      var d1 := DepthFrom(d, LinearOne(a[0]));
      Split(a[1..], b, d1, depthOf, visible);
      DepthFromConcat(d, LinearOne(a[0]), Linear(a[1..]));
    }
  }

  /** The parts of `a + b` when `a` leaves the depth as it was. */
  lemma Parts(a: seq<Instr>, b: seq<Instr>, d: nat, depthOf: Label -> nat, visible: set<Label>)
    requires Keeps(a)
    ensures Sited(a + b, d, depthOf) <==> Sited(a, d, depthOf) && Sited(b, d, depthOf)
    ensures Scoped(a + b, d, depthOf, visible) <==> Scoped(a, d, depthOf, visible) && Scoped(b, d, depthOf, visible)
    ensures Here(a + b) == Here(a) + Here(b)
  {
    Split(a, b, d, depthOf, visible);
  }

  lemma {:induction false} PlainSited(code: seq<Instr>, d: nat, depthOf: Label -> nat)
    requires Plain(code) && Sited(code, d, depthOf)
    ensures forall l :: l in Here(code) ==> depthOf(l) == d
  {
    if code != [] {
      PlainDepth(code[0], d);
      PlainSited(code[1..], d, depthOf);
    }
  }

  lemma PlainDepth(i: Instr, d: nat)
    requires Plain([i])
    ensures DepthFrom(d, LinearOne(i)) == d
  {
    assert !([i][0].Scope? || [i][0].EnterScope? || [i][0].LeaveScope? || [i][0].TryInstr?);
    PlainKeeps([i]);
    assert Linear([i]) == LinearOne(i) + [];
    assert Linear([i]) == LinearOne(i);
  }

  predicate JumpsWithin(code: seq<Instr>, targets: set<Label>) {
    forall i :: 0 <= i < |code| ==>
      (code[i].Jump? ==> code[i].l in targets) && (code[i].JumpIfFalse? ==> code[i].l in targets)
  }

  lemma {:induction false} PlainScoped(code: seq<Instr>, d: nat, depthOf: Label -> nat, visible: set<Label>)
    requires Plain(code) && JumpsWithin(code, visible) && forall l :: l in visible ==> depthOf(l) <= d
    ensures Scoped(code, d, depthOf, visible)
  {
    if code != [] {
      PlainDepth(code[0], d);
      PlainScoped(code[1..], d, depthOf, visible);
    }
  }

  lemma {:induction false} MoreVisible(code: seq<Instr>, d: nat, depthOf: Label -> nat, few: set<Label>,
                                       many: set<Label>)
    requires Scoped(code, d, depthOf, few) && few <= many
    ensures Scoped(code, d, depthOf, many)
    decreases code, 0
  {
    if code != [] {
      MoreVisibleOne(code[0], d, depthOf, few, many);
      MoreVisible(code[1..], DepthFrom(d, LinearOne(code[0])), depthOf, few, many);
    }
  }

  lemma {:induction false} MoreVisibleOne(i: Instr, d: nat, depthOf: Label -> nat, few: set<Label>, many: set<Label>)
    requires ScopedOne(i, d, depthOf, few) && few <= many
    ensures ScopedOne(i, d, depthOf, many)
    decreases i, 1
  {
    match i
    case Scope(body) => MoreVisible(body, d + 1, depthOf, few + Here(body), many + Here(body));
    case TryInstr(body, _, catchBody, finallyBody) =>
      MoreVisible(body, d, depthOf, few + Here(body), many + Here(body));
      MoreVisible(catchBody, d, depthOf, few + Here(catchBody), many + Here(catchBody));
      MoreVisible(finallyBody, d, depthOf, few + Here(finallyBody), many + Here(finallyBody));
    case _ =>
  }

  // ---- expressions -----------------------------------------------------------------

  /** Jumps of the code stay in the code. */
  predicate Closed(code: seq<Instr>) { JumpsWithin(code, Here(code)) }

  lemma HereConcat(a: seq<Instr>, b: seq<Instr>)
    ensures Here(a + b) == Here(a) + Here(b)
  {
    Split(a, b, 0, l => 0, {});
  }

  lemma ClosedConcat(a: seq<Instr>, b: seq<Instr>)
    requires Closed(a) && Closed(b)
    ensures Closed(a + b)
  {
    HereConcat(a, b);
  }

  lemma {:induction false} HereHas(code: seq<Instr>, i: nat)
    requires i < |code| && code[i].LabelAt?
    ensures code[i].l in Here(code)
  {
    if i > 0 { HereHas(code[1..], i - 1); }
  }

  /** An operand between two pieces of code whose jumps go to labels of either piece. */
  lemma ClosedAround(mid: seq<Instr>, b: seq<Instr>, tail: seq<Instr>)
    requires Closed(b) && JumpsWithin(mid, Here(mid) + Here(tail)) && JumpsWithin(tail, Here(mid) + Here(tail))
    ensures Closed(mid + (b + tail))
  {
    HereConcat(mid, b + tail);
    HereConcat(b, tail);
  }

  lemma {:induction false} ExprClosed(p: seq<nat>, e: Expr, ids: Ids)
    ensures Closed(LowerExpr(p, e, ids).code)
    decreases e, 2
  {
    hide Here;
    match e
    case Lit(_) | Name(_) | Fn(_) | Update(_, _, _) =>
    case Bin(op, l, r) =>
      assert LowerExpr(p, e, ids) == LowerBinary(p, e, ids);
      var a := LowerExpr(p, l, ids);
      var b := LowerExpr(p, r, a.ids);
      ExprClosed(p, l, ids);
      ExprClosed(p, r, a.ids);
      ClosedConcat(b.code, [BinaryInstr(b.ids.temp, op, a.value, b.value)]);
      ClosedConcat(a.code, b.code + [BinaryInstr(b.ids.temp, op, a.value, b.value)]);
    case Unary(op, x) =>
      var a := LowerExpr(p, x, ids);
      ExprClosed(p, x, ids);
      ClosedConcat(a.code, [UnaryInstr(a.ids.temp, op, a.value)]);
    case And(_, _) | Or(_, _) | Nullish(_, _) => ShortCircuitClosed(p, e, ids);
    case Cond(_, _, _) => CondClosed(p, e, ids);
    case Seq(es) => SeqClosed(p, es, Const(Undefined), ids);
    case Assign(n, r) =>
      var a := LowerExpr(p, r, ids);
      ExprClosed(p, r, ids);
      ClosedConcat(a.code, [StoreName(n, a.value)]);
    case AssignOp(op, n, r) =>
      assert LowerExpr(p, e, ids) == LowerAssignOp(p, e, ids);
      var b := LowerExpr(p, r, Temp(ids));
      var tail := [BinaryInstr(b.ids.temp, op, Register(ids.temp), b.value), StoreName(n, Register(b.ids.temp))];
      ExprClosed(p, r, Temp(ids));
      ClosedConcat(b.code, tail);
      ClosedConcat([LoadName(ids.temp, n)], b.code + tail);
    case Call(f, args) =>
      assert LowerExpr(p, e, ids) == LowerCall(p, e, ids);
      var a := LowerExpr(p, f, ids);
      var b := LowerArgs(p, args, Temp(a.ids));
      ExprClosed(p, f, ids);
      ArgsClosed(p, args, Temp(a.ids));
      ClosedConcat(b.code, [CallInstr(a.ids.temp, a.value, b.values)]);
      ClosedConcat(a.code, b.code + [CallInstr(a.ids.temp, a.value, b.values)]);
  }

  lemma {:induction false} ShortCircuitClosed(p: seq<nat>, e: Expr, ids: Ids)
    requires e.And? || e.Or? || e.Nullish?
    ensures Closed(LowerExpr(p, e, ids).code)
    decreases e, 1
  {
    hide Here;
    var a := LowerExpr(p, e.left, ids);
    var n := if e.And? then 1 else if e.Or? then 2 else 3;
    var ids1 := Labels(if e.Nullish? then Temp(Temp(Temp(a.ids))) else Temp(a.ids), n);
    var b := LowerExpr(p, e.right, ids1);
    var (mid, tail) := if e.And? then AndCode(p, a, b.value)
                                      else if e.Or? then OrCode(p, a, b.value) else NullishCode(p, a, b.value);
    assert LowerExpr(p, e, ids) == LoweredExpr(a.code + (mid + (b.code + tail)), Register(a.ids.temp), b.ids);
    ExprClosed(p, e.left, ids);
    ExprClosed(p, e.right, ids1);
    HereHas(tail, 1);
    if e.Or? { HereHas(mid, 3); }
    if e.Nullish? { HereHas(mid, 4); HereHas(mid, 7); }
    ClosedAround(mid, b.code, tail);
    ClosedConcat(a.code, mid + (b.code + tail));
  }

  lemma {:induction false} CondClosed(p: seq<nat>, e: Expr, ids: Ids)
    requires e.Cond?
    ensures Closed(LowerExpr(p, e, ids).code)
    decreases e, 1
  {
    hide Here;
    assert LowerExpr(p, e, ids) == LowerCond(p, e, ids);
    var ids0 := Labels(Temp(ids), 2);
    var x := LowerExpr(p, e.test, ids0);
    var y := LowerExpr(p, e.cons, x.ids);
    var z := LowerExpr(p, e.alt, y.ids);
    var (m2, m3) := CondCode(p, ids, y.value, z.value);
    var jump := [JumpIfFalse(x.value, L(p, "cond_else", ids, 0))];
    ExprClosed(p, e.test, ids0);
    ExprClosed(p, e.cons, x.ids);
    ExprClosed(p, e.alt, y.ids);
    HereHas(m2, 2);
    HereHas(m3, 1);
    ClosedAround(m2, z.code, m3);
    HereConcat(m2, z.code + m3);
    HereConcat(z.code, m3);
    ClosedAround(jump, y.code, m2 + (z.code + m3));
    ClosedConcat(x.code, jump + (y.code + (m2 + (z.code + m3))));
  }

  lemma {:induction false} SeqClosed(p: seq<nat>, es: seq<Expr>, last: Operand, ids: Ids)
    ensures Closed(LowerSeq(p, es, last, ids).code)
    decreases es, 0
  {
    if es != [] {
      var a := LowerExpr(p, es[0], ids);
      ExprClosed(p, es[0], ids);
      SeqClosed(p, es[1..], a.value, a.ids);
      ClosedConcat(a.code, LowerSeq(p, es[1..], a.value, a.ids).code);
    }
  }

  lemma {:induction false} ArgsClosed(p: seq<nat>, es: seq<Expr>, ids: Ids)
    ensures Closed(LowerArgs(p, es, ids).code)
    decreases es, 0
  {
    if es != [] {
      var a := LowerExpr(p, es[0], ids);
      ExprClosed(p, es[0], ids);
      ArgsClosed(p, es[1..], a.ids);
      ClosedConcat(a.code, LowerArgs(p, es[1..], a.ids).code);
    }
  }

  // ---- statements ------------------------------------------------------------------

  /** Every target in force is visible, and no deeper than the statement. */
  ghost predicate Targets(ctrl: seq<ControlTarget>, d: nat, depthOf: Label -> nat, visible: set<Label>) {
    forall i :: 0 <= i < |ctrl| ==>
      Target(ctrl[i].brk, d, depthOf, visible)
          && (ctrl[i].cont.Some? ==> Target(ctrl[i].cont.value, d, depthOf, visible))
  }

  ghost predicate Target(l: Label, d: nat, depthOf: Label -> nat, visible: set<Label>) {
    l in visible && depthOf(l) <= d
  }

  lemma {:induction false} PendingTarget(pending: seq<string>, brk: Label, cont: Option<Label>, d: nat,
                                         depthOf: Label -> nat, visible: set<Label>)
    requires Target(brk, d, depthOf, visible) && (cont.Some? ==> Target(cont.value, d, depthOf, visible))
    ensures Targets(PendingTargets(pending, brk, cont), d, depthOf, visible)
  {
    if pending != [] { PendingTarget(pending[1..], brk, cont, d, depthOf, visible); }
  }

  lemma PushTarget(ctrl: seq<ControlTarget>, pending: seq<string>, brk: Label, cont: Option<Label>, d: nat,
                   depthOf: Label -> nat, visible: set<Label>)
    requires Targets(ctrl, d, depthOf, visible) && Target(brk, d, depthOf, visible)
             && (cont.Some? ==> Target(cont.value, d, depthOf, visible))
    ensures Targets(PushTargets(ctrl, pending, brk, cont), d, depthOf, visible)
  {
    PendingTarget(pending, brk, cont, d, depthOf, visible);
    var c := PushTargets(ctrl, pending, brk, cont);
    forall i | 0 <= i < |c|
      ensures Target(c[i].brk, d, depthOf, visible)
              && (c[i].cont.Some? ==> Target(c[i].cont.value, d, depthOf, visible))
    {
      if i > |ctrl| { assert c[i] == PendingTargets(pending, brk, cont)[i - |ctrl| - 1]; }
    }
  }

  lemma {:induction false} ResolvedTarget(ctrl: seq<ControlTarget>, t: Option<string>, d: nat, depthOf: Label -> nat,
                                          visible: set<Label>)
    requires Targets(ctrl, d, depthOf, visible)
    ensures ResolveBreak(ctrl, t).Some? ==> Target(ResolveBreak(ctrl, t).value, d, depthOf, visible)
    ensures ResolveContinue(ctrl, t).Some? ==> Target(ResolveContinue(ctrl, t).value, d, depthOf, visible)
    decreases |ctrl|
  {
    if ctrl != [] { ResolvedTarget(ctrl[..|ctrl| - 1], t, d, depthOf, visible); }
  }

  lemma DeeperTargets(ctrl: seq<ControlTarget>, d: nat, e: nat, depthOf: Label -> nat, visible: set<Label>,
                      more: set<Label>)
    requires Targets(ctrl, d, depthOf, visible) && d <= e
    ensures Targets(ctrl, e, depthOf, visible + more)
  {
  }

  /** Plain code that jumps within itself, or to targets. */
  lemma PlainTo(code: seq<Instr>, extra: set<Label>, d: nat, depthOf: Label -> nat, visible: set<Label>)
    requires Plain(code) && Sited(code, d, depthOf) && Here(code) <= visible && JumpsWithin(code, Here(code) + extra)
    requires forall l :: l in extra ==> Target(l, d, depthOf, visible)
    ensures Scoped(code, d, depthOf, visible)
  {
    PlainSited(code, d, depthOf);
    PlainScoped(code, d, depthOf, Here(code) + extra);
    MoreVisible(code, d, depthOf, Here(code) + extra, visible);
  }

  lemma {:induction false} DeclsClosed(p: seq<nat>, kind: DeclKind, decls: seq<Declarator>, ids: Ids)
    ensures Closed(LowerDecls(p, kind, decls, ids).code)
  {
    if decls != [] {
      var a := LowerOpt(p, decls[0].init, Const(Undefined), ids);
      var b := LowerDecls(p, kind, decls[1..], a.ids);
      if decls[0].init.Some? { ExprClosed(p, decls[0].init.value, ids); }
      DeclsClosed(p, kind, decls[1..], a.ids);
      var two := [DeclareName(kind, decls[0].name), StoreName(decls[0].name, a.value)];
      ClosedConcat(two, b.code);
      ClosedConcat(a.code, two + b.code);
    }
  }

  lemma UpdateClosed(p: seq<nat>, u: Option<Expr>, ids: Ids)
    ensures Closed(LowerUpdate(p, u, ids).code)
  {
    if u.Some? {
      var a := LowerExpr(p, u.value, ids);
      ExprClosed(p, u.value, ids);
      ClosedConcat(a.code, [Pop(a.value)]);
    }
  }

  lemma InitClosed(p: seq<nat>, init: ForInit, ids: Ids)
    ensures Closed(LowerInit(p, init, ids).code)
  {
    match init
    case NoInit =>
    case InitExpr(e) => UpdateClosed(p, Some(e), ids);
    case InitDecl(kind, decls) => DeclsClosed(p, kind, decls, ids);
  }

  lemma TestClosed(p: seq<nat>, t: Option<Expr>, end: Label, ids: Ids)
    ensures var x := LowerTest(p, t, end, ids); JumpsWithin(x.code, Here(x.code) + {end})
  {
    if t.Some? {
      var a := LowerExpr(p, t.value, ids);
      ExprClosed(p, t.value, ids);
      HereConcat(a.code, [JumpIfFalse(a.value, end)]);
    }
  }

  /** A statement stands at depth `d`, its labels and targets visible. */
  ghost predicate Standing(code: seq<Instr>, ctrl: seq<ControlTarget>, d: nat, depthOf: Label -> nat,
                           visible: set<Label>) {
    Sited(code, d, depthOf) && Here(code) <= visible && Targets(ctrl, d, depthOf, visible)
  }

  /** The jumps of a lowered statement go to its own labels, or to targets in force. */
  lemma {:induction false} StmtScoped(p: seq<nat>, ctrl: seq<ControlTarget>, pending: seq<string>, s: Stmt, ids: Ids,
                                      d: nat, depthOf: Label -> nat, visible: set<Label>)
    requires Standing(LowerStmt(p, ctrl, pending, s, ids).code, ctrl, d, depthOf, visible)
    ensures Scoped(LowerStmt(p, ctrl, pending, s, ids).code, d, depthOf, visible)
    decreases s, 2
  {
    hide Here, Sited, Scoped, LowerExpr;
    match s
    case Empty | ExprStmt(_) | Decl(_, _) | Break(_) | Continue(_) | Return(_) | Throw(_) =>
        LeafScoped(p, ctrl, pending, s, ids, d, depthOf, visible);
    case Block(_) => BlockScoped(p, ctrl, pending, s, ids, d, depthOf, visible);
    case If(_, _, _) => IfScoped(p, ctrl, pending, s, ids, d, depthOf, visible);
    case While(_, _) => WhileScoped(p, ctrl, pending, s, ids, d, depthOf, visible);
    case DoWhile(_, _) => DoScoped(p, ctrl, pending, s, ids, d, depthOf, visible);
    case For(_, _, _, _) =>
      if IsLexicalFor(s) { LexicalScoped(p, ctrl, pending, s, ids, d, depthOf, visible); }
      else { ForScoped(p, ctrl, pending, s, ids, d, depthOf, visible); }
    case Switch(_, _) => SwitchScoped(p, ctrl, pending, s, ids, d, depthOf, visible);
    case Labeled(_, _) => LabeledScoped(p, ctrl, pending, s, ids, d, depthOf, visible);
    case Try(_, _, _) => TryScoped(p, ctrl, pending, s, ids, d, depthOf, visible);
  }

  /** Statements whose code is plain. */
  lemma LeafScoped(p: seq<nat>, ctrl: seq<ControlTarget>, pending: seq<string>, s: Stmt, ids: Ids, d: nat,
                   depthOf: Label -> nat, visible: set<Label>)
    requires s.Empty? || s.ExprStmt? || s.Decl? || s.Break? || s.Continue? || s.Return? || s.Throw?
    requires Standing(LowerStmt(p, ctrl, pending, s, ids).code, ctrl, d, depthOf, visible)
    ensures Scoped(LowerStmt(p, ctrl, pending, s, ids).code, d, depthOf, visible)
  {
    hide Here, Sited, Scoped, LowerExpr;
    var code := LowerStmt(p, ctrl, pending, s, ids).code;
    match s
    case Empty => PlainTo(code, {}, d, depthOf, visible);
    case ExprStmt(e) =>
      var a := LowerExpr(p, e, ids);
      ExprClosed(p, e, ids);
      ExprShape(p, e, ids);
      var tail := if a.value.Register? then [Pop(a.value)] else [Move(a.ids.temp, a.value), Pop(Register(a.ids.temp))];
      ClosedConcat(a.code, tail);
      PlainTo(code, {}, d, depthOf, visible);
    case Decl(kind, decls) =>
      DeclsClosed(p, kind, decls, ids);
      DeclsPlain(p, kind, decls, ids);
      PlainTo(code, {}, d, depthOf, visible);
    case Break(t) =>
      ResolvedTarget(ctrl, t, d, depthOf, visible);
      PlainTo(code, if ResolveBreak(ctrl, t).Some? then {ResolveBreak(ctrl, t).value} else {}, d, depthOf, visible);
    case Continue(t) =>
      ResolvedTarget(ctrl, t, d, depthOf, visible);
      PlainTo(code, if ResolveContinue(ctrl, t).Some? then {ResolveContinue(ctrl, t).value}
                                                           else {}, d, depthOf, visible);
    case Return(arg) =>
      if arg.Some? {
        ExprClosed(p, arg.value, ids);
        ExprShape(p, arg.value, ids);
        ClosedConcat(LowerExpr(p, arg.value, ids).code, [ReturnInstr(Some(LowerExpr(p, arg.value, ids).value))]);
      }
      PlainTo(code, {}, d, depthOf, visible);
    case Throw(e) =>
      ExprClosed(p, e, ids);
      ExprShape(p, e, ids);
      ClosedConcat(LowerExpr(p, e, ids).code, [ThrowInstr(LowerExpr(p, e, ids).value)]);
      PlainTo(code, {}, d, depthOf, visible);
  }

  lemma {:induction false} ListScoped(p: seq<nat>, ctrl: seq<ControlTarget>, ss: seq<Stmt>, ids: Ids, d: nat,
                                      depthOf: Label -> nat, visible: set<Label>)
    requires Standing(LowerList(p, ctrl, ss, ids).code, ctrl, d, depthOf, visible)
    ensures Scoped(LowerList(p, ctrl, ss, ids).code, d, depthOf, visible)
    decreases ss, 1
  {
    hide Here, Sited, LowerStmt;
    if ss != [] {
      var a := LowerStmt(p, ctrl, [], ss[0], ids);
      var b := LowerList(p, ctrl, ss[1..], a.ids);
      StmtKeeps(p, ctrl, [], ss[0], ids);
      Parts(a.code, b.code, d, depthOf, visible);
      StmtScoped(p, ctrl, [], ss[0], ids, d, depthOf, visible);
      ListScoped(p, ctrl, ss[1..], a.ids, d, depthOf, visible);
    }
  }

  lemma Single(i: Instr, d: nat, depthOf: Label -> nat, visible: set<Label>)
    ensures Sited([i], d, depthOf) <==> SitedOne(i, d, depthOf)
    ensures Scoped([i], d, depthOf, visible) <==> ScopedOne(i, d, depthOf, visible)
  {
    var d1 := DepthFrom(d, LinearOne(i));
    assert [i][1..] == [];
    assert Sited([], d1, depthOf) && Scoped([], d1, depthOf, visible);
  }

  /** A scope around code, one deeper, that sees its own labels too. */
  lemma InScope(body: seq<Instr>, d: nat, depthOf: Label -> nat, visible: set<Label>)
    ensures Sited([Scope(body)], d, depthOf) ==> Sited(body, d + 1, depthOf)
    ensures Level(body, d + 1) && Scoped(body, d + 1, depthOf, visible + Here(body))
            ==> Scoped([Scope(body)], d, depthOf, visible)
  {
    Single(Scope(body), d, depthOf, visible);
  }

  lemma {:induction false} BlockScoped(p: seq<nat>, ctrl: seq<ControlTarget>, pending: seq<string>, s: Stmt, ids: Ids,
                                       d: nat, depthOf: Label -> nat, visible: set<Label>)
    requires s.Block? && Standing(LowerStmt(p, ctrl, pending, s, ids).code, ctrl, d, depthOf, visible)
    ensures Scoped(LowerStmt(p, ctrl, pending, s, ids).code, d, depthOf, visible)
    decreases s, 1
  {
    hide Here, Sited, Scoped;
    assert LowerStmt(p, ctrl, pending, s, ids) == LowerBlockScope(p, ctrl, s, ids);
    var b := LowerList(p, ctrl, s.body, ids);
    InScope(b.code, d, depthOf, visible);
    ListKeeps(p, ctrl, s.body, ids);
    DeeperTargets(ctrl, d, d + 1, depthOf, visible, Here(b.code));
    ListScoped(p, ctrl, s.body, ids, d + 1, depthOf, visible + Here(b.code));
  }

  /** One label, or a jump and a label. */
  lemma LabelParts(l: Label, rest: seq<Instr>, d: nat, depthOf: Label -> nat, visible: set<Label>)
    ensures Sited([LabelAt(l)] + rest, d, depthOf) <==> depthOf(l) == d && Sited(rest, d, depthOf)
    ensures Scoped([LabelAt(l)] + rest, d, depthOf, visible) <==> Scoped(rest, d, depthOf, visible)
    ensures Here([LabelAt(l)] + rest) == {l} + Here(rest)
  {
    PlainDepth(LabelAt(l), d);
    assert ([LabelAt(l)] + rest)[1..] == rest;
  }

  lemma JumpParts(l: Label, rest: seq<Instr>, d: nat, depthOf: Label -> nat, visible: set<Label>)
    ensures Sited([Jump(l)] + rest, d, depthOf) <==> Sited(rest, d, depthOf)
    ensures Scoped([Jump(l)] + rest, d, depthOf, visible) <==> Target(l, d, depthOf, visible)
                                                               && Scoped(rest, d, depthOf, visible)
    ensures Here([Jump(l)] + rest) == Here(rest)
  {
    PlainDepth(Jump(l), d);
    assert ([Jump(l)] + rest)[1..] == rest;
  }

  lemma JumpLabelParts(j: Label, l: Label, rest: seq<Instr>, d: nat, depthOf: Label -> nat, visible: set<Label>)
    ensures Sited([Jump(j), LabelAt(l)] + rest, d, depthOf) <==> depthOf(l) == d && Sited(rest, d, depthOf)
    ensures Scoped([Jump(j), LabelAt(l)] + rest, d, depthOf, visible) <==> Target(j, d, depthOf, visible)
                                                                           && Scoped(rest, d, depthOf, visible)
    ensures Here([Jump(j), LabelAt(l)] + rest) == {l} + Here(rest)
  {
    assert [Jump(j), LabelAt(l)] + rest == [Jump(j)] + ([LabelAt(l)] + rest);
    JumpParts(j, [LabelAt(l)] + rest, d, depthOf, visible);
    LabelParts(l, rest, d, depthOf, visible);
  }

  lemma NoCode(d: nat, depthOf: Label -> nat, visible: set<Label>)
    ensures Sited([], d, depthOf) && Scoped([], d, depthOf, visible) && Here([]) == {}
  {
  }

  lemma TestScoped(p: seq<nat>, t: Option<Expr>, l: Label, ids: Ids, d: nat, depthOf: Label -> nat, visible: set<Label>)
    requires var x := LowerTest(p, t, l, ids); Sited(x.code, d, depthOf) && Here(x.code) <= visible
    requires Target(l, d, depthOf, visible)
    ensures Scoped(LowerTest(p, t, l, ids).code, d, depthOf, visible)
  {
    TestPlain(p, t, l, ids);
    TestClosed(p, t, l, ids);
    PlainTo(LowerTest(p, t, l, ids).code, {l}, d, depthOf, visible);
  }

  lemma UpdateScoped(p: seq<nat>, u: Option<Expr>, ids: Ids, d: nat, depthOf: Label -> nat, visible: set<Label>)
    requires var x := LowerUpdate(p, u, ids); Sited(x.code, d, depthOf) && Here(x.code) <= visible
    ensures Scoped(LowerUpdate(p, u, ids).code, d, depthOf, visible)
  {
    UpdatePlain(p, u, ids);
    UpdateClosed(p, u, ids);
    PlainTo(LowerUpdate(p, u, ids).code, {}, d, depthOf, visible);
  }

  lemma InitScoped(p: seq<nat>, init: ForInit, ids: Ids, d: nat, depthOf: Label -> nat, visible: set<Label>)
    requires var x := LowerInit(p, init, ids); Sited(x.code, d, depthOf) && Here(x.code) <= visible
    ensures Scoped(LowerInit(p, init, ids).code, d, depthOf, visible)
  {
    InitPlain(p, init, ids);
    InitClosed(p, init, ids);
    PlainTo(LowerInit(p, init, ids).code, {}, d, depthOf, visible);
  }

  lemma {:induction false} IfScoped(p: seq<nat>, ctrl: seq<ControlTarget>, pending: seq<string>, s: Stmt, ids: Ids,
                                    d: nat, depthOf: Label -> nat, visible: set<Label>)
    requires s.If? && Standing(LowerStmt(p, ctrl, pending, s, ids).code, ctrl, d, depthOf, visible)
    ensures Scoped(LowerStmt(p, ctrl, pending, s, ids).code, d, depthOf, visible)
    decreases s, 1
  {
    hide Here, Sited, Scoped;
    assert LowerStmt(p, ctrl, pending, s, ids) == LowerIf(p, ctrl, s, ids);
    var els, end := L(p, "if_else", ids, 0), L(p, "if_end", ids, 1);
    var x := LowerTest(p, Some(s.test), els, Labels(ids, 2));
    var y := LowerStmt(p, ctrl, [], s.cons, x.ids);
    var z := match s.alt case Some(b) => LowerStmt(p, ctrl, [], b, y.ids) case None => Lowered([], y.ids);
    TestPlain(p, Some(s.test), els, Labels(ids, 2)); PlainKeeps(x.code);
    StmtKeeps(p, ctrl, [], s.cons, x.ids);
    if s.alt.Some? { StmtKeeps(p, ctrl, [], s.alt.value, y.ids); } else { PlainKeeps([]); }
    IfSplit(x.code, y.code, end, els, z.code, d, depthOf, visible);
    TestScoped(p, Some(s.test), els, Labels(ids, 2), d, depthOf, visible);
    StmtScoped(p, ctrl, [], s.cons, x.ids, d, depthOf, visible);
    if s.alt.Some? { StmtScoped(p, ctrl, [], s.alt.value, y.ids, d, depthOf, visible); }
        else { NoCode(d, depthOf, visible); }
  }

  lemma IfSplit(x: seq<Instr>, y: seq<Instr>, end: Label, els: Label, z: seq<Instr>, d: nat, depthOf: Label -> nat,
                visible: set<Label>)
    requires Keeps(x) && Keeps(y) && Keeps(z)
    ensures var code := x + (y + ([Jump(end), LabelAt(els)] + (z + [LabelAt(end)])));
            && (Sited(code, d, depthOf) <==> Sited(x, d, depthOf) && Sited(y, d, depthOf) && Sited(z, d, depthOf)
                                             && depthOf(els) == d && depthOf(end) == d)
            && (Scoped(code, d, depthOf, visible) <==> Scoped(x, d, depthOf, visible) && Scoped(y, d, depthOf, visible)
                                                       && Scoped(z, d, depthOf, visible)
                                                          && Target(end, d, depthOf, visible))
            && Here(code) == Here(x) + Here(y) + Here(z) + {els, end}
  {
    hide Here, Sited, Scoped, Keeps;
    var last := [LabelAt(end)] + [];
    assert [LabelAt(end)] == last;
    Parts(x, y + ([Jump(end), LabelAt(els)] + (z + last)), d, depthOf, visible);
    Parts(y, [Jump(end), LabelAt(els)] + (z + last), d, depthOf, visible);
    JumpLabelParts(end, els, z + last, d, depthOf, visible);
    Parts(z, last, d, depthOf, visible);
    LabelParts(end, [], d, depthOf, visible);
    NoCode(d, depthOf, visible);
  }

  function LoopCode(start: Label, x: seq<Instr>, y: seq<Instr>, m: seq<Instr>, z: seq<Instr>, end: Label,
                    last: seq<Instr>): seq<Instr> {
    [LabelAt(start)] + (x + (y + (m + (z + ([Jump(start), LabelAt(end)] + last)))))
  }

  /** The parts of every kind of loop. */
  lemma LoopSplit(start: Label, x: seq<Instr>, y: seq<Instr>, m: seq<Instr>, z: seq<Instr>, end: Label,
                  last: seq<Instr>,
                  d: nat, depthOf: Label -> nat, visible: set<Label>)
    requires Keeps(x) && Keeps(y) && Keeps(z) && DepthFrom(d, Linear(m)) == d
    ensures var code := LoopCode(start, x, y, m, z, end, last);
            && (Sited(code, d, depthOf)
                <==> (Sited(x, d, depthOf) && Sited(y, d, depthOf) && Sited(m, d, depthOf) && Sited(z, d, depthOf)
                      && Sited(last, d, depthOf) && depthOf(start) == d && depthOf(end) == d))
            && (Scoped(code, d, depthOf, visible)
                <==> (Scoped(x, d, depthOf, visible) && Scoped(y, d, depthOf, visible) && Scoped(m, d, depthOf, visible)
                      && Scoped(z, d, depthOf, visible) && Scoped(last, d, depthOf, visible)
                         && Target(start, d, depthOf, visible)))
            && Here(code) == Here(x) + Here(y) + Here(m) + Here(z) + Here(last) + {start, end}
  {
    hide Here, Sited, Scoped, Keeps, Linear, DepthFrom;
    var tail := [Jump(start), LabelAt(end)] + last;
    LabelParts(start, x + (y + (m + (z + tail))), d, depthOf, visible);
    Parts(x, y + (m + (z + tail)), d, depthOf, visible);
    Parts(y, m + (z + tail), d, depthOf, visible);
    Split(m, z + tail, d, depthOf, visible);
    Parts(z, tail, d, depthOf, visible);
    JumpLabelParts(start, end, last, d, depthOf, visible);
  }

  lemma {:induction false} WhileScoped(p: seq<nat>, ctrl: seq<ControlTarget>, pending: seq<string>, s: Stmt, ids: Ids,
                                       d: nat, depthOf: Label -> nat, visible: set<Label>)
    requires s.While? && Standing(LowerStmt(p, ctrl, pending, s, ids).code, ctrl, d, depthOf, visible)
    ensures Scoped(LowerStmt(p, ctrl, pending, s, ids).code, d, depthOf, visible)
    decreases s, 1
  {
    hide Here, Sited, Scoped;
    assert LowerStmt(p, ctrl, pending, s, ids) == LowerWhile(p, ctrl, pending, s, ids);
    var start, end := L(p, "while_start", ids, 0), L(p, "while_end", ids, 1);
    var x := LowerTest(p, Some(s.test), end, Labels(ids, 2));
    var ctrl' := PushTargets(ctrl, pending, end, Some(start));
    var y := LowerStmt(p, ctrl', [], s.stmt, x.ids);
    assert LoopCode(start, x.code, y.code, [], [], end, []) == LowerWhile(p, ctrl, pending, s, ids).code;
    TestPlain(p, Some(s.test), end, Labels(ids, 2)); PlainKeeps(x.code); PlainKeeps([]);
    StmtKeeps(p, ctrl', [], s.stmt, x.ids);
    LoopSplit(start, x.code, y.code, [], [], end, [], d, depthOf, visible);
    NoCode(d, depthOf, visible);
    PushTarget(ctrl, pending, end, Some(start), d, depthOf, visible);
    TestScoped(p, Some(s.test), end, Labels(ids, 2), d, depthOf, visible);
    StmtScoped(p, ctrl', [], s.stmt, x.ids, d, depthOf, visible);
  }

  lemma {:induction false} DoScoped(p: seq<nat>, ctrl: seq<ControlTarget>, pending: seq<string>, s: Stmt, ids: Ids,
                                    d: nat, depthOf: Label -> nat, visible: set<Label>)
    requires s.DoWhile? && Standing(LowerStmt(p, ctrl, pending, s, ids).code, ctrl, d, depthOf, visible)
    ensures Scoped(LowerStmt(p, ctrl, pending, s, ids).code, d, depthOf, visible)
    decreases s, 1
  {
    hide Here, Sited, Scoped;
    assert LowerStmt(p, ctrl, pending, s, ids) == LowerDoWhile(p, ctrl, pending, s, ids);
    var start, test, end := L(p, "do_start", ids, 0), L(p, "do_test", ids, 1), L(p, "do_end", ids, 2);
    var ctrl' := PushTargets(ctrl, pending, end, Some(test));
    var y := LowerStmt(p, ctrl', [], s.stmt, Labels(ids, 3));
    var x := LowerTest(p, Some(s.test), end, y.ids);
    DoIsLoop(start, y.code, test, x.code, end);
    StmtKeeps(p, ctrl', [], s.stmt, Labels(ids, 3));
    TestPlain(p, Some(s.test), end, y.ids); PlainKeeps(x.code); PlainKeeps([]);
    LoopLabel(test, d, depthOf, visible);
    LoopSplit(start, [], y.code, [LabelAt(test)], x.code, end, [], d, depthOf, visible);
    NoCode(d, depthOf, visible);
    PushTarget(ctrl, pending, end, Some(test), d, depthOf, visible);
    StmtScoped(p, ctrl', [], s.stmt, Labels(ids, 3), d, depthOf, visible);
    TestScoped(p, Some(s.test), end, y.ids, d, depthOf, visible);
  }

  lemma DoIsLoop(start: Label, y: seq<Instr>, test: Label, x: seq<Instr>, end: Label)
    ensures LoopCode(start, [], y, [LabelAt(test)], x, end, [])
         == [LabelAt(start)] + (y + ([LabelAt(test)] + (x + [Jump(start), LabelAt(end)])))
  {
    var tail := [Jump(start), LabelAt(end)];
    assert tail + [] == tail;
    var rest := y + ([LabelAt(test)] + (x + tail));
    assert [] + rest == rest;
  }

  lemma LoopLabel(l: Label, d: nat, depthOf: Label -> nat, visible: set<Label>)
    ensures DepthFrom(d, Linear([LabelAt(l)])) == d && Scoped([LabelAt(l)], d, depthOf, visible)
            && Here([LabelAt(l)]) == {l}
    ensures Sited([LabelAt(l)], d, depthOf) <==> depthOf(l) == d
  {
    PlainKeeps([LabelAt(l)]);
    assert [LabelAt(l)] == [LabelAt(l)] + [];
    LabelParts(l, [], d, depthOf, visible);
    NoCode(d, depthOf, visible);
  }

  lemma {:induction false} ForScoped(p: seq<nat>, ctrl: seq<ControlTarget>, pending: seq<string>, s: Stmt, ids: Ids,
                                     d: nat, depthOf: Label -> nat, visible: set<Label>)
    requires s.For? && !IsLexicalFor(s) && Standing(LowerStmt(p, ctrl, pending, s, ids).code, ctrl, d, depthOf, visible)
    ensures Scoped(LowerStmt(p, ctrl, pending, s, ids).code, d, depthOf, visible)
    decreases s, 1
  {
    hide Here, Sited, Scoped, LowerInit, LowerTest, LowerUpdate;
    assert LowerStmt(p, ctrl, pending, s, ids) == LowerForUnscoped(p, ctrl, pending, s, ids);
    var i := LowerInit(p, s.init, ids);
    var start, next, end := L(p, "for_start", i.ids, 0), L(p, "for_update", i.ids, 1), L(p, "for_end", i.ids, 2);
    var x := LowerTest(p, s.guard, end, Labels(i.ids, 3));
    var ctrl' := PushTargets(ctrl, pending, end, Some(next));
    var y := LowerStmt(p, ctrl', [], s.stmt, x.ids);
    var z := LowerUpdate(p, s.update, y.ids);
    assert [Jump(start), LabelAt(end)] + [] == [Jump(start), LabelAt(end)];
    InitPlain(p, s.init, ids); PlainKeeps(i.code);
    TestPlain(p, s.guard, end, Labels(i.ids, 3)); PlainKeeps(x.code);
    StmtKeeps(p, ctrl', [], s.stmt, x.ids);
    UpdatePlain(p, s.update, y.ids); PlainKeeps(z.code);
    Parts(i.code, LoopCode(start, x.code, y.code, [LabelAt(next)], z.code, end, []), d, depthOf, visible);
    LoopLabel(next, d, depthOf, visible);
    LoopSplit(start, x.code, y.code, [LabelAt(next)], z.code, end, [], d, depthOf, visible);
    NoCode(d, depthOf, visible);
    PushTarget(ctrl, pending, end, Some(next), d, depthOf, visible);
    InitScoped(p, s.init, ids, d, depthOf, visible);
    TestScoped(p, s.guard, end, Labels(i.ids, 3), d, depthOf, visible);
    StmtScoped(p, ctrl', [], s.stmt, x.ids, d, depthOf, visible);
    UpdateScoped(p, s.update, y.ids, d, depthOf, visible);
  }

  /** The copies of the loop bindings: no labels, no jumps; they end one scope deeper the
      first time, and where they began afterwards. */
  lemma CopiesScoped(names: seq<string>, leave: bool, ids: Ids, d: nat, depthOf: Label -> nat, visible: set<Label>)
    requires leave ==> d > 0
    ensures var c := PerIteration(names, leave, ids).code;
            && Sited(c, d, depthOf) && Scoped(c, d, depthOf, visible) && Here(c) == {}
            && DepthFrom(d, Linear(c)) == (if leave then d else d + 1)
  {
    var a, b := CopyLoads(names, ids.temp), CopyStores(names, ids.temp);
    var m := if leave then [LeaveScope, EnterScope] else [EnterScope];
    LoadsPlain(names, ids.temp);
    StoresPlain(names, ids.temp);
    LoadsNoJumps(names, ids.temp);
    StoresNoJumps(names, ids.temp);
    PlainKeeps(a);
    PerIterationDepth(names, leave, ids, d);
    EnterDepth(leave, d);
    QuietScoped(a, d, depthOf, visible);
    QuietScoped(b, if leave then d else d + 1, depthOf, visible);
    EnterScoped(leave, d, depthOf, visible);
    Parts(a, m + b, d, depthOf, visible);
    Split(m, b, d, depthOf, visible);
  }

  lemma EnterScoped(leave: bool, d: nat, depthOf: Label -> nat, visible: set<Label>)
    requires leave ==> d > 0
    ensures var m := if leave then [LeaveScope, EnterScope] else [EnterScope];
                                                                 Sited(m, d, depthOf) && Scoped(m, d, depthOf, visible)
                                                                     && Here(m) == {}
  {
    var d1 := DepthFrom(d, LinearOne(LeaveScope));
    Single(EnterScope, d, depthOf, visible);
    Single(EnterScope, d1, depthOf, visible);
    if leave {
      Single(LeaveScope, d, depthOf, visible);
      assert [LeaveScope, EnterScope] == [LeaveScope] + [EnterScope];
      assert Linear([LeaveScope]) == LinearOne(LeaveScope);
      Split([LeaveScope], [EnterScope], d, depthOf, visible);
    }
  }

  predicate NoJumps(code: seq<Instr>) {
    forall i :: 0 <= i < |code| ==> !code[i].LabelAt? && !code[i].Jump? && !code[i].JumpIfFalse?
  }

  lemma {:induction false} QuietScoped(code: seq<Instr>, d: nat, depthOf: Label -> nat, visible: set<Label>)
    requires Plain(code) && NoJumps(code)
    ensures Sited(code, d, depthOf) && Scoped(code, d, depthOf, visible) && Here(code) == {}
  {
    if code != [] {
      PlainDepth(code[0], d);
      QuietScoped(code[1..], d, depthOf, visible);
    }
  }

  lemma {:induction false} LoadsNoJumps(names: seq<string>, t: nat)
    ensures NoJumps(CopyLoads(names, t))
    decreases names
  {
    if names != [] { LoadsNoJumps(names[1..], t + 1); }
  }

  lemma {:induction false} StoresNoJumps(names: seq<string>, t: nat)
    ensures NoJumps(CopyStores(names, t))
    decreases names
  {
    if names != [] { StoresNoJumps(names[1..], t + 1); }
  }

  lemma LeaveScoped(d: nat, depthOf: Label -> nat, visible: set<Label>)
    requires d > 0
    ensures Sited([LeaveScope], d, depthOf) && Scoped([LeaveScope], d, depthOf, visible) && Here([LeaveScope]) == {}
  {
  }

  lemma {:induction false} LexicalScoped(p: seq<nat>, ctrl: seq<ControlTarget>, pending: seq<string>, s: Stmt, ids: Ids,
                                         d: nat, depthOf: Label -> nat, visible: set<Label>)
    requires IsLexicalFor(s) && Standing(LowerStmt(p, ctrl, pending, s, ids).code, ctrl, d, depthOf, visible)
    ensures Scoped(LowerStmt(p, ctrl, pending, s, ids).code, d, depthOf, visible)
    decreases s, 1
  {
    hide Here, Sited, Scoped, LowerInit, LowerTest, LowerUpdate, PerIteration;
    assert LowerStmt(p, ctrl, pending, s, ids) == LowerForLexical(p, ctrl, pending, s, ids);
    var names := BoundNames(s.init.decls);
    var i := LowerInit(p, s.init, ids);
    var c := PerIteration(names, false, i.ids);
    var start, next, end := L(p, "for_start", c.ids, 0), L(p, "for_update", c.ids, 1), L(p, "for_end", c.ids, 2);
    var x := LowerTest(p, s.guard, end, Labels(c.ids, 3));
    var ctrl' := PushTargets(ctrl, pending, end, Some(next));
    var y := LowerStmt(p, ctrl', [], s.stmt, x.ids);
    var e := PerIteration(names, true, y.ids);
    var z := LowerUpdate(p, s.update, e.ids);
    var loop := LoopCode(start, x.code, y.code, [LabelAt(next)] + e.code, z.code, end, [LeaveScope]);
    var body := i.code + (c.code + loop);
    LexicalIsLoop(start, x.code, y.code, next, e.code, z.code, end);
    assert LowerStmt(p, ctrl, pending, s, ids).code == [Scope(body)];
    var inner := visible + Here(body);
    InScope(body, d, depthOf, visible);
    CopiesScoped(names, false, i.ids, d + 1, depthOf, inner);
    CopiesScoped(names, true, y.ids, d + 2, depthOf, inner);
    InitPlain(p, s.init, ids); PlainKeeps(i.code);
    TestPlain(p, s.guard, end, Labels(c.ids, 3)); PlainKeeps(x.code);
    StmtKeeps(p, ctrl', [], s.stmt, x.ids);
    UpdatePlain(p, s.update, e.ids); PlainKeeps(z.code);
    LexicalLevel(names, i, start, next, end, x.code, y, e.code, z.code, d + 1);
    Parts(i.code, c.code + loop, d + 1, depthOf, inner);
    Split(c.code, loop, d + 1, depthOf, inner);
    NextCopies(next, e.code, d + 2, depthOf, inner);
    LoopSplit(start, x.code, y.code, [LabelAt(next)] + e.code, z.code, end, [LeaveScope], d + 2, depthOf, inner);
    LeaveScoped(d + 2, depthOf, inner);
    DeeperTargets(ctrl, d, d + 2, depthOf, visible, Here(body));
    PushTarget(ctrl, pending, end, Some(next), d + 2, depthOf, inner);
    InitScoped(p, s.init, ids, d + 1, depthOf, inner);
    TestScoped(p, s.guard, end, Labels(c.ids, 3), d + 2, depthOf, inner);
    StmtScoped(p, ctrl', [], s.stmt, x.ids, d + 2, depthOf, inner);
    UpdateScoped(p, s.update, e.ids, d + 2, depthOf, inner);
  }

  lemma LexicalLevel(names: seq<string>, i: Lowered, start: Label, next: Label, end: Label, x: seq<Instr>, y: Lowered,
                     e: seq<Instr>, z: seq<Instr>, d: nat)
    requires Keeps(i.code) && Keeps(x) && Keeps(y.code) && Keeps(z) && e == PerIteration(names, true, y.ids).code
    ensures var c := PerIteration(names, false, i.ids).code;
            Level(i.code + (c + LoopCode(start, x, y.code, [LabelAt(next)] + e, z, end, [LeaveScope])), d)
  {
    hide PerIteration, Linear, DepthFrom;
    var c := PerIteration(names, false, i.ids).code;
    var r := Rounds(start, next, end, x, y.code, e, z);
    LexicalIsLoop(start, x, y.code, next, e, z, end);
    PerIterationDepth(names, false, i.ids, d);
    PerIterationDepth(names, true, y.ids, d + 1);
    RoundsDepth(start, next, end, x, y.code, e, z, d + 1);
    LinearConcat(i.code, c + r);
    LinearConcat(c, r);
    DepthFromConcat(d, Linear(i.code), Linear(c) + Linear(r));
    DepthFromConcat(d, Linear(c), Linear(r));
  }

  lemma LexicalIsLoop(start: Label, x: seq<Instr>, y: seq<Instr>, next: Label, e: seq<Instr>, z: seq<Instr>, end: Label)
    ensures LoopCode(start, x, y, [LabelAt(next)] + e, z, end, [LeaveScope])
         == [LabelAt(start)] + (x + (y + ([LabelAt(next)] + (e + (z + [Jump(start), LabelAt(end), LeaveScope])))))
  {
    var tail := [Jump(start), LabelAt(end), LeaveScope];
    assert [Jump(start), LabelAt(end)] + [LeaveScope] == tail;
    assert ([LabelAt(next)] + e) + (z + tail) == [LabelAt(next)] + (e + (z + tail));
  }

  lemma NextCopies(next: Label, e: seq<Instr>, d: nat, depthOf: Label -> nat, visible: set<Label>)
    requires Sited(e, d, depthOf) && Scoped(e, d, depthOf, visible) && DepthFrom(d, Linear(e)) == d && Here(e) == {}
    ensures DepthFrom(d, Linear([LabelAt(next)] + e)) == d && Here([LabelAt(next)] + e) == {next}
    ensures Scoped([LabelAt(next)] + e, d, depthOf, visible)
            && (Sited([LabelAt(next)] + e, d, depthOf) <==> depthOf(next) == d)
  {
    hide Here, Sited, Scoped, Linear, DepthFrom;
    LabelParts(next, e, d, depthOf, visible);
    LoopLabel(next, d, depthOf, visible);
    LinearConcat([LabelAt(next)], e);
    DepthFromConcat(d, Linear([LabelAt(next)]), Linear(e));
  }

  lemma {:induction false} LabeledScoped(p: seq<nat>, ctrl: seq<ControlTarget>, pending: seq<string>, s: Stmt, ids: Ids,
                                         d: nat, depthOf: Label -> nat, visible: set<Label>)
    requires s.Labeled? && Standing(LowerStmt(p, ctrl, pending, s, ids).code, ctrl, d, depthOf, visible)
    ensures Scoped(LowerStmt(p, ctrl, pending, s, ids).code, d, depthOf, visible)
    decreases s, 1
  {
    hide Here, Sited, Scoped;
    assert LowerStmt(p, ctrl, pending, s, ids) == LowerLabeled(p, ctrl, pending, s, ids);
    if IsControlTarget(s.stmt) {
      StmtScoped(p, ctrl, pending + [s.name], s.stmt, ids, d, depthOf, visible);
    } else {
      var end := L(p, "label_end", ids, 0);
      var ctrl' := ctrl + [ControlTarget(Some(s.name), end, None)];
      var y := LowerStmt(p, ctrl', [], s.stmt, Labels(ids, 1));
      StmtKeeps(p, ctrl', [], s.stmt, Labels(ids, 1));
      Parts(y.code, [LabelAt(end)], d, depthOf, visible);
      LoopLabel(end, d, depthOf, visible);
      StmtScoped(p, ctrl', [], s.stmt, Labels(ids, 1), d, depthOf, visible);
    }
  }

  lemma {:induction false} TestsClosed(p: seq<nat>, disc: Operand, cases: seq<Case>, labels: seq<Label>, ids: Ids)
    requires |labels| == |cases|
    ensures var x := LowerTests(p, disc, cases, labels, ids); JumpsWithin(x.code, Here(x.code) + (set l | l in labels))
    decreases cases
  {
    hide Here, LowerExpr;
    if cases != [] {
      if cases[0].test.None? {
        TestsClosed(p, disc, cases[1..], labels[1..], ids);
      } else {
        var a := LowerExpr(p, cases[0].test.value, ids);
        var ids1 := Labels(Temp(a.ids), 1);
        var b := LowerTests(p, disc, cases[1..], labels[1..], ids1);
        ExprClosed(p, cases[0].test.value, ids);
        TestsClosed(p, disc, cases[1..], labels[1..], ids1);
        var next := L(p, "switch_next", a.ids, 0);
        var m := [BinaryInstr(a.ids.temp, "===", disc, a.value), JumpIfFalse(Register(a.ids.temp), next),
            Jump(labels[0]), LabelAt(next)];
        HereHas(m, 3);
        HereConcat(m, b.code);
        HereConcat(a.code, m + b.code);
        assert labels[0] in labels;
      }
    }
  }

  /** The labels of the clauses stand before their bodies. */
  lemma {:induction false} CasesScoped(p: seq<nat>, ctrl: seq<ControlTarget>, cases: seq<Case>, labels: seq<Label>,
                                       ids: Ids, d: nat, depthOf: Label -> nat, visible: set<Label>)
    requires |labels| == |cases| && Standing(LowerCases(p, ctrl, cases, labels, ids).code, ctrl, d, depthOf, visible)
    ensures Scoped(LowerCases(p, ctrl, cases, labels, ids).code, d, depthOf, visible)
    ensures forall l :: l in labels ==> Target(l, d, depthOf, visible)
    decreases cases, 1
  {
    hide Here, Sited, Scoped, LowerList;
    if cases == [] {
      NoCode(d, depthOf, visible);
    } else {
      var a := LowerList(p, ctrl, cases[0].body, ids);
      var b := LowerCases(p, ctrl, cases[1..], labels[1..], a.ids);
      ListKeeps(p, ctrl, cases[0].body, ids);
      LabelParts(labels[0], a.code + b.code, d, depthOf, visible);
      Parts(a.code, b.code, d, depthOf, visible);
      ListScoped(p, ctrl, cases[0].body, ids, d, depthOf, visible);
      CasesScoped(p, ctrl, cases[1..], labels[1..], a.ids, d, depthOf, visible);
    }
  }

  lemma {:induction false} SwitchScoped(p: seq<nat>, ctrl: seq<ControlTarget>, pending: seq<string>, s: Stmt, ids: Ids,
                                        d: nat, depthOf: Label -> nat, visible: set<Label>)
    requires s.Switch? && Standing(LowerStmt(p, ctrl, pending, s, ids).code, ctrl, d, depthOf, visible)
    ensures Scoped(LowerStmt(p, ctrl, pending, s, ids).code, d, depthOf, visible)
    decreases s, 1
  {
    hide Here, Sited, Scoped, LowerExpr, CaseLabels, LowerTests, LowerCases, HasDefault;
    assert LowerStmt(p, ctrl, pending, s, ids) == LowerSwitch(p, ctrl, pending, s, ids);
    var x := LowerExpr(p, s.disc, ids);
    var end, dflt := L(p, "switch_end", x.ids, 0), L(p, "switch_default", x.ids, 1);
    var ls := CaseLabels(p, s.cases, 0, dflt, Labels(x.ids, 2));
    var t := LowerTests(p, x.value, s.cases, ls.0, ls.1);
    var target := if HasDefault(s.cases) then dflt else end;
    var ctrl' := PushTargets(ctrl, pending, end, None);
    var y := LowerCases(p, ctrl', s.cases, ls.0, t.ids);
    ExprShape(p, s.disc, ids); PlainKeeps(x.code);
    ExprClosed(p, s.disc, ids);
    TestsPlain(p, x.value, s.cases, ls.0, ls.1); PlainKeeps(t.code);
    TestsClosed(p, x.value, s.cases, ls.0, ls.1);
    CasesKeep(p, ctrl', s.cases, ls.0, t.ids);
    SwitchSplit(x.code, t.code, target, y.code, end, d, depthOf, visible);
    PushTarget(ctrl, pending, end, None, d, depthOf, visible);
    CasesScoped(p, ctrl', s.cases, ls.0, t.ids, d, depthOf, visible);
    PlainTo(x.code, {}, d, depthOf, visible);
    PlainTo(t.code, (set l | l in ls.0), d, depthOf, visible);
    if HasDefault(s.cases) { DefaultLabel(p, s.cases, 0, dflt, Labels(x.ids, 2)); }
  }

  lemma SwitchSplit(x: seq<Instr>, t: seq<Instr>, target: Label, y: seq<Instr>, end: Label, d: nat,
                    depthOf: Label -> nat, visible: set<Label>)
    requires Keeps(x) && Keeps(t) && Keeps(y)
    ensures var code := x + (t + ([Jump(target)] + (y + [LabelAt(end)])));
            && (Sited(code, d, depthOf) <==> Sited(x, d, depthOf) && Sited(t, d, depthOf) && Sited(y, d, depthOf)
                                             && depthOf(end) == d)
            && (Scoped(code, d, depthOf, visible) <==> Scoped(x, d, depthOf, visible) && Scoped(t, d, depthOf, visible)
                                                       && Scoped(y, d, depthOf, visible)
                                                          && Target(target, d, depthOf, visible))
            && Here(code) == Here(x) + Here(t) + Here(y) + {end}
  {
    hide Here, Sited, Scoped, Keeps;
    Parts(x, t + ([Jump(target)] + (y + [LabelAt(end)])), d, depthOf, visible);
    Parts(t, [Jump(target)] + (y + [LabelAt(end)]), d, depthOf, visible);
    JumpParts(target, y + [LabelAt(end)], d, depthOf, visible);
    Parts(y, [LabelAt(end)], d, depthOf, visible);
    LoopLabel(end, d, depthOf, visible);
  }

  lemma {:induction false} DefaultLabel(p: seq<nat>, cases: seq<Case>, from: nat, dflt: Label, ids: Ids)
    requires HasDefault(cases)
    ensures dflt in CaseLabels(p, cases, from, dflt, ids).0
    decreases cases
  {
    var r := CaseLabels(p, cases, from, dflt, ids);
    if cases[0].test.Some? {
      var k :| 0 <= k < |cases| && cases[k].test.None?;
      assert cases[1..][k - 1].test.None?;
      DefaultLabel(p, cases[1..], from + 1, dflt, Labels(ids, 1));
    } else {
      assert r.0[0] == dflt;
    }
  }

  /** The parts of a `try` jump within themselves. */
  lemma {:induction false} TryScoped(p: seq<nat>, ctrl: seq<ControlTarget>, pending: seq<string>, s: Stmt, ids: Ids,
                                     d: nat, depthOf: Label -> nat, visible: set<Label>)
    requires s.Try? && Standing(LowerStmt(p, ctrl, pending, s, ids).code, ctrl, d, depthOf, visible)
    ensures Scoped(LowerStmt(p, ctrl, pending, s, ids).code, d, depthOf, visible)
    decreases s, 1
  {
    hide Here, Sited, Scoped;
    assert LowerStmt(p, ctrl, pending, s, ids) == LowerTry(p, s, ids);
    var ids1 := Child(ids);
    var ids2 := if s.handler.Some? then Child(ids1) else ids1;
    var i := LowerTry(p, s, ids).code[0];
    PlainKeeps([]);
    PartLevel(p + [ids.child], s.block);
    if s.handler.Some? { PartLevel(p + [ids1.child], s.handler.value.body); }
    if s.finalizer.Finally? { PartLevel(p + [ids2.child], s.finalizer.body); }
    InTry(i, d, depthOf, visible);
    NoCode(d, depthOf, visible);
    PartScoped(p + [ids.child], s.block, d, depthOf, visible);
    if s.handler.Some? { PartScoped(p + [ids1.child], s.handler.value.body, d, depthOf, visible); }
    if s.finalizer.Finally? { PartScoped(p + [ids2.child], s.finalizer.body, d, depthOf, visible); }
  }

  lemma InTry(i: Instr, d: nat, depthOf: Label -> nat, visible: set<Label>)
    requires i.TryInstr? && Sited([i], d, depthOf) && Level(i.body, d) && Level(i.catchBody, d)
             && Level(i.finallyBody, d)
    ensures Sited(i.body, d, depthOf) && Sited(i.catchBody, d, depthOf) && Sited(i.finallyBody, d, depthOf)
    ensures Scoped(i.body, d, depthOf, visible) && Scoped(i.catchBody, d, depthOf, visible)
            && Scoped(i.finallyBody, d, depthOf, visible)
        ==> Scoped([i], d, depthOf, visible)
  {
    Single(i, d, depthOf, visible);
    if Scoped(i.body, d, depthOf, visible) && Scoped(i.catchBody, d, depthOf, visible)
        && Scoped(i.finallyBody, d, depthOf, visible) {
      MoreVisible(i.body, d, depthOf, visible, visible + Here(i.body));
      MoreVisible(i.catchBody, d, depthOf, visible, visible + Here(i.catchBody));
      MoreVisible(i.finallyBody, d, depthOf, visible, visible + Here(i.finallyBody));
    }
  }

  lemma PartLevel(q: seq<nat>, body: seq<Stmt>)
    ensures Keeps([Scope(LowerList(q, [], body, Ids(0, 0, 0)).code)])
  {
    ListKeeps(q, [], body, Ids(0, 0, 0));
    ScopeKeeps(LowerList(q, [], body, Ids(0, 0, 0)).code);
  }

  lemma {:induction false} PartScoped(q: seq<nat>, body: seq<Stmt>, d: nat, depthOf: Label -> nat, visible: set<Label>)
    requires Sited([Scope(LowerList(q, [], body, Ids(0, 0, 0)).code)], d, depthOf)
    ensures Scoped([Scope(LowerList(q, [], body, Ids(0, 0, 0)).code)], d, depthOf, visible)
    decreases body, 2
  {
    hide Here, Sited, Scoped;
    var b := LowerList(q, [], body, Ids(0, 0, 0));
    InScope(b.code, d, depthOf, visible);
    ListKeeps(q, [], body, Ids(0, 0, 0));
    ListScoped(q, [], body, Ids(0, 0, 0), d + 1, depthOf, visible + Here(b.code));
  }

  // ---- every run ---------------------------------------------------------------------

  predicate SafeAt(p: Program, i: nat)
    requires i < |p.ops|
  {
    match p.ops[i]
    case OpJump(l) => Find(p.ops, l, 0).Some? && Depth(p.ops, Find(p.ops, l, 0).value) <= Depth(p.ops, i)
    case OpJumpIfFalse(_, l) => Find(p.ops, l, 0).Some? && Depth(p.ops, Find(p.ops, l, 0).value) <= Depth(p.ops, i)
    case OpLeaveScope => Depth(p.ops, i) > 0
    case _ => true
  }

  /** Every jump finds its label, no deeper than itself, and every scope left was entered. */
  predicate Safe(p: Program, from: nat, to: nat) {
    to <= |p.ops| && forall i :: from <= i < to ==> SafeAt(p, i)
  }

  ghost predicate Agrees(p: Program, depthOf: Label -> nat, visible: set<Label>) {
    forall l :: l in visible ==> Find(p.ops, l, 0).Some? && Depth(p.ops, Find(p.ops, l, 0).value) == depthOf(l)
  }

  lemma OnePlace(p: Program, pc: nat, d: nat, i: Instr, rest: seq<Instr>)
    requires At(p, pc, d, [i] + rest)
    ensures OpsAt(p.ops, pc, LinearOne(i)) && At(p, pc + |LinearOne(i)|, DepthFrom(d, LinearOne(i)), rest)
    ensures Size([i] + rest) == |LinearOne(i)| + Size(rest)
  {
    hide Depth, DepthStep;
    AtSplit(p, pc, d, [i], rest);
    assert Linear([i]) == LinearOne(i) + Linear([]);
    assert Linear([i]) == LinearOne(i);
  }

  lemma HereMore(code: seq<Instr>, visible: set<Label>)
    requires code != []
    ensures visible + HereOne(code[0]) + Here(code[1..]) == visible + Here(code)
  {
    hide HereOne;
  }

  /** A label in its place is found, at its own depth. */
  lemma OneFound(p: Program, pc: nat, d: nat, i: Instr, depthOf: Label -> nat, visible: set<Label>)
    requires UniqueLabels(p.ops) && OpsAt(p.ops, pc, LinearOne(i)) && Depth(p.ops, pc) == d && SitedOne(i, d, depthOf)
             && Agrees(p, depthOf, visible)
    ensures Agrees(p, depthOf, visible + HereOne(i))
  {
    hide Find, Depth, UniqueLabels;
    if i.LabelAt? {
      assert p.ops[pc + 0] == LinearOne(i)[0];
      FindAt(p.ops, i.l, 0, pc);
    }
  }

  /** What stands in the code is found, at its own depth. */
  lemma {:induction false} HereFound(p: Program, pc: nat, d: nat, code: seq<Instr>, depthOf: Label -> nat,
                                     visible: set<Label>)
    requires UniqueLabels(p.ops) && At(p, pc, d, code) && Sited(code, d, depthOf) && Agrees(p, depthOf, visible)
    ensures Agrees(p, depthOf, visible + Here(code))
    decreases code
  {
    hide Agrees, Find, Depth, DepthFrom, Linear, LinearOne, UniqueLabels, SitedOne, HereOne, OpsAt;
    if code == [] {
      assert visible + Here(code) == visible;
    } else {
      assert code == [code[0]] + code[1..];
      OnePlace(p, pc, d, code[0], code[1..]);
      OneFound(p, pc, d, code[0], depthOf, visible);
      HereMore(code, visible);
      HereFound(p, pc + |LinearOne(code[0])|, DepthFrom(d, LinearOne(code[0])), code[1..], depthOf,
          visible + HereOne(code[0]));
    }
  }

  /** Scoped code in place is safe. */
  lemma {:induction false} ScopedSafe(p: Program, pc: nat, d: nat, code: seq<Instr>, depthOf: Label -> nat,
                                      visible: set<Label>)
    requires UniqueLabels(p.ops) && At(p, pc, d, code) && Agrees(p, depthOf, visible)
    requires Sited(code, d, depthOf) && Scoped(code, d, depthOf, visible)
    ensures Safe(p, pc, pc + Size(code))
    decreases code, 0
  {
    hide Here, Agrees;
    if code != [] {
      assert code == [code[0]] + code[1..];
      OnePlace(p, pc, d, code[0], code[1..]);
      OneSafe(p, pc, d, code[0], depthOf, visible);
      ScopedSafe(p, pc + |LinearOne(code[0])|, DepthFrom(d, LinearOne(code[0])), code[1..], depthOf, visible);
    }
  }

  lemma {:induction false} OneSafe(p: Program, pc: nat, d: nat, i: Instr, depthOf: Label -> nat, visible: set<Label>)
    requires UniqueLabels(p.ops) && OpsAt(p.ops, pc, LinearOne(i)) && Depth(p.ops, pc) == d
             && Agrees(p, depthOf, visible)
    requires SitedOne(i, d, depthOf) && ScopedOne(i, d, depthOf, visible)
    ensures Safe(p, pc, pc + |LinearOne(i)|)
    decreases i, 1
  {
    hide Linear, DepthFrom, Here;
    if i.Scope? {
      ScopeSafe(p, pc, d, i.body, depthOf, visible);
    } else if i.TryInstr? {
      TrySafe(p, pc, d, i, depthOf, visible);
    } else {
      assert p.ops[pc + 0] == LinearOne(i)[0];
    }
  }

  /** A part of a scope or a `try`, whose labels its own jumps may use. */
  lemma {:induction false} NestedSafe(p: Program, pc: nat, d: nat, body: seq<Instr>, depthOf: Label -> nat,
                                      visible: set<Label>)
    requires UniqueLabels(p.ops) && At(p, pc, d, body) && Agrees(p, depthOf, visible) && Level(body, d)
    requires Sited(body, d, depthOf) && Scoped(body, d, depthOf, visible + Here(body))
    ensures Safe(p, pc, pc + Size(body)) && Depth(p.ops, pc + Size(body)) == d
    decreases body, 1
  {
    HereFound(p, pc, d, body, depthOf, visible);
    ScopedSafe(p, pc, d, body, depthOf, visible + Here(body));
    DepthAfter(p.ops, pc, Linear(body));
  }

  lemma {:induction false} ScopeSafe(p: Program, pc: nat, d: nat, body: seq<Instr>, depthOf: Label -> nat,
                                     visible: set<Label>)
    requires UniqueLabels(p.ops) && OpsAt(p.ops, pc, LinearOne(Scope(body))) && Depth(p.ops, pc) == d
             && Agrees(p, depthOf, visible)
    requires SitedOne(Scope(body), d, depthOf) && ScopedOne(Scope(body), d, depthOf, visible)
    ensures Safe(p, pc, pc + |LinearOne(Scope(body))|)
    decreases body, 2
  {
    hide Agrees, Here, DepthFrom, Find, Linear, Scoped;
    var f := Linear(body);
    assert LinearOne(Scope(body)) == [OpEnterScope] + (f + [OpLeaveScope]);
    HeadAt(p.ops, pc, OpEnterScope, f + [OpLeaveScope]);
    PartAt(p.ops, pc + 1, f, [OpLeaveScope]);
    HeadAt(p.ops, pc + 1 + |f|, OpLeaveScope, []);
    NestedSafe(p, pc + 1, d + 1, body, depthOf, visible);
  }

  lemma {:induction false} TrySafe(p: Program, pc: nat, d: nat, i: Instr, depthOf: Label -> nat, visible: set<Label>)
    requires i.TryInstr? && UniqueLabels(p.ops) && OpsAt(p.ops, pc, LinearOne(i)) && Depth(p.ops, pc) == d
             && Agrees(p, depthOf, visible)
    requires SitedOne(i, d, depthOf) && ScopedOne(i, d, depthOf, visible)
    ensures Safe(p, pc, pc + |LinearOne(i)|)
    decreases i, 0
  {
    hide Agrees, Here, Sited, Find, Linear, LinearOne, OpsAt, DepthFrom, UniqueLabels;
    TryAt(p.ops, pc, i);
    NestedSafe(p, pc + 1, d, i.body, depthOf, visible);
    var iC := pc + 1 + |Linear(i.body)|;
    if i.catchBody != [] { NestedSafe(p, iC + 1, d, i.catchBody, depthOf, visible); }
    var iF := iC + CatchSize(i);
    if i.finallyBody != [] { NestedSafe(p, iF + 1, d, i.finallyBody, depthOf, visible); }
  }

  // ---- whole functions -----------------------------------------------------------------

  /** The depth at which the program first carries a label. */
  function SiteOf(p: Program): Label -> nat {
    l => if Find(p.ops, l, 0).Some? then Depth(p.ops, Find(p.ops, l, 0).value) else 0
  }

  /** Code in place is sited by where it stands. */
  lemma {:induction false} PlacedSited(p: Program, pc: nat, d: nat, code: seq<Instr>)
    requires UniqueLabels(p.ops) && At(p, pc, d, code)
    ensures Sited(code, d, SiteOf(p))
    decreases code, 0
  {
    hide SiteOf;
    if code != [] {
      assert code == [code[0]] + code[1..];
      OnePlace(p, pc, d, code[0], code[1..]);
      PlacedOne(p, pc, d, code[0]);
      PlacedSited(p, pc + |LinearOne(code[0])|, DepthFrom(d, LinearOne(code[0])), code[1..]);
    }
  }

  lemma {:induction false} PlacedOne(p: Program, pc: nat, d: nat, i: Instr)
    requires UniqueLabels(p.ops) && OpsAt(p.ops, pc, LinearOne(i)) && Depth(p.ops, pc) == d
    ensures SitedOne(i, d, SiteOf(p))
    decreases i, 1
  {
    match i
    case LabelAt(l) =>
      assert p.ops[pc + 0] == LinearOne(i)[0];
      FindAt(p.ops, l, 0, pc);
    case Scope(body) =>
      assert LinearOne(i) == [OpEnterScope] + (Linear(body) + [OpLeaveScope]);
      HeadAt(p.ops, pc, OpEnterScope, Linear(body) + [OpLeaveScope]);
      PartAt(p.ops, pc + 1, Linear(body), [OpLeaveScope]);
      PlacedSited(p, pc + 1, d + 1, body);
    case TryInstr(_, _, _, _) => PlacedTry(p, pc, d, i);
    case _ =>
  }

  lemma {:induction false} PlacedTry(p: Program, pc: nat, d: nat, i: Instr)
    requires i.TryInstr? && UniqueLabels(p.ops) && OpsAt(p.ops, pc, LinearOne(i)) && Depth(p.ops, pc) == d
    ensures SitedOne(i, d, SiteOf(p))
    decreases i, 0
  {
    hide Linear, LinearOne, SiteOf, Sited;
    TryAt(p.ops, pc, i);
    PlacedSited(p, pc + 1, d, i.body);
    DepthAfter(p.ops, pc + 1, Linear(i.body));
    var iC := pc + 1 + |Linear(i.body)|;
    var d1 := DepthFrom(d, Linear(i.body));
    if i.catchBody != [] {
      PlacedSited(p, iC + 1, d1, i.catchBody);
      DepthAfter(p.ops, iC + 1, Linear(i.catchBody));
    } else {
      NoCode(d1, SiteOf(p), {});
      NoOps(d1);
    }
    var iF := iC + CatchSize(i);
    var d2 := DepthFrom(d1, Linear(i.catchBody));
    if i.finallyBody != [] { PlacedSited(p, iF + 1, d2, i.finallyBody); } else { NoCode(d2, SiteOf(p), {}); }
  }

  lemma NoOps(d: nat)
    ensures DepthFrom(d, Linear([])) == d
  {
  }

  /** Every jump of a lowered function goes to a label of its own or an enclosing nesting
      level, which stands no deeper than the jump. */
  lemma FunctionScoped(p: Program, q: seq<nat>, body: seq<Stmt>)
    requires UniqueLabels(p.ops) && p.ops == Linear(LowerList(q, [], body, Ids(0, 0, 0)).code)
    ensures var code := LowerList(q, [], body, Ids(0, 0, 0)).code;
            Scoped(code, 0, SiteOf(p), Here(code)) && Safe(p, 0, |p.ops|)
  {
    hide Here, SiteOf;
    var code := LowerList(q, [], body, Ids(0, 0, 0)).code;
    PlacedSited(p, 0, 0, code);
    ListScoped(q, [], body, Ids(0, 0, 0), 0, SiteOf(p), Here(code));
    NothingVisible(p, SiteOf(p));
    HereFound(p, 0, 0, code, SiteOf(p), {});
    assert {} + Here(code) == Here(code);
    ScopedSafe(p, 0, 0, code, SiteOf(p), Here(code));
  }

  lemma NothingVisible(p: Program, depthOf: Label -> nat)
    ensures Agrees(p, depthOf, {})
  {
  }

  /** The environment holds exactly the frames of the scopes the program counter is in,
      on top of those it began with. */
  predicate InStep(p: Program, outer: seq<nat>, c: Config) {
    c.Run? ==> c.pc <= |p.ops| && |c.env| == |outer| + Depth(p.ops, c.pc) && c.env[..|outer|] == outer
  }

  lemma StepInStep(p: Program, outer: seq<nat>, c: Config)
    requires Safe(p, 0, |p.ops|) && |outer| > 0 && InStep(p, outer, c)
    ensures InStep(p, outer, Step(p, c))
  {
    if c.Run? && c.pc < |p.ops| {
      assert SafeAt(p, c.pc);
      assert Depth(p.ops, c.pc + 1) == DepthStep(p.ops[c.pc], Depth(p.ops, c.pc));
    }
  }

  /** The static scope depth of every instruction is the dynamic one, in every run. */
  lemma {:induction false} StaticDepthIsDynamic(p: Program, outer: seq<nat>, c: Config, n: nat)
    requires Safe(p, 0, |p.ops|) && |outer| > 0 && InStep(p, outer, c)
    ensures InStep(p, outer, RunN(p, c, n))
    decreases n
  {
    if n > 0 {
      StepInStep(p, outer, c);
      StaticDepthIsDynamic(p, outer, Step(p, c), n - 1);
    }
  }
}
