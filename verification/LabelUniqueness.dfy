/** Every label that lowering emits is emitted once: within one context by number,
    across contexts by the child number in the prefix. */
module LabelUniqueness {
  import opened Syntax
  import opened Ir
  import opened Lower
  import opened Machine
  import opened ExprSimulation
  import opened StmtShape

  /** How often each label is emitted, at any nesting depth. */
  function EmittedBy(i: Instr): multiset<Label>
    decreases i, 1
  {
    match i
    case LabelAt(l) => multiset{l}
    case Scope(body) => Emitted(body)
    case TryInstr(body, _, catchBody, finallyBody) => Emitted(body) + Emitted(catchBody) + Emitted(finallyBody)
    case _ => multiset{}
  }

  function Emitted(code: seq<Instr>): multiset<Label>
    decreases code, 0
  {
    if code == [] then multiset{} else EmittedBy(code[0]) + Emitted(code[1..])
  }

  lemma {:induction false} EmittedConcat(a: seq<Instr>, b: seq<Instr>)
    ensures Emitted(a + b) == Emitted(a) + Emitted(b)
  {
    if a == [] {
      assert a + b == b;
    } else {
      assert (a + b)[1..] == a[1..] + b;
      EmittedConcat(a[1..], b);
    }
  }

  predicate Quiet(code: seq<Instr>) {
    forall i :: 0 <= i < |code| ==> !code[i].LabelAt? && !code[i].Scope? && !code[i].TryInstr?
  }

  lemma {:induction false} QuietEmits(code: seq<Instr>)
    requires Quiet(code)
    ensures Emitted(code) == multiset{}
  {
    if code != [] { QuietEmits(code[1..]); }
  }

  /** Code that emits nothing but the label in its middle. */
  lemma OneEmitted(a: seq<Instr>, l: Label, b: seq<Instr>)
    requires Quiet(a) && Quiet(b)
    ensures Emitted(a + ([LabelAt(l)] + b)) == multiset{l}
  {
    QuietEmits(a);
    QuietEmits(b);
    EmittedConcat(a, [LabelAt(l)] + b);
    EmittedConcat([LabelAt(l)], b);
  }

  // ---- ranges ----------------------------------------------------------------------

  /** The purpose a label is made for begins with a letter. */
  predicate Worded(stem: string) {
    stem != [] && 'a' <= stem[0] <= 'z'
  }

  /** Numbered in this context from `lo` up to `hi`, or made in one of the child
      contexts opened in between. */
  predicate Owned(l: Label, p: seq<nat>, lo: Ids, hi: Ids) {
    l.CodeLabel? && Worded(l.stem) &&
    ((l.prefix == p && lo.lbl <= l.id < hi.lbl)
     || (|l.prefix| > |p| && l.prefix[..|p|] == p && lo.child <= l.prefix[|p|] < hi.child))
  }

  ghost predicate Fresh(m: multiset<Label>, p: seq<nat>, lo: Ids, hi: Ids) {
    Later(lo, hi) && forall l :: l in m ==> m[l] == 1 && Owned(l, p, lo, hi)
  }

  lemma Merge(a: multiset<Label>, b: multiset<Label>, p: seq<nat>, i: Ids, j: Ids, k: Ids)
    requires Fresh(a, p, i, j) && Fresh(b, p, j, k)
    ensures Fresh(a + b, p, i, k)
  {
    forall l | l in a + b ensures (a + b)[l] == 1 && Owned(l, p, i, k) {
      if l in a { assert Owned(l, p, i, j); }
      if l in b { assert Owned(l, p, j, k); }
    }
  }

  lemma Wider(m: multiset<Label>, p: seq<nat>, i: Ids, j: Ids, i': Ids, j': Ids)
    requires Fresh(m, p, i, j) && Later(i', i) && Later(j, j')
    ensures Fresh(m, p, i', j')
  {
    forall l | l in m ensures Owned(l, p, i', j') { assert Owned(l, p, i, j); }
  }

  /** Code in sequence, each part with its own range. */
  lemma FreshConcat(a: seq<Instr>, b: seq<Instr>, p: seq<nat>, i: Ids, j: Ids, k: Ids)
    requires Fresh(Emitted(a), p, i, j) && Fresh(Emitted(b), p, j, k)
    ensures Fresh(Emitted(a + b), p, i, k)
  {
    EmittedConcat(a, b);
    Merge(Emitted(a), Emitted(b), p, i, j, k);
  }

  /** What is lowered in the next child context. */
  lemma ChildFresh(m: multiset<Label>, p: seq<nat>, ids: Ids, hi: Ids)
    requires Fresh(m, p + [ids.child], Ids(0, 0, 0), hi)
    ensures Fresh(m, p, ids, Child(ids))
  {
    forall l | l in m ensures Owned(l, p, ids, Child(ids)) {
      var q := p + [ids.child];
      assert Owned(l, q, Ids(0, 0, 0), hi);
      if l.prefix == q { assert l.prefix[..|p|] == p; }
      else { assert l.prefix[..|p|] == l.prefix[..|q|][..|p|] == p; assert l.prefix[|p|] == l.prefix[..|q|][|p|]; }
    }
  }

  /** The labels of a construct stand around code lowered after they were made. */
  lemma Around(own: multiset<Label>, inner: multiset<Label>, code: seq<Instr>, p: seq<nat>, ids: Ids, mid: Ids,
               out: Ids)
    requires Fresh(own, p, ids, mid) && Fresh(inner, p, mid, out) && Emitted(code) == own + inner
    ensures Fresh(Emitted(code), p, ids, out)
  {
    Merge(own, inner, p, ids, mid, out);
  }

  // ---- expressions -----------------------------------------------------------------

  lemma QuietFresh(code: seq<Instr>, p: seq<nat>, i: Ids, j: Ids)
    requires Quiet(code) && Later(i, j)
    ensures Fresh(Emitted(code), p, i, j)
  {
    QuietEmits(code);
  }

  /** Code that emits no label of its own, after or before code that does. */
  lemma FreshTail(a: seq<Instr>, b: seq<Instr>, p: seq<nat>, i: Ids, j: Ids, k: Ids)
    requires Fresh(Emitted(a), p, i, j) && Quiet(b) && Later(j, k)
    ensures Fresh(Emitted(a + b), p, i, k)
  {
    QuietFresh(b, p, j, k);
    FreshConcat(a, b, p, i, j, k);
  }

  lemma FreshHead(a: seq<Instr>, b: seq<Instr>, p: seq<nat>, i: Ids, j: Ids, k: Ids)
    requires Quiet(a) && Later(i, j) && Fresh(Emitted(b), p, j, k)
    ensures Fresh(Emitted(a + b), p, i, k)
  {
    QuietFresh(a, p, i, j);
    FreshConcat(a, b, p, i, j, k);
  }

  lemma {:induction false} ExprFresh(p: seq<nat>, e: Expr, ids: Ids)
    ensures var x := LowerExpr(p, e, ids); Fresh(Emitted(x.code), p, ids, x.ids)
    decreases e, 2
  {
    hide Fresh, Emitted;
    var x := LowerExpr(p, e, ids);
    ExprShape(p, e, ids);
    match e
    case Lit(_) | Name(_) | Fn(_) | Update(_, _, _) => QuietFresh(x.code, p, ids, x.ids);
    case Bin(op, l, r) =>
      assert x == LowerBinary(p, e, ids);
      var a := LowerExpr(p, l, ids);
      var b := LowerExpr(p, r, a.ids);
      var tail := [BinaryInstr(b.ids.temp, op, a.value, b.value)];
      ExprFresh(p, l, ids);
      ExprFresh(p, r, a.ids);
      FreshTail(b.code, tail, p, a.ids, b.ids, x.ids);
      FreshConcat(a.code, b.code + tail, p, ids, a.ids, x.ids);
    case Unary(op, arg) =>
      assert x == LowerUnary(p, e, ids);
      var a := LowerExpr(p, arg, ids);
      ExprFresh(p, arg, ids);
      FreshTail(a.code, [UnaryInstr(a.ids.temp, op, a.value)], p, ids, a.ids, x.ids);
    case And(_, _) | Or(_, _) | Nullish(_, _) => ShortCircuitFresh(p, e, ids);
    case Cond(_, _, _) => CondFresh(p, e, ids);
    case Seq(es) => SeqFresh(p, es, Const(Undefined), ids);
    case Assign(n, r) =>
      assert x == LowerAssign(p, e, ids);
      ExprFresh(p, r, ids);
      FreshTail(LowerExpr(p, r, ids).code, [StoreName(n, LowerExpr(p, r, ids).value)], p, ids, x.ids, x.ids);
    case AssignOp(_, _, _) => AssignOpFresh(p, e, ids);
    case Call(_, _) => CallFresh(p, e, ids);
  }

  lemma {:induction false} AssignOpFresh(p: seq<nat>, e: Expr, ids: Ids)
    requires e.AssignOp?
    ensures var x := LowerExpr(p, e, ids); Fresh(Emitted(x.code), p, ids, x.ids)
    decreases e, 1
  {
    hide Fresh, Emitted;
    assert LowerExpr(p, e, ids) == LowerAssignOp(p, e, ids);
    var b := LowerExpr(p, e.right, Temp(ids));
    var tail := [BinaryInstr(b.ids.temp, e.op, Register(ids.temp), b.value), StoreName(e.name, Register(b.ids.temp))];
    ExprFresh(p, e.right, Temp(ids));
    FreshTail(b.code, tail, p, Temp(ids), b.ids, Temp(b.ids));
    FreshHead([LoadName(ids.temp, e.name)], b.code + tail, p, ids, Temp(ids), Temp(b.ids));
  }

  lemma {:induction false} CallFresh(p: seq<nat>, e: Expr, ids: Ids)
    requires e.Call?
    ensures var x := LowerExpr(p, e, ids); Fresh(Emitted(x.code), p, ids, x.ids)
    decreases e, 1
  {
    hide Fresh, Emitted;
    assert LowerExpr(p, e, ids) == LowerCall(p, e, ids);
    var a := LowerExpr(p, e.callee, ids);
    var b := LowerArgs(p, e.args, Temp(a.ids));
    var tail := [CallInstr(a.ids.temp, a.value, b.values)];
    ExprFresh(p, e.callee, ids);
    ArgsFresh(p, e.args, Temp(a.ids));
    FreshTail(b.code, tail, p, Temp(a.ids), b.ids, b.ids);
    Wider(Emitted(b.code + tail), p, Temp(a.ids), b.ids, a.ids, b.ids);
    FreshConcat(a.code, b.code + tail, p, ids, a.ids, b.ids);
  }

  lemma QuietTail(a: seq<Instr>, b: seq<Instr>)
    requires Quiet(b)
    ensures Emitted(a + b) == Emitted(a)
  {
    EmittedConcat(a, b);
    QuietEmits(b);
  }

  lemma LastEmitted(a: seq<Instr>, l: Label)
    requires Quiet(a)
    ensures Emitted(a + [LabelAt(l)]) == multiset{l}
  {
    assert a + ([LabelAt(l)] + []) == a + [LabelAt(l)];
    OneEmitted(a, l, []);
  }

  /** The labels that `&&`, `||` and `??` put before and after their right operand. */
  lemma AndLabels(p: seq<nat>, a: LoweredExpr, right: Operand)
    ensures var (mid, tail) := AndCode(p, a, right); Fresh(Emitted(mid) + Emitted(tail), p, a.ids, Labels(a.ids, 1))
  {
    var (mid, tail) := AndCode(p, a, right);
    var end := L(p, "logical_and_end", a.ids, 0);
    QuietEmits(mid);
    assert tail == [Move(a.ids.temp, right)] + [LabelAt(end)];
    LastEmitted([Move(a.ids.temp, right)], end);
  }

  lemma OrLabels(p: seq<nat>, a: LoweredExpr, right: Operand)
    ensures var (mid, tail) := OrCode(p, a, right); Fresh(Emitted(mid) + Emitted(tail), p, a.ids, Labels(a.ids, 2))
  {
    hide Emitted;
    var (mid, tail) := OrCode(p, a, right);
    var rhs, end := L(p, "logical_or_rhs", a.ids, 0), L(p, "logical_or_end", a.ids, 1);
    var head := [Move(a.ids.temp, a.value), JumpIfFalse(a.value, rhs), Jump(end)];
    assert mid == head + [LabelAt(rhs)];
    LastEmitted(head, rhs);
    assert tail == [Move(a.ids.temp, right)] + [LabelAt(end)];
    LastEmitted([Move(a.ids.temp, right)], end);
  }

  lemma NullishLabels(p: seq<nat>, a: LoweredExpr, right: Operand)
    ensures var (mid, tail) := NullishCode(p, a, right); Fresh(Emitted(mid) + Emitted(tail), p, a.ids, Labels(a.ids, 3))
  {
    hide Emitted;
    var (mid, tail) := NullishCode(p, a, right);
    var dst := a.ids.temp;
    var check, rhs, end := L(p, "nullish_check_undefined", a.ids, 0), L(p, "nullish_rhs", a.ids, 1),
        L(p, "nullish_end", a.ids, 2);
    var m1 := [Move(dst, a.value), BinaryInstr(dst + 1, "==", a.value, Const(Null)),
        JumpIfFalse(Register(dst + 1), check), Jump(rhs)];
    var m2 := [BinaryInstr(dst + 2, "==", a.value, Const(Undefined)), JumpIfFalse(Register(dst + 2), end)];
    assert mid == (m1 + [LabelAt(check)]) + (m2 + [LabelAt(rhs)]);
    EmittedConcat(m1 + [LabelAt(check)], m2 + [LabelAt(rhs)]);
    LastEmitted(m1, check);
    LastEmitted(m2, rhs);
    assert tail == [Move(dst, right)] + [LabelAt(end)];
    LastEmitted([Move(dst, right)], end);
  }

  /** An operand, the code before the right operand, the right operand, the code after it. */
  lemma MidFresh(a: seq<Instr>, mid: seq<Instr>, b: seq<Instr>, tail: seq<Instr>, p: seq<nat>, ids: Ids, i: Ids, n: Ids,
                 j: Ids, k: Ids)
    requires Fresh(Emitted(a), p, ids, i) && Fresh(Emitted(mid) + Emitted(tail), p, i, n) && Later(n, j)
             && Fresh(Emitted(b), p, j, k)
    ensures Fresh(Emitted(a + (mid + (b + tail))), p, ids, k)
  {
    hide Emitted, Fresh;
    EmittedConcat(mid, b + tail);
    EmittedConcat(b, tail);
    assert Emitted(mid + (b + tail)) == (Emitted(mid) + Emitted(tail)) + Emitted(b);
    WiderEnd(Emitted(mid) + Emitted(tail), p, i, n, j);
    Around(Emitted(mid) + Emitted(tail), Emitted(b), mid + (b + tail), p, i, j, k);
    FreshConcat(a, mid + (b + tail), p, ids, i, k);
  }

  lemma WiderEnd(m: multiset<Label>, p: seq<nat>, i: Ids, j: Ids, k: Ids)
    requires Fresh(m, p, i, j) && Later(j, k)
    ensures Fresh(m, p, i, k)
  {
    Wider(m, p, i, j, i, k);
  }

  lemma {:induction false} ShortCircuitFresh(p: seq<nat>, e: Expr, ids: Ids)
    requires e.And? || e.Or? || e.Nullish?
    ensures var x := LowerExpr(p, e, ids); Fresh(Emitted(x.code), p, ids, x.ids)
    decreases e, 1
  {
    hide Emitted, Fresh;
    var a := LowerExpr(p, e.left, ids);
    var n := if e.And? then 1 else if e.Or? then 2 else 3;
    var ids1 := Labels(if e.Nullish? then Temp(Temp(Temp(a.ids))) else Temp(a.ids), n);
    var b := LowerExpr(p, e.right, ids1);
    var (mid, tail) := if e.And? then AndCode(p, a, b.value)
                                      else if e.Or? then OrCode(p, a, b.value) else NullishCode(p, a, b.value);
    assert LowerExpr(p, e, ids) == LoweredExpr(a.code + (mid + (b.code + tail)), Register(a.ids.temp), b.ids);
    ExprFresh(p, e.left, ids);
    ExprFresh(p, e.right, ids1);
    if e.And? { AndLabels(p, a, b.value); } else if e.Or? { OrLabels(p, a, b.value); }
                                                 else { NullishLabels(p, a, b.value); }
    MidFresh(a.code, mid, b.code, tail, p, ids, a.ids, Labels(a.ids, n), ids1, b.ids);
  }

  lemma {:induction false} CondFresh(p: seq<nat>, e: Expr, ids: Ids)
    requires e.Cond?
    ensures var x := LowerExpr(p, e, ids); Fresh(Emitted(x.code), p, ids, x.ids)
    decreases e, 1
  {
    hide EmittedBy, Emitted;
    assert LowerExpr(p, e, ids) == LowerCond(p, e, ids);
    var els, end := L(p, "cond_else", ids, 0), L(p, "cond_end", ids, 1);
    var ids0 := Labels(Temp(ids), 2);
    var x := LowerExpr(p, e.test, ids0);
    var y := LowerExpr(p, e.cons, x.ids);
    var z := LowerExpr(p, e.alt, y.ids);
    var (m2, m3) := CondCode(p, ids, y.value, z.value);
    ExprFresh(p, e.test, ids0);
    ExprFresh(p, e.cons, x.ids);
    ExprFresh(p, e.alt, y.ids);
    var jump := [JumpIfFalse(x.value, els)];
    var m2' := [Move(ids.temp, y.value), Jump(end)];
    QuietEmits(jump);
    assert m2 == m2' + ([LabelAt(els)] + []);
    OneEmitted(m2', els, []);
    assert m3 == [Move(ids.temp, z.value)] + ([LabelAt(end)] + []);
    OneEmitted([Move(ids.temp, z.value)], end, []);
    CondParts(x.code, jump, y.code, m2, z.code, m3);
    Merge(Emitted(x.code), Emitted(y.code), p, ids0, x.ids, y.ids);
    Merge(Emitted(x.code) + Emitted(y.code), Emitted(z.code), p, ids0, y.ids, z.ids);
    Around(multiset{els, end}, Emitted(x.code) + Emitted(y.code) + Emitted(z.code), LowerExpr(p, e, ids).code, p, ids,
        ids0, z.ids);
  }

  lemma CondParts(a: seq<Instr>, b: seq<Instr>, c: seq<Instr>, d: seq<Instr>, e: seq<Instr>, f: seq<Instr>)
    ensures Emitted(a + (b + (c + (d + (e + f))))) == Emitted(a) + Emitted(b) + Emitted(c) + Emitted(d) + Emitted(e)
            + Emitted(f)
  {
    EmittedConcat(a, b + (c + (d + (e + f))));
    EmittedConcat(b, c + (d + (e + f)));
    EmittedConcat(c, d + (e + f));
    EmittedConcat(d, e + f);
    EmittedConcat(e, f);
  }

  lemma {:induction false} SeqFresh(p: seq<nat>, es: seq<Expr>, last: Operand, ids: Ids)
    ensures var x := LowerSeq(p, es, last, ids); Fresh(Emitted(x.code), p, ids, x.ids)
    decreases es, 0
  {
    if es != [] {
      var a := LowerExpr(p, es[0], ids);
      ExprFresh(p, es[0], ids);
      SeqFresh(p, es[1..], a.value, a.ids);
      FreshConcat(a.code, LowerSeq(p, es[1..], a.value, a.ids).code, p, ids, a.ids,
          LowerSeq(p, es[1..], a.value, a.ids).ids);
    }
  }

  lemma {:induction false} ArgsFresh(p: seq<nat>, es: seq<Expr>, ids: Ids)
    ensures var x := LowerArgs(p, es, ids); Fresh(Emitted(x.code), p, ids, x.ids)
    decreases es, 0
  {
    if es != [] {
      var a := LowerExpr(p, es[0], ids);
      ExprFresh(p, es[0], ids);
      ArgsFresh(p, es[1..], a.ids);
      FreshConcat(a.code, LowerArgs(p, es[1..], a.ids).code, p, ids, a.ids, LowerArgs(p, es[1..], a.ids).ids);
    }
  }

  // ---- statements ------------------------------------------------------------------

  /** A `switch` has one default clause at most, which is an early error otherwise. */
  predicate SingleDefaults(s: Stmt)
    decreases s, 1
  {
    match s
    case Block(body) => ListSingle(body)
    case If(_, c, alt) => SingleDefaults(c) && (alt.Some? ==> SingleDefaults(alt.value))
    case While(_, body) => SingleDefaults(body)
    case DoWhile(body, _) => SingleDefaults(body)
    case For(_, _, _, body) => SingleDefaults(body)
    case Switch(_, cases) =>
      && (forall a, b :: 0 <= a < b < |cases| && cases[a].test.None? ==> cases[b].test.Some?)
      && CasesSingle(cases)
    case Labeled(_, body) => SingleDefaults(body)
    case Try(block, handler, finalizer) =>
      && ListSingle(block) && (handler.Some? ==> ListSingle(handler.value.body))
      && (finalizer.Finally? ==> ListSingle(finalizer.body))
    case _ => true
  }

  predicate ListSingle(ss: seq<Stmt>)
    decreases ss, 0
  {
    ss == [] || (SingleDefaults(ss[0]) && ListSingle(ss[1..]))
  }

  predicate CasesSingle(cases: seq<Case>)
    decreases cases, 0
  {
    cases == [] || (ListSingle(cases[0].body) && CasesSingle(cases[1..]))
  }

  lemma Tagged(l: Label, code: seq<Instr>)
    ensures Emitted([LabelAt(l)] + code) == multiset{l} + Emitted(code)
  {
    assert ([LabelAt(l)] + code)[1..] == code;
  }

  /** A jump back and the label after it, which end every loop. */
  lemma Closing(back: Label, end: Label, more: seq<Instr>)
    requires Quiet(more)
    ensures Emitted([Jump(back), LabelAt(end)] + more) == multiset{end}
  {
    OneEmitted([Jump(back)], end, more);
    assert [Jump(back), LabelAt(end)] + more == [Jump(back)] + ([LabelAt(end)] + more);
  }

  lemma {:induction false} DeclsFresh(p: seq<nat>, kind: DeclKind, decls: seq<Declarator>, ids: Ids)
    ensures var x := LowerDecls(p, kind, decls, ids); Fresh(Emitted(x.code), p, ids, x.ids)
    decreases decls
  {
    if decls != [] {
      var a := LowerOpt(p, decls[0].init, Const(Undefined), ids);
      var b := LowerDecls(p, kind, decls[1..], a.ids);
      if decls[0].init.Some? { ExprFresh(p, decls[0].init.value, ids); }
      DeclsFresh(p, kind, decls[1..], a.ids);
      var two := [DeclareName(kind, decls[0].name), StoreName(decls[0].name, a.value)];
      QuietEmits(two);
      EmittedConcat(two, b.code);
      FreshConcat(a.code, two + b.code, p, ids, a.ids, b.ids);
    }
  }

  lemma InitFresh(p: seq<nat>, init: ForInit, ids: Ids)
    ensures var x := LowerInit(p, init, ids); Fresh(Emitted(x.code), p, ids, x.ids)
  {
    match init
    case NoInit =>
    case InitExpr(e) => UpdateFresh(p, Some(e), ids);
    case InitDecl(kind, decls) => DeclsFresh(p, kind, decls, ids);
  }

  lemma TestFresh(p: seq<nat>, t: Option<Expr>, end: Label, ids: Ids)
    ensures var x := LowerTest(p, t, end, ids); Fresh(Emitted(x.code), p, ids, x.ids)
  {
    if t.Some? {
      ExprFresh(p, t.value, ids);
      QuietTail(LowerExpr(p, t.value, ids).code, [JumpIfFalse(LowerExpr(p, t.value, ids).value, end)]);
    }
  }

  lemma UpdateFresh(p: seq<nat>, u: Option<Expr>, ids: Ids)
    ensures var x := LowerUpdate(p, u, ids); Fresh(Emitted(x.code), p, ids, x.ids)
  {
    if u.Some? {
      ExprFresh(p, u.value, ids);
      QuietTail(LowerExpr(p, u.value, ids).code, [Pop(LowerExpr(p, u.value, ids).value)]);
    }
  }

  lemma CopiesQuiet(names: seq<string>, leave: bool, ids: Ids)
    ensures Quiet(PerIteration(names, leave, ids).code)
  {
    LoadsPlain(names, ids.temp);
    StoresPlain(names, ids.temp);
    LoadsQuiet(names, ids.temp);
    StoresQuiet(names, ids.temp);
  }

  lemma {:induction false} LoadsQuiet(names: seq<string>, t: nat)
    ensures Quiet(CopyLoads(names, t))
    decreases names
  {
    if names != [] { LoadsQuiet(names[1..], t + 1); }
  }

  lemma {:induction false} StoresQuiet(names: seq<string>, t: nat)
    ensures Quiet(CopyStores(names, t))
    decreases names
  {
    if names != [] { StoresQuiet(names[1..], t + 1); }
  }

  /** Every label of a lowered statement is emitted once and carries a number of the
      statement's own range, whatever is nested in it. */
  lemma {:induction false} StmtFresh(p: seq<nat>, ctrl: seq<ControlTarget>, pending: seq<string>, s: Stmt, ids: Ids)
    requires SingleDefaults(s)
    ensures var x := LowerStmt(p, ctrl, pending, s, ids); Fresh(Emitted(x.code), p, ids, x.ids)
    decreases s, 2
  {
    hide EmittedBy, Fresh;
    match s
    case Empty => QuietFresh([], p, ids, ids);
    case ExprStmt(e) => LeafFresh(p, ctrl, pending, s, ids);
    case Decl(kind, decls) => DeclsFresh(p, kind, decls, ids);
    case Block(body) =>
      ListFresh(p, ctrl, body, ids);
      assert LowerStmt(p, ctrl, pending, s, ids) == LowerBlockScope(p, ctrl, s, ids);
      ScopeEmits(LowerList(p, ctrl, body, ids).code);
    case If(_, _, _) => IfFresh(p, ctrl, pending, s, ids);
    case While(_, _) => WhileFresh(p, ctrl, pending, s, ids);
    case DoWhile(_, _) => DoFresh(p, ctrl, pending, s, ids);
    case For(_, _, _, _) => ForFresh(p, ctrl, pending, s, ids);
    case Switch(_, _) => SwitchFresh(p, ctrl, pending, s, ids);
    case Labeled(_, _) => LabeledFresh(p, ctrl, pending, s, ids);
    case Break(t) => QuietFresh(LowerStmt(p, ctrl, pending, s, ids).code, p, ids, ids);
    case Continue(t) => QuietFresh(LowerStmt(p, ctrl, pending, s, ids).code, p, ids, ids);
    case Return(_) => LeafFresh(p, ctrl, pending, s, ids);
    case Throw(_) => LeafFresh(p, ctrl, pending, s, ids);
    case Try(_, _, _) => TryFresh(p, ctrl, pending, s, ids);
  }

  /** Statements that are one expression and an instruction or two that emit no label. */
  lemma LeafFresh(p: seq<nat>, ctrl: seq<ControlTarget>, pending: seq<string>, s: Stmt, ids: Ids)
    requires s.ExprStmt? || s.Return? || s.Throw?
    ensures var x := LowerStmt(p, ctrl, pending, s, ids); Fresh(Emitted(x.code), p, ids, x.ids)
  {
    hide Emitted, Fresh, LowerExpr;
    match s
    case ExprStmt(e) =>
      var a := LowerExpr(p, e, ids);
      ExprFresh(p, e, ids);
      if a.value.Register? { FreshTail(a.code, [Pop(a.value)], p, ids, a.ids, a.ids); }
      else { FreshTail(a.code, [Move(a.ids.temp, a.value), Pop(Register(a.ids.temp))], p, ids, a.ids, Temp(a.ids)); }
    case Return(arg) =>
      if arg.Some? {
        var a := LowerExpr(p, arg.value, ids);
        ExprFresh(p, arg.value, ids);
        FreshTail(a.code, [ReturnInstr(Some(a.value))], p, ids, a.ids, a.ids);
      } else { QuietFresh([ReturnInstr(None)], p, ids, ids); }
    case Throw(e) =>
      var a := LowerExpr(p, e, ids);
      ExprFresh(p, e, ids);
      FreshTail(a.code, [ThrowInstr(a.value)], p, ids, a.ids, a.ids);
  }

  lemma {:induction false} LabeledFresh(p: seq<nat>, ctrl: seq<ControlTarget>, pending: seq<string>, s: Stmt, ids: Ids)
    requires s.Labeled? && SingleDefaults(s)
    ensures var x := LowerStmt(p, ctrl, pending, s, ids); Fresh(Emitted(x.code), p, ids, x.ids)
    decreases s, 1
  {
    hide Emitted, Fresh;
    assert LowerStmt(p, ctrl, pending, s, ids) == LowerLabeled(p, ctrl, pending, s, ids);
    if IsControlTarget(s.stmt) {
      StmtFresh(p, ctrl, pending + [s.name], s.stmt, ids);
    } else {
      var end := L(p, "label_end", ids, 0);
      var ctrl' := ctrl + [ControlTarget(Some(s.name), end, None)];
      var y := LowerStmt(p, ctrl', [], s.stmt, Labels(ids, 1));
      StmtFresh(p, ctrl', [], s.stmt, Labels(ids, 1));
      EmittedConcat(y.code, [LabelAt(end)]);
      LastEmitted([], end);
      assert [] + [LabelAt(end)] == [LabelAt(end)];
      OneLabel(p, "label_end", ids);
      Around(multiset{end}, Emitted(y.code), y.code + [LabelAt(end)], p, ids, Labels(ids, 1), y.ids);
    }
  }

  lemma ScopeEmits(body: seq<Instr>)
    ensures Emitted([Scope(body)]) == Emitted(body)
  {
    assert [Scope(body)][1..] == [];
  }

  lemma {:induction false} ListFresh(p: seq<nat>, ctrl: seq<ControlTarget>, ss: seq<Stmt>, ids: Ids)
    requires ListSingle(ss)
    ensures var x := LowerList(p, ctrl, ss, ids); Fresh(Emitted(x.code), p, ids, x.ids)
    decreases ss, 1
  {
    if ss != [] {
      var a := LowerStmt(p, ctrl, [], ss[0], ids);
      var b := LowerList(p, ctrl, ss[1..], a.ids);
      StmtFresh(p, ctrl, [], ss[0], ids);
      ListFresh(p, ctrl, ss[1..], a.ids);
      FreshConcat(a.code, b.code, p, ids, a.ids, b.ids);
    }
  }

  lemma {:induction false} IfFresh(p: seq<nat>, ctrl: seq<ControlTarget>, pending: seq<string>, s: Stmt, ids: Ids)
    requires s.If? && SingleDefaults(s)
    ensures var x := LowerStmt(p, ctrl, pending, s, ids); Fresh(Emitted(x.code), p, ids, x.ids)
    decreases s, 1
  {
    hide EmittedBy;
    assert LowerStmt(p, ctrl, pending, s, ids) == LowerIf(p, ctrl, s, ids);
    var els, end := L(p, "if_else", ids, 0), L(p, "if_end", ids, 1);
    var ids0 := Labels(ids, 2);
    var x := LowerTest(p, Some(s.test), els, ids0);
    var y := LowerStmt(p, ctrl, [], s.cons, x.ids);
    var z := match s.alt case Some(b) => LowerStmt(p, ctrl, [], b, y.ids) case None => Lowered([], y.ids);
    TestFresh(p, Some(s.test), els, ids0);
    StmtFresh(p, ctrl, [], s.cons, x.ids);
    if s.alt.Some? { StmtFresh(p, ctrl, [], s.alt.value, y.ids); }
    IfParts(end, els, x.code, y.code, z.code);
    Three(Emitted(x.code), Emitted(y.code), Emitted(z.code), p, ids0, x.ids, y.ids, z.ids);
    Around(multiset{els, end}, Emitted(x.code) + Emitted(y.code) + Emitted(z.code), LowerIf(p, ctrl, s, ids).code, p,
        ids, ids0, z.ids);
  }

  lemma Three(a: multiset<Label>, b: multiset<Label>, c: multiset<Label>, p: seq<nat>, i: Ids, j: Ids, k: Ids, l: Ids)
    requires Fresh(a, p, i, j) && Fresh(b, p, j, k) && Fresh(c, p, k, l)
    ensures Fresh(a + b + c, p, i, l)
  {
    Merge(a, b, p, i, j, k);
    Merge(a + b, c, p, i, k, l);
  }

  lemma IfParts(end: Label, els: Label, x: seq<Instr>, y: seq<Instr>, z: seq<Instr>)
    ensures Emitted(x + (y + ([Jump(end), LabelAt(els)] + (z + [LabelAt(end)])))) == multiset{els, end}
            + (Emitted(x) + Emitted(y) + Emitted(z))
  {
    hide Emitted;
    var mid := [Jump(end), LabelAt(els)];
    EmittedConcat(x, y + (mid + (z + [LabelAt(end)])));
    EmittedConcat(y, mid + (z + [LabelAt(end)]));
    EmittedConcat(mid, z + [LabelAt(end)]);
    EmittedConcat(z, [LabelAt(end)]);
    Closing(end, els, []);
    assert mid + [] == mid && [] + [LabelAt(end)] == [LabelAt(end)];
    LastEmitted([], end);
  }

  lemma {:induction false} WhileFresh(p: seq<nat>, ctrl: seq<ControlTarget>, pending: seq<string>, s: Stmt, ids: Ids)
    requires s.While? && SingleDefaults(s)
    ensures var x := LowerStmt(p, ctrl, pending, s, ids); Fresh(Emitted(x.code), p, ids, x.ids)
    decreases s, 1
  {
    hide EmittedBy, LowerExpr, LowerTry, PushTargets, LowerForUnscoped;
    assert LowerStmt(p, ctrl, pending, s, ids) == LowerWhile(p, ctrl, pending, s, ids);
    var start, end := L(p, "while_start", ids, 0), L(p, "while_end", ids, 1);
    var ids0 := Labels(ids, 2);
    var x := LowerTest(p, Some(s.test), end, ids0);
    var ctrl' := PushTargets(ctrl, pending, end, Some(start));
    var y := LowerStmt(p, ctrl', [], s.stmt, x.ids);
    TestFresh(p, Some(s.test), end, ids0);
    StmtFresh(p, ctrl', [], s.stmt, x.ids);
    LoopParts(start, [], end, x.code, y.code, [], []);
    assert x.code + (y.code + ([] + ([] + ([Jump(start), LabelAt(end)] + [])))) == x.code
           + (y.code + [Jump(start), LabelAt(end)]);
    assert Emitted([]) == multiset{};
    Merge(Emitted(x.code), Emitted(y.code), p, ids0, x.ids, y.ids);
    Around(multiset{start, end}, Emitted(x.code) + Emitted(y.code), LowerWhile(p, ctrl, pending, s, ids).code, p, ids,
        ids0, y.ids);
  }

  /** The labels of a loop: at its start, between its parts, and at its end. */
  lemma LoopParts(start: Label, mid: seq<Instr>, end: Label, x: seq<Instr>, y: seq<Instr>, z: seq<Instr>,
                  last: seq<Instr>)
    requires Quiet(last)
    ensures Emitted([LabelAt(start)] + (x + (y + (mid + (z + ([Jump(start), LabelAt(end)] + last))))))
         == multiset{start, end} + (Emitted(x) + Emitted(y)) + (Emitted(mid) + Emitted(z))
  {
    hide Emitted;
    var tail := [Jump(start), LabelAt(end)] + last;
    Tagged(start, x + (y + (mid + (z + tail))));
    EmittedConcat(x, y + (mid + (z + tail)));
    EmittedConcat(y, mid + (z + tail));
    EmittedConcat(mid, z + tail);
    EmittedConcat(z, tail);
    Closing(start, end, last);
  }

  lemma {:induction false} DoFresh(p: seq<nat>, ctrl: seq<ControlTarget>, pending: seq<string>, s: Stmt, ids: Ids)
    requires s.DoWhile? && SingleDefaults(s)
    ensures var x := LowerStmt(p, ctrl, pending, s, ids); Fresh(Emitted(x.code), p, ids, x.ids)
    decreases s, 1
  {
    hide EmittedBy, LowerExpr, PushTargets, LowerTry;
    assert LowerStmt(p, ctrl, pending, s, ids) == LowerDoWhile(p, ctrl, pending, s, ids);
    var start, test, end := L(p, "do_start", ids, 0), L(p, "do_test", ids, 1), L(p, "do_end", ids, 2);
    var ids0 := Labels(ids, 3);
    var ctrl' := PushTargets(ctrl, pending, end, Some(test));
    var y := LowerStmt(p, ctrl', [], s.stmt, ids0);
    var x := LowerTest(p, Some(s.test), end, y.ids);
    StmtFresh(p, ctrl', [], s.stmt, ids0);
    TestFresh(p, Some(s.test), end, y.ids);
    LoopParts(start, [LabelAt(test)], end, [], y.code, x.code, []);
    Tagged(test, []);
    assert [LabelAt(test)] + [] == [LabelAt(test)];
    assert [] + (y.code + ([LabelAt(test)] + (x.code + ([Jump(start), LabelAt(end)] + []))))
        == y.code + ([LabelAt(test)] + (x.code + [Jump(start), LabelAt(end)]));
    Merge(Emitted(y.code), Emitted(x.code), p, ids0, y.ids, x.ids);
    Around(multiset{start, test, end}, Emitted(y.code) + Emitted(x.code), LowerDoWhile(p, ctrl, pending, s, ids).code,
        p, ids, ids0, x.ids);
  }

  /** The two kinds of `for`: with or without copies of the bindings between its parts. */
  lemma {:induction false} ForFresh(p: seq<nat>, ctrl: seq<ControlTarget>, pending: seq<string>, s: Stmt, ids: Ids)
    requires s.For? && SingleDefaults(s)
    ensures var x := LowerStmt(p, ctrl, pending, s, ids); Fresh(Emitted(x.code), p, ids, x.ids)
    decreases s, 1
  {
    hide Emitted, Fresh, LowerStmt, LowerInit, LowerTest, LowerUpdate;
    var lexical := IsLexicalFor(s);
    var names := if lexical then BoundNames(s.init.decls) else [];
    var i := LowerInit(p, s.init, ids);
    var c := if lexical then PerIteration(names, false, i.ids) else Lowered([], i.ids);
    var start, next, end := L(p, "for_start", c.ids, 0), L(p, "for_update", c.ids, 1), L(p, "for_end", c.ids, 2);
    var ids0 := Labels(c.ids, 3);
    var x := LowerTest(p, s.guard, end, ids0);
    var ctrl' := PushTargets(ctrl, pending, end, Some(next));
    var y := LowerStmt(p, ctrl', [], s.stmt, x.ids);
    var d := if lexical then PerIteration(names, true, y.ids) else Lowered([], y.ids);
    var z := LowerUpdate(p, s.update, d.ids);
    var last := if lexical then [LeaveScope] else [];
    InitFresh(p, s.init, ids);
    TestFresh(p, s.guard, end, ids0);
    StmtFresh(p, ctrl', [], s.stmt, x.ids);
    UpdateFresh(p, s.update, d.ids);
    if lexical { CopiesQuiet(names, false, i.ids); CopiesQuiet(names, true, y.ids); }
    ForParts(i.code, c.code, start, next, end, x.code, y.code, d.code, z.code, last);
    var rounds := Emitted(x.code) + Emitted(y.code) + Emitted(z.code);
    Wider(Emitted(z.code), p, d.ids, z.ids, y.ids, z.ids);
    Three(Emitted(x.code), Emitted(y.code), Emitted(z.code), p, ids0, x.ids, y.ids, z.ids);
    ThreeLabels(p, c.ids, "for_start", "for_update", "for_end");
    Merge(multiset{start, next, end}, rounds, p, c.ids, ids0, z.ids);
    Wider(Emitted(i.code), p, ids, i.ids, ids, c.ids);
    Merge(Emitted(i.code), multiset{start, next, end} + rounds, p, ids, c.ids, z.ids);
    ForIs(p, ctrl, pending, s, ids, i, c, x, y, d, z);
    ScopeEmits(ForCodeOf(i.code, c.code, start, next, end, x.code, y.code, d.code, z.code, last));
  }

  /** The code of a `for`, from its parts. */
  lemma ForIs(p: seq<nat>, ctrl: seq<ControlTarget>, pending: seq<string>, s: Stmt, ids: Ids,
              i: Lowered, c: Lowered, x: Lowered, y: Lowered, d: Lowered, z: Lowered)
    requires s.For?
    requires var lexical := IsLexicalFor(s); var names := if lexical then BoundNames(s.init.decls) else [];
             var start, next, end := L(p, "for_start", c.ids, 0), L(p, "for_update", c.ids, 1),
                 L(p, "for_end", c.ids, 2);
             && i == LowerInit(p, s.init, ids)
                && c == (if lexical then PerIteration(names, false, i.ids) else Lowered([], i.ids))
             && x == LowerTest(p, s.guard, end, Labels(c.ids, 3))
             && y == LowerStmt(p, PushTargets(ctrl, pending, end, Some(next)), [], s.stmt, x.ids)
             && d == (if lexical then PerIteration(names, true, y.ids) else Lowered([], y.ids))
                && z == LowerUpdate(p, s.update, d.ids)
    ensures var start, next, end := L(p, "for_start", c.ids, 0), L(p, "for_update", c.ids, 1),
            L(p, "for_end", c.ids, 2);
            var all := ForCodeOf(i.code, c.code, start, next, end, x.code, y.code, d.code, z.code, if IsLexicalFor(s)
                then [LeaveScope] else []);
            LowerStmt(p, ctrl, pending, s, ids) == Lowered(if IsLexicalFor(s) then [Scope(all)] else all, z.ids)
  {
    hide LowerInit, LowerTest, LowerUpdate, PerIteration;
    var start, next, end := L(p, "for_start", c.ids, 0), L(p, "for_update", c.ids, 1), L(p, "for_end", c.ids, 2);
    if IsLexicalFor(s) {
      assert LowerStmt(p, ctrl, pending, s, ids) == LowerForLexical(p, ctrl, pending, s, ids);
      assert [Jump(start), LabelAt(end)] + [LeaveScope] == [Jump(start), LabelAt(end), LeaveScope];
    } else {
      assert LowerStmt(p, ctrl, pending, s, ids) == LowerForUnscoped(p, ctrl, pending, s, ids);
      NoCopies(i.code, start, next, end, x.code, y.code, z.code);
    }
  }

  lemma NoCopies(i: seq<Instr>, start: Label, next: Label, end: Label, x: seq<Instr>, y: seq<Instr>, z: seq<Instr>)
    ensures ForCodeOf(i, [], start, next, end, x, y, [], z, [])
         == i + ([LabelAt(start)] + (x + (y + ([LabelAt(next)] + (z + [Jump(start), LabelAt(end)])))))
  {
    var tail := [Jump(start), LabelAt(end)];
    assert tail + [] == tail && [] + (z + tail) == z + tail;
    var loop := [LabelAt(start)] + (x + (y + ([LabelAt(next)] + (z + tail))));
    assert [] + loop == loop;
  }

  function ForCodeOf(i: seq<Instr>, c: seq<Instr>, start: Label, next: Label, end: Label,
                     x: seq<Instr>, y: seq<Instr>, d: seq<Instr>, z: seq<Instr>, last: seq<Instr>): seq<Instr> {
    i + (c + ([LabelAt(start)] + (x + (y + ([LabelAt(next)] + (d + (z + ([Jump(start), LabelAt(end)] + last))))))))
  }

  lemma ThreeLabels(p: seq<nat>, ids: Ids, a: string, b: string, c: string)
    requires Worded(a) && Worded(b) && Worded(c)
    ensures Fresh(multiset{L(p, a, ids, 0), L(p, b, ids, 1), L(p, c, ids, 2)}, p, ids, Labels(ids, 3))
  {
  }

  lemma ForParts(i: seq<Instr>, c: seq<Instr>, start: Label, next: Label, end: Label,
                 x: seq<Instr>, y: seq<Instr>, d: seq<Instr>, z: seq<Instr>, last: seq<Instr>)
    requires Quiet(c) && Quiet(d) && Quiet(last)
    ensures Emitted(ForCodeOf(i, c, start, next, end, x, y, d, z, last))
         == Emitted(i) + (multiset{start, next, end} + (Emitted(x) + Emitted(y) + Emitted(z)))
  {
    var tail := [Jump(start), LabelAt(end)] + last;
    hide Emitted;
    var loop := [LabelAt(start)] + (x + (y + ([LabelAt(next)] + (d + (z + tail)))));
    QuietEmits(c);
    QuietEmits(d);
    LoopParts(start, [LabelAt(next)] + d, end, x, y, z, last);
    Tagged(next, d);
    assert ([LabelAt(next)] + d) + (z + tail) == [LabelAt(next)] + (d + (z + tail));
    EmittedConcat(c, loop);
    EmittedConcat(i, c + loop);
  }

  lemma {:induction false} TestsFresh(p: seq<nat>, d: Operand, cases: seq<Case>, labels: seq<Label>, ids: Ids)
    requires |labels| == |cases|
    ensures var x := LowerTests(p, d, cases, labels, ids); Fresh(Emitted(x.code), p, ids, x.ids)
    decreases cases
  {
    hide Emitted, Fresh, LowerExpr;
    if cases == [] {
      QuietFresh([], p, ids, ids);
    } else if cases[0].test.None? {
      TestsFresh(p, d, cases[1..], labels[1..], ids);
    } else {
      var a := LowerExpr(p, cases[0].test.value, ids);
      var ids1 := Labels(Temp(a.ids), 1);
      var b := LowerTests(p, d, cases[1..], labels[1..], ids1);
      ExprFresh(p, cases[0].test.value, ids);
      TestsFresh(p, d, cases[1..], labels[1..], ids1);
      var next := L(p, "switch_next", a.ids, 0);
      var three := [BinaryInstr(a.ids.temp, "===", d, a.value), JumpIfFalse(Register(a.ids.temp), next),
          Jump(labels[0])];
      LastEmitted(three, next);
      EmittedConcat(three + [LabelAt(next)], b.code);
      OneLabel(p, "switch_next", a.ids);
      WiderEnd(multiset{next}, p, a.ids, Labels(a.ids, 1), ids1);
      Around(multiset{next}, Emitted(b.code), three + [LabelAt(next)] + b.code, p, a.ids, ids1, b.ids);
      FreshConcat(a.code, three + [LabelAt(next)] + b.code, p, ids, a.ids, b.ids);
      assert three + [LabelAt(next)]
          == [BinaryInstr(a.ids.temp, "===", d, a.value), JumpIfFalse(Register(a.ids.temp), next), Jump(labels[0]),
              LabelAt(next)];
    }
  }

  /** The clauses emit their own labels, and what their bodies emit. */
  lemma {:induction false} CasesFresh(p: seq<nat>, ctrl: seq<ControlTarget>, cases: seq<Case>, labels: seq<Label>,
                                      ids: Ids) returns (inner: multiset<Label>)
    requires |labels| == |cases| && CasesSingle(cases)
    ensures var x := LowerCases(p, ctrl, cases, labels, ids); Fresh(inner, p, ids, x.ids)
                                                              && Emitted(x.code) == multiset(labels) + inner
    decreases cases, 1
  {
    hide EmittedBy, Fresh, LowerList, LowerExpr;
    if cases == [] {
      inner := multiset{};
      QuietFresh([], p, ids, ids);
    } else {
      var a := LowerList(p, ctrl, cases[0].body, ids);
      var b := LowerCases(p, ctrl, cases[1..], labels[1..], a.ids);
      ListFresh(p, ctrl, cases[0].body, ids);
      var rest := CasesFresh(p, ctrl, cases[1..], labels[1..], a.ids);
      inner := Emitted(a.code) + rest;
      Merge(Emitted(a.code), rest, p, ids, a.ids, b.ids);
      Tagged(labels[0], a.code + b.code);
      EmittedConcat(a.code, b.code);
      HeadCount(labels);
    }
  }

  lemma HeadCount(labels: seq<Label>)
    requires labels != []
    ensures multiset(labels) == multiset{labels[0]} + multiset(labels[1..])
  {
    assert labels == [labels[0]] + labels[1..];
  }

  /** The labels of the clauses, without the default's. */
  function OwnLabels(cases: seq<Case>, labels: seq<Label>, dflt: Label): multiset<Label> {
    if HasDefault(cases) then multiset(labels) - multiset{dflt} else multiset(labels)
  }

  /** They differ from each other and from the default's. */
  lemma {:induction false} CaseLabelsFresh(p: seq<nat>, cases: seq<Case>, from: nat, dflt: Label, ids: Ids)
    requires forall a, b :: 0 <= a < b < |cases| && cases[a].test.None? ==> cases[b].test.Some?
    ensures var r := CaseLabels(p, cases, from, dflt, ids);
            Fresh(OwnLabels(cases, r.0, dflt), p, ids, r.1)
            && (HasDefault(cases) ==> multiset(r.0) == OwnLabels(cases, r.0, dflt) + multiset{dflt})
    decreases cases
  {
    hide Fresh, HasDefault, OwnLabels;
    if cases == [] {
      QuietFresh([], p, ids, ids);
      NoDefault(cases, dflt);
    } else {
      var ids1 := if cases[0].test.Some? then Labels(ids, 1) else ids;
      var r, rest := CaseLabels(p, cases, from, dflt, ids), CaseLabels(p, cases[1..], from + 1, dflt, ids1);
      CaseLabelsFresh(p, cases[1..], from + 1, dflt, ids1);
      if cases[0].test.None? {
        OnlyDefault(cases);
        OwnDefault(cases, r.0, dflt);
      } else {
        OwnTest(cases, r.0, dflt);
        OneLabel(p, "switch_case_" + Decimal(from), ids);
        Merge(multiset{r.0[0]}, OwnLabels(cases[1..], rest.0, dflt), p, ids, ids1, rest.1);
      }
    }
  }

  lemma OwnTest(cases: seq<Case>, labels: seq<Label>, dflt: Label)
    requires cases != [] && |labels| == |cases| && cases[0].test.Some?
    requires HasDefault(cases[1..])
             ==> multiset(labels[1..]) == OwnLabels(cases[1..], labels[1..], dflt) + multiset{dflt}
    ensures OwnLabels(cases, labels, dflt) == multiset{labels[0]} + OwnLabels(cases[1..], labels[1..], dflt)
    ensures HasDefault(cases) ==> multiset(labels) == OwnLabels(cases, labels, dflt) + multiset{dflt}
  {
    hide HasDefault;
    HeadCount(labels);
    DefaultTail(cases);
    var own := OwnLabels(cases[1..], labels[1..], dflt);
    PlusMinus(multiset{labels[0]} + own, dflt);
    assert HasDefault(cases) ==> multiset(labels) == (multiset{labels[0]} + own) + multiset{dflt};
  }

  lemma OwnDefault(cases: seq<Case>, labels: seq<Label>, dflt: Label)
    requires cases != [] && |labels| == |cases| && HasDefault(cases) && !HasDefault(cases[1..]) && labels[0] == dflt
    ensures OwnLabels(cases, labels, dflt) == OwnLabels(cases[1..], labels[1..], dflt)
    ensures multiset(labels) == OwnLabels(cases, labels, dflt) + multiset{dflt}
  {
    hide HasDefault;
    HeadCount(labels);
    var own := OwnLabels(cases[1..], labels[1..], dflt);
    PlusMinus(own, dflt);
    assert multiset(labels) == own + multiset{dflt};
  }

  lemma PlusMinus(m: multiset<Label>, l: Label)
    ensures m + multiset{l} - multiset{l} == m
  {
  }

  lemma DefaultTail(cases: seq<Case>)
    requires cases != [] && cases[0].test.Some?
    ensures HasDefault(cases) == HasDefault(cases[1..])
  {
    if HasDefault(cases) {
      var k :| 0 <= k < |cases| && cases[k].test.None?;
      assert cases[1..][k - 1].test.None?;
    }
  }

  lemma OneLabel(p: seq<nat>, stem: string, ids: Ids)
    requires Worded(stem)
    ensures Fresh(multiset{L(p, stem, ids, 0)}, p, ids, Labels(ids, 1))
  {
  }

  lemma OnlyDefault(cases: seq<Case>)
    requires forall a, b :: 0 <= a < b < |cases| && cases[a].test.None? ==> cases[b].test.Some?
    requires cases != [] && cases[0].test.None?
    ensures HasDefault(cases) && !HasDefault(cases[1..])
  {
  }

  lemma NoDefault(cases: seq<Case>, dflt: Label)
    requires cases == []
    ensures !HasDefault(cases) && OwnLabels(cases, [], dflt) == multiset{}
  {
  }

  lemma {:induction false} SwitchFresh(p: seq<nat>, ctrl: seq<ControlTarget>, pending: seq<string>, s: Stmt, ids: Ids)
    requires s.Switch? && SingleDefaults(s)
    ensures var x := LowerStmt(p, ctrl, pending, s, ids); Fresh(Emitted(x.code), p, ids, x.ids)
    decreases s, 1
  {
    hide Emitted, LowerExpr, CaseLabels, LowerTests, LowerCases, HasDefault, LowerIf;
    assert LowerStmt(p, ctrl, pending, s, ids) == LowerSwitch(p, ctrl, pending, s, ids);
    var x := LowerExpr(p, s.disc, ids);
    var end, dflt := L(p, "switch_end", x.ids, 0), L(p, "switch_default", x.ids, 1);
    var ids0 := Labels(x.ids, 2);
    var ls := CaseLabels(p, s.cases, 0, dflt, ids0);
    var t := LowerTests(p, x.value, s.cases, ls.0, ls.1);
    var target := if HasDefault(s.cases) then dflt else end;
    var ctrl' := PushTargets(ctrl, pending, end, None);
    var y := LowerCases(p, ctrl', s.cases, ls.0, t.ids);
    ExprFresh(p, s.disc, ids);
    CaseLabelsFresh(p, s.cases, 0, dflt, ids0);
    TestsFresh(p, x.value, s.cases, ls.0, ls.1);
    var inner := CasesFresh(p, ctrl', s.cases, ls.0, t.ids);
    SwitchParts(end, target, x.code, t.code, y.code);
    Merge(Emitted(t.code), inner, p, ls.1, t.ids, y.ids);
    var own := OwnLabels(s.cases, ls.0, dflt);
    var two := if HasDefault(s.cases) then multiset{end, dflt} else multiset{end};
    assert Fresh(two, p, x.ids, ids0);
    Merge(two, own, p, x.ids, ids0, ls.1);
    Merge(two + own, Emitted(t.code) + inner, p, x.ids, ls.1, y.ids);
    Merge(Emitted(x.code), two + own + (Emitted(t.code) + inner), p, ids, x.ids, y.ids);
    assert Emitted(LowerSwitch(p, ctrl, pending, s, ids).code) == Emitted(x.code)
           + (two + own + (Emitted(t.code) + inner));
  }

  lemma SwitchParts(end: Label, target: Label, x: seq<Instr>, t: seq<Instr>, y: seq<Instr>)
    ensures Emitted(x + (t + ([Jump(target)] + (y + [LabelAt(end)])))) == Emitted(x) + Emitted(t) + Emitted(y)
            + multiset{end}
  {
    hide Emitted;
    EmittedConcat(x, t + ([Jump(target)] + (y + [LabelAt(end)])));
    EmittedConcat(t, [Jump(target)] + (y + [LabelAt(end)]));
    EmittedConcat([Jump(target)], y + [LabelAt(end)]);
    EmittedConcat(y, [LabelAt(end)]);
    QuietEmits([Jump(target)]);
    LastEmitted([], end);
    assert [] + [LabelAt(end)] == [LabelAt(end)];
  }

  /** The parts of a `try` number their labels from zero again, under a longer prefix. */
  lemma {:induction false} TryFresh(p: seq<nat>, ctrl: seq<ControlTarget>, pending: seq<string>, s: Stmt, ids: Ids)
    requires s.Try? && SingleDefaults(s)
    ensures var x := LowerStmt(p, ctrl, pending, s, ids); Fresh(Emitted(x.code), p, ids, x.ids)
    decreases s, 1
  {
    assert LowerStmt(p, ctrl, pending, s, ids) == LowerTry(p, s, ids);
    var ids1 := Child(ids);
    var ids2 := if s.handler.Some? then Child(ids1) else ids1;
    var ids3 := if s.finalizer.Finally? then Child(ids2) else ids2;
    var i := LowerTry(p, s, ids).code[0];
    PartFresh(p, s.block, ids);
    if s.handler.Some? { PartFresh(p, s.handler.value.body, ids1); }
    if s.finalizer.Finally? { PartFresh(p, s.finalizer.body, ids2); }
    Three(Emitted(i.body), Emitted(i.catchBody), Emitted(i.finallyBody), p, ids, ids1, ids2, ids3);
    assert Emitted([i]) == EmittedBy(i) + Emitted([]);
    assert LowerTry(p, s, ids).code == [i];
  }

  lemma {:induction false} PartFresh(p: seq<nat>, body: seq<Stmt>, ids: Ids)
    requires ListSingle(body)
    ensures var x := LowerList(p + [ids.child], [], body, Ids(0, 0, 0));
            Fresh(Emitted([Scope(x.code)]), p, ids, Child(ids))
    decreases body, 2
  {
    var x := LowerList(p + [ids.child], [], body, Ids(0, 0, 0));
    ListFresh(p + [ids.child], [], body, Ids(0, 0, 0));
    ChildFresh(Emitted(x.code), p, ids, x.ids);
    ScopeEmits(x.code);
  }

  // ---- the linear form -------------------------------------------------------------

  function LabelCount(ops: seq<Op>): multiset<Label> {
    if ops == [] then multiset{}
    else (if ops[0].OpLabel? then multiset{ops[0].l} else multiset{}) + LabelCount(ops[1..])
  }

  lemma {:induction false} CountConcat(a: seq<Op>, b: seq<Op>)
    ensures LabelCount(a + b) == LabelCount(a) + LabelCount(b)
  {
    if a == [] {
      assert a + b == b;
    } else {
      assert (a + b)[1..] == a[1..] + b;
      CountConcat(a[1..], b);
    }
  }

  lemma {:induction false} CountOne(i: Instr)
    ensures LabelCount(LinearOne(i)) == EmittedBy(i)
    decreases i, 2
  {
    if i.Scope? {
      CountCode(i.body);
      assert LinearOne(i) == [OpEnterScope] + Linear(i.body) + [OpLeaveScope];
      CountAround([OpEnterScope], Linear(i.body), [OpLeaveScope]);
    } else if i.TryInstr? {
      CountTry(i);
    } else {
      assert |LinearOne(i)| == 1 && LinearOne(i)[1..] == [];
    }
  }

  /** Markers around nested code carry no labels. */
  lemma CountAround(a: seq<Op>, f: seq<Op>, b: seq<Op>)
    requires |a| <= 1 && |b| <= 1 && (forall k :: 0 <= k < |a| ==> !a[k].OpLabel?)
             && (forall k :: 0 <= k < |b| ==> !b[k].OpLabel?)
    ensures LabelCount(a + f + b) == LabelCount(f)
  {
    CountConcat(a + f, b);
    CountConcat(a, f);
  }

  lemma {:induction false} CountTry(i: Instr)
    requires i.TryInstr?
    ensures LabelCount(LinearOne(i)) == EmittedBy(i)
    decreases i, 1
  {
    hide LabelCount;
    var b := [OpEnterTry] + Linear(i.body) + [];
    var c := if i.catchBody == [] then [] else [OpEnterCatch(i.param)] + Linear(i.catchBody) + [];
    var f := (if i.finallyBody == [] then [] else [OpEnterFinally] + Linear(i.finallyBody)) + [OpLeaveTry];
    assert LinearOne(i) == b + (c + f);
    CountConcat(b, c + f);
    CountConcat(c, f);
    CountCode(i.body);
    CountCode(i.catchBody);
    CountCode(i.finallyBody);
    CountAround([OpEnterTry], Linear(i.body), []);
    CountAround([OpEnterCatch(i.param)], Linear(i.catchBody), []);
    CountAround([OpEnterFinally], Linear(i.finallyBody), [OpLeaveTry]);
    CountAround([], Linear(i.finallyBody), [OpLeaveTry]);
    assert i.catchBody == [] ==> c == Linear(i.catchBody);
    assert i.finallyBody == [] ==> f == [] + Linear(i.finallyBody) + [OpLeaveTry];
  }

  lemma {:induction false} CountCode(code: seq<Instr>)
    ensures LabelCount(Linear(code)) == Emitted(code)
    decreases code, 0
  {
    if code != [] {
      CountOne(code[0]);
      CountCode(code[1..]);
      CountConcat(LinearOne(code[0]), Linear(code[1..]));
    }
  }

  lemma {:induction false} CountAt(ops: seq<Op>, i: nat)
    requires i < |ops| && ops[i].OpLabel?
    ensures ops[i].l in LabelCount(ops)
  {
    if i > 0 { CountAt(ops[1..], i - 1); }
  }

  lemma {:induction false} OnceUnique(ops: seq<Op>)
    requires forall l :: l in LabelCount(ops) ==> LabelCount(ops)[l] == 1
    ensures UniqueLabels(ops)
  {
    forall i, j | 0 <= i < j < |ops| && ops[i].OpLabel? && ops[j].OpLabel? ensures ops[i] != ops[j] {
      var a, b := ops[..j], ops[j..];
      assert ops == a + b && a[i] == ops[i] && b[0] == ops[j];
      CountConcat(a, b);
      CountAt(a, i);
      CountAt(b, 0);
      var l := ops[j].l;
      assert LabelCount(ops)[l] == LabelCount(a)[l] + LabelCount(b)[l];
    }
  }

  /** Within one function every emitted label occurs once. */
  lemma FunctionLabelsUnique(p: seq<nat>, body: seq<Stmt>)
    requires ListSingle(body)
    ensures UniqueLabels(Linear(LowerList(p, [], body, Ids(0, 0, 0)).code))
  {
    var x := LowerList(p, [], body, Ids(0, 0, 0));
    ListFresh(p, [], body, Ids(0, 0, 0));
    CountCode(x.code);
    OnceUnique(Linear(x.code));
  }
}
