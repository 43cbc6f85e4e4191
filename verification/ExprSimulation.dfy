/** Lowered expressions compute what the source expressions mean. */
module ExprSimulation {
  import opened Syntax
  import opened Semantics
  import opened Ir
  import opened Lower
  import opened Machine

  predicate Later(ids: Ids, ids': Ids) {
    ids.temp <= ids'.temp && ids.lbl <= ids'.lbl && ids.child <= ids'.child
  }

  predicate Below(o: Operand, t: nat) { o.Register? ==> o.r < t }

  ghost predicate Shaped(ids: Ids, x: LoweredExpr) {
    Plain(x.code) && Later(ids, x.ids) && Below(x.value, x.ids.temp)
  }

  lemma PlainConcat(a: seq<Instr>, b: seq<Instr>)
    requires Plain(a) && Plain(b)
    ensures Plain(a + b)
  {
  }

  /** Expression code opens no scope, numbering only grows, and the operand is a
      register already handed out. */
  lemma {:induction false} ExprShape(p: seq<nat>, e: Expr, ids: Ids)
    ensures Shaped(ids, LowerExpr(p, e, ids))
    decreases e, 1
  {
    hide LowerCond, AndCode, Labels, LowerArgs, OrCode, LowerNullish;
    match e
    case Lit(_) | Name(_) | Fn(_) | Update(_, _, _) =>
    case Bin(op, l, r) =>
      var a := LowerExpr(p, l, ids);
      var b := LowerExpr(p, r, a.ids);
      ExprShape(p, l, ids);
      ExprShape(p, r, a.ids);
      PlainConcat(b.code, [BinaryInstr(b.ids.temp, op, a.value, b.value)]);
    case Unary(_, a) => ExprShape(p, a, ids);
    case And(_, _) => AndShape(p, e, ids);
    case Or(_, _) => OrShape(p, e, ids);
    case Nullish(_, _) => NullishShape(p, e, ids);
    case Cond(_, _, _) => CondShape(p, e, ids);
    case Seq(es) => SeqShape(p, es, Const(Undefined), ids);
    case Assign(_, r) => ExprShape(p, r, ids);
    case AssignOp(_, _, r) => ExprShape(p, r, Temp(ids));
    case Call(f, args) =>
      ExprShape(p, f, ids);
      ArgsShape(p, args, Temp(LowerExpr(p, f, ids).ids));
  }

  lemma {:induction false} AndShape(p: seq<nat>, e: Expr, ids: Ids)
    requires e.And?
    ensures Shaped(ids, LowerExpr(p, e, ids))
    decreases e, 0
  {
    assert LowerExpr(p, e, ids) == LowerAnd(p, e, ids);
    var a := LowerExpr(p, e.left, ids);
    var ids1 := Labels(Temp(a.ids), 1);
    var b := LowerExpr(p, e.right, ids1);
    ExprShape(p, e.left, ids);
    ExprShape(p, e.right, ids1);
    var (mid, tail) := AndCode(p, a, b.value);
    PlainConcat(b.code, tail);
    PlainConcat(mid, b.code + tail);
    PlainConcat(a.code, mid + (b.code + tail));
  }

  lemma {:induction false} OrShape(p: seq<nat>, e: Expr, ids: Ids)
    requires e.Or?
    ensures Shaped(ids, LowerExpr(p, e, ids))
    decreases e, 0
  {
    assert LowerExpr(p, e, ids) == LowerOr(p, e, ids);
    var a := LowerExpr(p, e.left, ids);
    var ids1 := Labels(Temp(a.ids), 2);
    var b := LowerExpr(p, e.right, ids1);
    ExprShape(p, e.left, ids);
    ExprShape(p, e.right, ids1);
    var (mid, tail) := OrCode(p, a, b.value);
    PlainConcat(b.code, tail);
    PlainConcat(mid, b.code + tail);
    PlainConcat(a.code, mid + (b.code + tail));
  }

  lemma {:induction false} NullishShape(p: seq<nat>, e: Expr, ids: Ids)
    requires e.Nullish?
    ensures Shaped(ids, LowerExpr(p, e, ids))
    decreases e, 0
  {
    assert LowerExpr(p, e, ids) == LowerNullish(p, e, ids);
    var a := LowerExpr(p, e.left, ids);
    var ids1 := Labels(Temp(Temp(Temp(a.ids))), 3);
    var b := LowerExpr(p, e.right, ids1);
    ExprShape(p, e.left, ids);
    ExprShape(p, e.right, ids1);
    var (mid, tail) := NullishCode(p, a, b.value);
    PlainConcat(b.code, tail);
    PlainConcat(mid, b.code + tail);
    PlainConcat(a.code, mid + (b.code + tail));
  }

  lemma {:induction false} CondShape(p: seq<nat>, e: Expr, ids: Ids)
    requires e.Cond?
    ensures Shaped(ids, LowerExpr(p, e, ids))
    decreases e, 0
  {
    assert LowerExpr(p, e, ids) == LowerCond(p, e, ids);
    var ids0 := Labels(Temp(ids), 2);
    var x := LowerExpr(p, e.test, ids0);
    var y := LowerExpr(p, e.cons, x.ids);
    var z := LowerExpr(p, e.alt, y.ids);
    ExprShape(p, e.test, ids0);
    ExprShape(p, e.cons, x.ids);
    ExprShape(p, e.alt, y.ids);
    var els := L(p, "cond_else", ids, 0);
    var (m2, m3) := CondCode(p, ids, y.value, z.value);
    PlainConcat(z.code, m3);
    PlainConcat(m2, z.code + m3);
    PlainConcat(y.code, m2 + (z.code + m3));
    PlainConcat([JumpIfFalse(x.value, els)], y.code + (m2 + (z.code + m3)));
    PlainConcat(x.code, [JumpIfFalse(x.value, els)] + (y.code + (m2 + (z.code + m3))));
  }

  lemma {:induction false} SeqShape(p: seq<nat>, es: seq<Expr>, last: Operand, ids: Ids)
    requires Below(last, ids.temp)
    ensures Shaped(ids, LowerSeq(p, es, last, ids))
    decreases es, 0
  {
    if es != [] {
      var a := LowerExpr(p, es[0], ids);
      ExprShape(p, es[0], ids);
      SeqShape(p, es[1..], a.value, a.ids);
    }
  }

  lemma {:induction false} ArgsShape(p: seq<nat>, es: seq<Expr>, ids: Ids)
    ensures var x := LowerArgs(p, es, ids);
            Plain(x.code) && Later(ids, x.ids) && forall i :: 0 <= i < |es| ==> Below(x.values[i], x.ids.temp)
    decreases es, 0
  {
    if es != [] {
      var a := LowerExpr(p, es[0], ids);
      ExprShape(p, es[0], ids);
      ArgsShape(p, es[1..], a.ids);
    }
  }

  // ---- what a run of expression code achieves ------------------------------------

  predicate Same(a: map<nat, Value>, b: map<nat, Value>, t: nat) {
    forall r: nat :: r < t ==> Read(Register(r), a) == Read(Register(r), b)
  }

  /** From `pc`, either throws what `r` throws, or arrives at `end` with the value of
      `r` in `value`, registers below `t` untouched and the environment as it was. */
  ghost predicate Computes(p: Program, pc: nat, end: nat, regs: map<nat, Value>, regs': map<nat, Value>,
                           env: seq<nat>, w: World, t: nat, value: Operand, r: (Result, World)) {
    match r.0
    case Throws(v) => Reaches(p, Run(pc, regs, env, w), Done(Thrown(v), r.1))
    case Ok(v) =>
      && Reaches(p, Run(pc, regs, env, w), Run(end, regs', env, r.1))
      && Read(value, regs') == v
      && Same(regs, regs', t)
  }

  lemma ComputesAfter(p: Program, pc: nat, regs: map<nat, Value>, w: World, pc1: nat, regs1: map<nat, Value>, w1: World,
                      end: nat, regs': map<nat, Value>, env: seq<nat>, t: nat, value: Operand, r: (Result, World))
    requires Reaches(p, Run(pc, regs, env, w), Run(pc1, regs1, env, w1))
    requires Same(regs, regs1, t)
    requires Computes(p, pc1, end, regs1, regs', env, w1, t, value, r)
    ensures Computes(p, pc, end, regs, regs', env, w, t, value, r)
  {
    var b := Run(pc1, regs1, env, w1);
    match r.0
    case Throws(v) => Trans(p, Run(pc, regs, env, w), b, Done(Thrown(v), r.1));
    case Ok(v) => Trans(p, Run(pc, regs, env, w), b, Run(end, regs', env, r.1));
  }

  // ---- simulation --------------------------------------------------------------

  lemma PlainSplit(p: Program, pc: nat, d: nat, a: seq<Instr>, b: seq<Instr>)
    requires At(p, pc, d, a + b) && Plain(a)
    ensures At(p, pc, d, a) && At(p, pc + |a|, d, b)
  {
    hide Depth, LinearOne, OpsAt, DepthStep;
    AtSplit(p, pc, d, a, b);
    AtPlain(p, pc, d, a);
    PlainLinear(a);
    FlatDepth(d, Linear(a));
  }

  predicate Placed(p: Program, pc: nat, d: nat, x: seq<nat>, e: Expr, ids: Ids) {
    UniqueLabels(p.ops) && At(p, pc, d, LowerExpr(x, e, ids).code)
  }

  /** The code of `e`, run at `pc`, computes what `e` means and leaves every register
      allocated before it alone. */
  ghost predicate Simulates(p: Program, pc: nat, x: seq<nat>, e: Expr, ids: Ids,
                            regs: map<nat, Value>, regs': map<nat, Value>, env: seq<nat>, w: World) {
    var l := LowerExpr(x, e, ids);
    Computes(p, pc, pc + |l.code|, regs, regs', env, w, ids.temp, l.value, Eval(p.m.host, e, env, w))
  }

  lemma {:induction false} ExprSim(p: Program, pc: nat, d: nat, x: seq<nat>, e: Expr, ids: Ids,
                                   regs: map<nat, Value>, env: seq<nat>, w: World) returns (regs': map<nat, Value>)
    requires Placed(p, pc, d, x, e, ids)
    ensures Simulates(p, pc, x, e, ids, regs, regs', env, w)
    decreases e, 5
  {
    hide At, Computes, UniqueLabels;
    match e
    case Lit(v) =>
      regs' := FinishSim(p, pc, d, LoadConst(ids.temp, v), regs, env, w, ids.temp, ids.temp, (Ok(v), w));
    case Name(n) => regs' := NameSim(p, pc, d, n, ids, regs, env, w);
    case Fn(fn) =>
      regs' := FinishSim(p, pc, d, FunctionExpr(ids.temp, fn), regs, env, w, ids.temp, ids.temp,
          (Ok(Closure(env, fn)), w));
    case Bin(_, _, _) => regs' := BinSim(p, pc, d, x, e, ids, regs, env, w);
    case Unary(_, _) => regs' := UnarySim(p, pc, d, x, e, ids, regs, env, w);
    case And(_, _) => regs' := AndSim(p, pc, d, x, e, ids, regs, env, w);
    case Or(_, _) => regs' := OrSim(p, pc, d, x, e, ids, regs, env, w);
    case Nullish(_, _) => regs' := NullishSim(p, pc, d, x, e, ids, regs, env, w);
    case Cond(_, _, _) => regs' := CondSim(p, pc, d, x, e, ids, regs, env, w);
    case Seq(es) => regs' := SeqSim(p, pc, d, x, es, Const(Undefined), ids, regs, env, w);
    case Assign(_, _) => regs' := AssignSim(p, pc, d, x, e, ids, regs, env, w);
    case AssignOp(_, _, _) => regs' := AssignOpSim(p, pc, d, x, e, ids, regs, env, w);
    case Update(_, _, _) => regs' := UpdateSim(p, pc, d, x, e, ids, regs, env, w);
    case Call(_, _) => regs' := CallSim(p, pc, d, x, e, ids, regs, env, w);
  }

  lemma NameSim(p: Program, pc: nat, d: nat, n: string, ids: Ids,
                regs: map<nat, Value>, env: seq<nat>, w: World) returns (regs': map<nat, Value>)
    requires UniqueLabels(p.ops) && At(p, pc, d, LowerName(n, ids).code)
    ensures var l := LowerName(n, ids);
            Computes(p, pc, pc + |l.code|, regs, regs', env, w, ids.temp, l.value, EvalName(p.m.host, n, env, w))
  {
    var l := LowerName(n, ids);
    AtPlain(p, pc, d, l.code);
    if ConstantName(n).Some? {
      regs' := regs;
      Refl(p, Run(pc, regs, env, w));
    } else {
      regs' := FinishSim(p, pc, d, l.code[0], regs, env, w, ids.temp, ids.temp, Load(p.m.host, env, n, w));
    }
  }

  /** An operation whose result goes to a register no smaller than `t`. */
  lemma FinishSim(p: Program, pc: nat, d: nat, i: Instr, regs: map<nat, Value>, env: seq<nat>, w: World, dst: nat,
                  t: nat,
                  r: (Result, World)) returns (regs': map<nat, Value>)
    requires At(p, pc, d, [i]) && Plain([i]) && t <= dst
    requires forall op :: LinearOne(i) == [op] && pc < |p.ops|
                          ==> StepOp(p, op, pc, regs, env, w) == Finish(dst, r, pc, regs, env)
    ensures Computes(p, pc, pc + 1, regs, regs', env, w, t, Register(dst), r)
  {
    AtPlain(p, pc, d, [i]);
    assert LinearOne([i][pc - pc]) == [p.ops[pc]];
    regs' := if r.0.Ok? then regs[dst := r.0.v] else regs;
    One(p, Run(pc, regs, env, w), Finish(dst, r, pc, regs, env));
  }

  lemma {:induction false} BinSim(p: Program, pc: nat, d: nat, x: seq<nat>, e: Expr, ids: Ids,
                                  regs: map<nat, Value>, env: seq<nat>, w: World) returns (regs': map<nat, Value>)
    requires e.Bin? && Placed(p, pc, d, x, e, ids)
    ensures Simulates(p, pc, x, e, ids, regs, regs', env, w)
    decreases e, 1
  {
    hide Linear, Depth, At, BinaryOp, Placed, EvalIncDec, LowerCond;
    assert Eval(p.m.host, e, env, w) == EvalBinary(p.m.host, e, env, w);
    assert LowerExpr(x, e, ids) == LowerBinary(x, e, ids);
    var a := LowerExpr(x, e.left, ids);
    var b := LowerExpr(x, e.right, a.ids);
    var dst := b.ids.temp;
    var last := BinaryInstr(dst, e.infix, a.value, b.value);
    var pc1, pc2 := pc + |a.code|, pc + |a.code| + |b.code|;
    BinPlaced(p, pc, d, x, e, ids);
    var regs1 := ExprSim(p, pc, d, x, e.left, ids, regs, env, w);
    regs' := regs1;
    var (ra, w1) := Eval(p.m.host, e.left, env, w);
    if ra.Ok? {
      var regs2 := ExprSim(p, pc1, d, x, e.right, a.ids, regs1, env, w1);
      var (rb, w2) := Eval(p.m.host, e.right, env, w1);
      var r := if rb.Ok? then BinaryOp(p.m.host, e.infix, ra.v, rb.v, w2) else (rb, w2);
      regs' := regs2;
      if rb.Ok? {
        assert Read(a.value, regs2) == ra.v;
        regs' := FinishSim(p, pc2, d, last, regs2, env, w2, dst, ids.temp, r);
        ComputesAfter(p, pc1, regs1, w1, pc2, regs2, w2, pc2 + 1, regs', env, ids.temp, Register(dst), r);
      }
      ComputesAfter(p, pc, regs, w, pc1, regs1, w1, pc2 + 1, regs', env, ids.temp, Register(dst), r);
    }
  }

  lemma BinPlaced(p: Program, pc: nat, d: nat, x: seq<nat>, e: Expr, ids: Ids)
    requires e.Bin? && Placed(p, pc, d, x, e, ids)
    ensures var a := LowerExpr(x, e.left, ids);
            var b := LowerExpr(x, e.right, a.ids);
            && ids.temp <= a.ids.temp <= b.ids.temp && Below(a.value, a.ids.temp)
            && Placed(p, pc, d, x, e.left, ids) && Placed(p, pc + |a.code|, d, x, e.right, a.ids)
            && At(p, pc + |a.code| + |b.code|, d, [BinaryInstr(b.ids.temp, e.infix, a.value, b.value)])
  {
    hide Linear, LinearOne, DepthFrom, Depth, OpsAt;
    assert LowerExpr(x, e, ids) == LowerBinary(x, e, ids);
    var a := LowerExpr(x, e.left, ids);
    var b := LowerExpr(x, e.right, a.ids);
    var tail := [BinaryInstr(b.ids.temp, e.infix, a.value, b.value)];
    ExprShape(x, e.left, ids);
    ExprShape(x, e.right, a.ids);
    PlainSplit(p, pc, d, a.code, b.code + tail);
    PlainSplit(p, pc + |a.code|, d, b.code, tail);
  }

  lemma {:induction false} UnarySim(p: Program, pc: nat, d: nat, x: seq<nat>, e: Expr, ids: Ids,
                                    regs: map<nat, Value>, env: seq<nat>, w: World) returns (regs': map<nat, Value>)
    requires e.Unary? && Placed(p, pc, d, x, e, ids)
    ensures Simulates(p, pc, x, e, ids, regs, regs', env, w)
    decreases e, 1
  {
    hide LowerCall;
    assert Eval(p.m.host, e, env, w) == EvalUnary(p.m.host, e, env, w);
    assert LowerExpr(x, e, ids) == LowerUnary(x, e, ids);
    var a := LowerExpr(x, e.arg, ids);
    var dst := a.ids.temp;
    var last := UnaryInstr(dst, e.sign, a.value);
    ExprShape(x, e.arg, ids);
    PlainSplit(p, pc, d, a.code, [last]);
    var pc1 := pc + |a.code|;
    var regs1 := ExprSim(p, pc, d, x, e.arg, ids, regs, env, w);
    regs' := regs1;
    var (ra, w1) := Eval(p.m.host, e.arg, env, w);
    if ra.Ok? {
      var r := p.m.host.unary(e.sign, ra.v, w1);
      regs' := FinishSim(p, pc1, d, last, regs1, env, w1, dst, ids.temp, r);
      ComputesAfter(p, pc, regs, w, pc1, regs1, w1, pc1 + 1, regs', env, ids.temp, Register(dst), r);
    }
  }

  // ---- operators that skip their right operand -------------------------------------

  /** Operation `k` of plain code, and the depth it runs at. */
  lemma OpOf(p: Program, pc: nat, d: nat, code: seq<Instr>, k: nat)
    requires At(p, pc, d, code) && Plain(code) && k < |code|
    ensures pc + |code| <= |p.ops| && [p.ops[pc + k]] == LinearOne(code[k]) && Depth(p.ops, pc + k) == d
  {
    AtPlain(p, pc, d, code);
    assert LinearOne(code[pc + k - pc]) == [p.ops[pc + k]];
  }

  /** The right operand, moved to `dst`, and the closing label. */
  lemma {:induction false} RightSim(p: Program, pc: nat, d: nat, x: seq<nat>, e: Expr, ids: Ids, dst: nat, end: Label,
                                    t: nat,
                                    regs: map<nat, Value>, env: seq<nat>, w: World) returns (regs': map<nat, Value>)
    requires UniqueLabels(p.ops) && t <= dst && t <= ids.temp
    requires var b := LowerExpr(x, e, ids); At(p, pc, d, b.code + [Move(dst, b.value), LabelAt(end)])
    ensures var b := LowerExpr(x, e, ids);
            Computes(p, pc, pc + |b.code| + 2, regs, regs', env, w, t, Register(dst), Eval(p.m.host, e, env, w))
    decreases e, 6
  {
    hide Eval, LowerExpr, Exec, LowerStmt, Reaches, At;
    var b := LowerExpr(x, e, ids);
    var tail := [Move(dst, b.value), LabelAt(end)];
    var pc1 := pc + |b.code|;
    ExprShape(x, e, ids);
    PlainSplit(p, pc, d, b.code, tail);
    OpOf(p, pc1, d, tail, 0);
    OpOf(p, pc1, d, tail, 1);
    var regs1 := ExprSim(p, pc, d, x, e, ids, regs, env, w);
    var (r, w1) := Eval(p.m.host, e, env, w);
    regs' := regs1;
    if r.Ok? {
      regs' := regs1[dst := r.v];
      One(p, Run(pc1 + 1, regs', env, w1), Run(pc1 + 2, regs', env, w1));
      StepThen(p, Run(pc1, regs1, env, w1), Run(pc1 + 1, regs', env, w1), Run(pc1 + 2, regs', env, w1));
      ComputesAfter(p, pc, regs, w, pc1, regs1, w1, pc1 + 2, regs', env, t, Register(dst), (r, w1));
    }
  }

  /** The layout shared by `&&`, `||` and `??`: left operand, test, right operand. */
  lemma ShortCircuitPlaced(p: Program, pc: nat, d: nat, a: seq<Instr>, mid: seq<Instr>, b: seq<Instr>, tail: seq<Instr>)
    requires UniqueLabels(p.ops) && At(p, pc, d, a + (mid + (b + tail)))
    requires Plain(a) && Plain(mid) && Plain(b) && Plain(tail)
    ensures At(p, pc, d, a) && At(p, pc + |a|, d, mid) && At(p, pc + |a| + |mid|, d, b + tail)
    ensures At(p, pc + |a| + |mid| + |b|, d, tail)
  {
    hide Eval, LowerExpr, Exec, LowerStmt;
    TwoHeads(p, pc, d, a, mid, b + tail);
    PlainSplit(p, pc + |a| + |mid|, d, b, tail);
  }

  /** Once the left value `v` is in `dst` and the test is decided: the right operand is
      computed, or skipped. */
  lemma {:induction false} ShortCircuitRest(p: Program, pc: nat, w0: World, pc1: nat, start: nat, d: nat, x: seq<nat>,
                                            e: Expr, ids: Ids, dst: nat, end: Label, t: nat,
                                            v: Value, right: bool, regs0: map<nat, Value>, regs: map<nat, Value>,
                                                regs1: map<nat, Value>, env: seq<nat>, w: World)
    returns (regs': map<nat, Value>)
    requires UniqueLabels(p.ops) && t <= dst && t <= ids.temp
    requires var b := LowerExpr(x, e, ids); At(p, start, d, b.code + [Move(dst, b.value), LabelAt(end)])
    requires Reaches(p, Run(pc, regs0, env, w0), Run(pc1, regs, env, w)) && Same(regs0, regs, t)
    requires Reaches(p, Run(pc1, regs, env, w),
             Run(if right then start else start + |LowerExpr(x, e, ids).code| + 2, regs1, env, w))
    requires Same(regs, regs1, t) && Read(Register(dst), regs1) == v
    ensures Computes(p, pc, start + |LowerExpr(x, e, ids).code| + 2, regs0, regs', env, w0, t, Register(dst),
                     if right then Eval(p.m.host, e, env, w) else (Ok(v), w))
    decreases e, 7
  {
    regs' := regs1;
    var stop := start + |LowerExpr(x, e, ids).code| + 2;
    if right {
      Trans(p, Run(pc, regs0, env, w0), Run(pc1, regs, env, w), Run(start, regs1, env, w));
      regs' := RightSim(p, start, d, x, e, ids, dst, end, t, regs1, env, w);
      ComputesAfter(p, pc, regs0, w0, start, regs1, w, stop, regs', env, t, Register(dst), Eval(p.m.host, e, env, w));
    } else {
      Trans(p, Run(pc, regs0, env, w0), Run(pc1, regs, env, w), Run(stop, regs1, env, w));
    }
  }

  /** The operations of `&&` around its operands. */
  predicate AndOps(p: Program, pc: nat, d: nat, x: seq<nat>, a: LoweredExpr, n: nat) {
    var end := L(x, "logical_and_end", a.ids, 0);
    var q := pc + 2 + n + 1;
    && q < |p.ops| && p.ops[pc] == OpMove(a.ids.temp, a.value) && p.ops[pc + 1] == OpJumpIfFalse(a.value, end)
    && p.ops[q] == OpLabel(end) && Depth(p.ops, pc + 1) == d == Depth(p.ops, q)
  }

  lemma AndOpsAt(p: Program, pc: nat, d: nat, x: seq<nat>, a: LoweredExpr, n: nat, right: Operand)
    requires At(p, pc, d, AndCode(x, a, right).0) && At(p, pc + 2 + n, d, AndCode(x, a, right).1)
    ensures AndOps(p, pc, d, x, a, n)
  {
    var (mid, tail) := AndCode(x, a, right);
    AtPlain(p, pc, d, mid);
    AtPlain(p, pc + 2 + n, d, tail);
    assert LinearOne(mid[pc + 0 - pc]) == [p.ops[pc + 0]];
    assert LinearOne(mid[pc + 1 - pc]) == [p.ops[pc + 1]];
    assert LinearOne(tail[pc + 3 + n - (pc + 2 + n)]) == [p.ops[pc + 3 + n]];
  }

  predicate AndLaid(p: Program, pc: nat, d: nat, x: seq<nat>, a: LoweredExpr, b: LoweredExpr) {
    && At(p, pc, d, a.code)
    && At(p, pc + |a.code| + 2, d, b.code + AndCode(x, a, b.value).1)
    && AndOps(p, pc + |a.code|, d, x, a, |b.code|)
  }

  lemma AndLay(p: Program, pc: nat, d: nat, x: seq<nat>, a: LoweredExpr, b: LoweredExpr)
    requires Plain(a.code) && Plain(b.code) && UniqueLabels(p.ops)
    requires var (mid, tail) := AndCode(x, a, b.value); At(p, pc, d, a.code + (mid + (b.code + tail)))
    ensures AndLaid(p, pc, d, x, a, b)
  {
    hide Linear, LinearOne, DepthFrom, Depth, OpsAt;
    var (mid, tail) := AndCode(x, a, b.value);
    ShortCircuitPlaced(p, pc, d, a.code, mid, b.code, tail);
    AndOpsAt(p, pc + |a.code|, d, x, a, |b.code|, b.value);
  }

  lemma AndPlaced(p: Program, pc: nat, d: nat, x: seq<nat>, e: Expr, ids: Ids)
    requires e.And? && Placed(p, pc, d, x, e, ids)
    ensures var a := LowerExpr(x, e.left, ids);
            var b := LowerExpr(x, e.right, Labels(Temp(a.ids), 1));
            var l := LowerExpr(x, e, ids);
            && ids.temp <= a.ids.temp && Below(a.value, a.ids.temp) && AndLaid(p, pc, d, x, a, b)
            && |l.code| == |a.code| + 4 + |b.code| && l.value == Register(a.ids.temp)
  {
    assert LowerExpr(x, e, ids) == LowerAnd(x, e, ids);
    var a := LowerExpr(x, e.left, ids);
    var ids1 := Labels(Temp(a.ids), 1);
    ExprShape(x, e.left, ids);
    ExprShape(x, e.right, ids1);
    AndLay(p, pc, d, x, a, LowerExpr(x, e.right, ids1));
  }

  lemma {:induction false} AndRun(p: Program, pc: nat, d: nat, x: seq<nat>, e: Expr, ids: Ids,
                                  regs: map<nat, Value>, env: seq<nat>, w: World) returns (regs': map<nat, Value>)
    requires e.And? && UniqueLabels(p.ops)
    requires var a := LowerExpr(x, e.left, ids);
             ids.temp <= a.ids.temp && Below(a.value, a.ids.temp)
                 && AndLaid(p, pc, d, x, a, LowerExpr(x, e.right, Labels(Temp(a.ids), 1)))
    ensures var a := LowerExpr(x, e.left, ids);
            var b := LowerExpr(x, e.right, Labels(Temp(a.ids), 1));
            Computes(p, pc, pc + |a.code| + 4 + |b.code|, regs, regs', env, w, ids.temp, Register(a.ids.temp),
                Eval(p.m.host, e, env, w))
    decreases e, 0
  {
    hide Linear, LinearOne, DepthFrom, Depth, OpsAt, Truthy;
    assert Eval(p.m.host, e, env, w) == EvalShortCircuit(p.m.host, e, env, w);
    var a := LowerExpr(x, e.left, ids);
    var ids1 := Labels(Temp(a.ids), 1);
    var n := |LowerExpr(x, e.right, ids1).code|;
    var dst, end := a.ids.temp, L(x, "logical_and_end", a.ids, 0);
    var pc1 := pc + |a.code|;
    regs' := ExprSim(p, pc, d, x, e.left, ids, regs, env, w);
    var (ra, w1) := Eval(p.m.host, e.left, env, w);
    if ra.Ok? {
      var regs1, right := regs', Truthy(ra.v);
      AndTest(p, pc1, d, x, a, n, regs1, env, w1);
      regs' := ShortCircuitRest(p, pc, w, pc1, pc1 + 2, d, x, e.right, ids1, dst, end, ids.temp, ra.v, right, regs,
          regs1, regs1[dst := ra.v], env, w1);
    }
  }

  lemma {:induction false} AndSim(p: Program, pc: nat, d: nat, x: seq<nat>, e: Expr, ids: Ids,
                                  regs: map<nat, Value>, env: seq<nat>, w: World) returns (regs': map<nat, Value>)
    requires e.And? && Placed(p, pc, d, x, e, ids)
    ensures Simulates(p, pc, x, e, ids, regs, regs', env, w)
    decreases e, 1
  {
    assert LowerExpr(x, e, ids) == LowerAnd(x, e, ids);
    AndPlaced(p, pc, d, x, e, ids);
    regs' := AndRun(p, pc, d, x, e, ids, regs, env, w);
  }

  lemma AndTest(p: Program, pc: nat, d: nat, x: seq<nat>, a: LoweredExpr, n: nat,
                regs: map<nat, Value>, env: seq<nat>, w: World)
    requires UniqueLabels(p.ops) && Below(a.value, a.ids.temp) && AndOps(p, pc, d, x, a, n)
    ensures var v := Read(a.value, regs);
            Reaches(p, Run(pc, regs, env, w),
                Run(if Truthy(v) then pc + 2 else pc + 4 + n, regs[a.ids.temp := v], env, w))
  {
    var v := Read(a.value, regs);
    var r := regs[a.ids.temp := v];
    var q := pc + 2 + n + 1;
    assert Read(a.value, r) == v;
    if Truthy(v) {
      One(p, Run(pc + 1, r, env, w), Run(pc + 2, r, env, w));
      StepThen(p, Run(pc, regs, env, w), Run(pc + 1, r, env, w), Run(pc + 2, r, env, w));
    } else {
      LocalJump(p, pc + 1, L(x, "logical_and_end", a.ids, 0), q, r, env, w);
      One(p, Run(q, r, env, w), Run(q + 1, r, env, w));
      StepThen(p, Run(pc + 1, r, env, w), Run(q, r, env, w), Run(q + 1, r, env, w));
      StepThen(p, Run(pc, regs, env, w), Run(pc + 1, r, env, w), Run(q + 1, r, env, w));
    }
  }

  predicate OrOps(p: Program, pc: nat, d: nat, x: seq<nat>, a: LoweredExpr, n: nat) {
    var rhs := L(x, "logical_or_rhs", a.ids, 0);
    var end := L(x, "logical_or_end", a.ids, 1);
    var q := pc + 4 + n + 1;
    && q < |p.ops| && p.ops[pc] == OpMove(a.ids.temp, a.value) && p.ops[pc + 1] == OpJumpIfFalse(a.value, rhs)
    && p.ops[pc + 2] == OpJump(end) && p.ops[pc + 3] == OpLabel(rhs) && p.ops[q] == OpLabel(end)
    && Depth(p.ops, pc + 1) == d == Depth(p.ops, pc + 2) && Depth(p.ops, pc + 3) == d == Depth(p.ops, q)
  }

  lemma OrOpsAt(p: Program, pc: nat, d: nat, x: seq<nat>, a: LoweredExpr, n: nat, right: Operand)
    requires At(p, pc, d, OrCode(x, a, right).0) && At(p, pc + 4 + n, d, OrCode(x, a, right).1)
    ensures OrOps(p, pc, d, x, a, n)
  {
    hide At, L, Depth, Linear, OpsAt, DepthStep;
    var (mid, tail) := OrCode(x, a, right);
    AtPlain(p, pc, d, mid);
    AtPlain(p, pc + 4 + n, d, tail);
    assert LinearOne(mid[pc + 0 - pc]) == [p.ops[pc + 0]];
    assert LinearOne(mid[pc + 1 - pc]) == [p.ops[pc + 1]];
    assert LinearOne(mid[pc + 2 - pc]) == [p.ops[pc + 2]];
    assert LinearOne(mid[pc + 3 - pc]) == [p.ops[pc + 3]];
    assert LinearOne(tail[pc + 5 + n - (pc + 4 + n)]) == [p.ops[pc + 5 + n]];
  }

  predicate OrLaid(p: Program, pc: nat, d: nat, x: seq<nat>, a: LoweredExpr, b: LoweredExpr) {
    && At(p, pc, d, a.code)
    && At(p, pc + |a.code| + 4, d, b.code + OrCode(x, a, b.value).1)
    && OrOps(p, pc + |a.code|, d, x, a, |b.code|)
  }

  lemma OrLay(p: Program, pc: nat, d: nat, x: seq<nat>, a: LoweredExpr, b: LoweredExpr)
    requires Plain(a.code) && Plain(b.code) && UniqueLabels(p.ops)
    requires var (mid, tail) := OrCode(x, a, b.value); At(p, pc, d, a.code + (mid + (b.code + tail)))
    ensures OrLaid(p, pc, d, x, a, b)
  {
    hide Linear, LinearOne, DepthFrom, Depth, OpsAt;
    var (mid, tail) := OrCode(x, a, b.value);
    ShortCircuitPlaced(p, pc, d, a.code, mid, b.code, tail);
    OrOpsAt(p, pc + |a.code|, d, x, a, |b.code|, b.value);
  }

  lemma OrPlaced(p: Program, pc: nat, d: nat, x: seq<nat>, e: Expr, ids: Ids)
    requires e.Or? && Placed(p, pc, d, x, e, ids)
    ensures var a := LowerExpr(x, e.left, ids);
            var b := LowerExpr(x, e.right, Labels(Temp(a.ids), 2));
            var l := LowerExpr(x, e, ids);
            && ids.temp <= a.ids.temp && Below(a.value, a.ids.temp) && OrLaid(p, pc, d, x, a, b)
            && |l.code| == |a.code| + 6 + |b.code| && l.value == Register(a.ids.temp)
  {
    assert LowerExpr(x, e, ids) == LowerOr(x, e, ids);
    var a := LowerExpr(x, e.left, ids);
    var ids1 := Labels(Temp(a.ids), 2);
    ExprShape(x, e.left, ids);
    ExprShape(x, e.right, ids1);
    OrLay(p, pc, d, x, a, LowerExpr(x, e.right, ids1));
  }

  lemma {:induction false} OrRun(p: Program, pc: nat, d: nat, x: seq<nat>, e: Expr, ids: Ids,
                                 regs: map<nat, Value>, env: seq<nat>, w: World) returns (regs': map<nat, Value>)
    requires e.Or? && UniqueLabels(p.ops)
    requires var a := LowerExpr(x, e.left, ids);
             ids.temp <= a.ids.temp && Below(a.value, a.ids.temp)
                 && OrLaid(p, pc, d, x, a, LowerExpr(x, e.right, Labels(Temp(a.ids), 2)))
    ensures var a := LowerExpr(x, e.left, ids);
            var b := LowerExpr(x, e.right, Labels(Temp(a.ids), 2));
            Computes(p, pc, pc + |a.code| + 6 + |b.code|, regs, regs', env, w, ids.temp, Register(a.ids.temp),
                Eval(p.m.host, e, env, w))
    decreases e, 0
  {
    hide Linear, LinearOne, DepthFrom, Depth, OpsAt, EvalIncDec;
    assert Eval(p.m.host, e, env, w) == EvalShortCircuit(p.m.host, e, env, w);
    var a := LowerExpr(x, e.left, ids);
    var ids1 := Labels(Temp(a.ids), 2);
    var n := |LowerExpr(x, e.right, ids1).code|;
    var dst, end := a.ids.temp, L(x, "logical_or_end", a.ids, 1);
    var pc1 := pc + |a.code|;
    regs' := ExprSim(p, pc, d, x, e.left, ids, regs, env, w);
    var (ra, w1) := Eval(p.m.host, e.left, env, w);
    if ra.Ok? {
      var regs1, right := regs', !Truthy(ra.v);
      OrTest(p, pc1, d, x, a, n, regs1, env, w1);
      regs' := ShortCircuitRest(p, pc, w, pc1, pc1 + 4, d, x, e.right, ids1, dst, end, ids.temp, ra.v, right, regs,
          regs1, regs1[dst := ra.v], env, w1);
    }
  }

  lemma {:induction false} OrSim(p: Program, pc: nat, d: nat, x: seq<nat>, e: Expr, ids: Ids,
                                 regs: map<nat, Value>, env: seq<nat>, w: World) returns (regs': map<nat, Value>)
    requires e.Or? && Placed(p, pc, d, x, e, ids)
    ensures Simulates(p, pc, x, e, ids, regs, regs', env, w)
    decreases e, 1
  {
    hide Linear, LinearOne, DepthFrom, Depth, OpsAt;
    assert LowerExpr(x, e, ids) == LowerOr(x, e, ids);
    OrPlaced(p, pc, d, x, e, ids);
    regs' := OrRun(p, pc, d, x, e, ids, regs, env, w);
  }

  lemma OrTest(p: Program, pc: nat, d: nat, x: seq<nat>, a: LoweredExpr, n: nat,
               regs: map<nat, Value>, env: seq<nat>, w: World)
    requires UniqueLabels(p.ops) && Below(a.value, a.ids.temp) && OrOps(p, pc, d, x, a, n)
    ensures var v := Read(a.value, regs);
            Reaches(p, Run(pc, regs, env, w),
                Run(if Truthy(v) then pc + 6 + n else pc + 4, regs[a.ids.temp := v], env, w))
  {
    hide Below, Reaches, L, Truthy;
    var v := Read(a.value, regs);
    var r := regs[a.ids.temp := v];
    var q := pc + 4 + n + 1;
    assert Read(a.value, r) == v;
    if Truthy(v) {
      LocalJump(p, pc + 2, L(x, "logical_or_end", a.ids, 1), q, r, env, w);
      One(p, Run(q, r, env, w), Run(q + 1, r, env, w));
      StepThen(p, Run(pc + 2, r, env, w), Run(q, r, env, w), Run(q + 1, r, env, w));
      StepThen(p, Run(pc + 1, r, env, w), Run(pc + 2, r, env, w), Run(q + 1, r, env, w));
      StepThen(p, Run(pc, regs, env, w), Run(pc + 1, r, env, w), Run(q + 1, r, env, w));
    } else {
      LocalJump(p, pc + 1, L(x, "logical_or_rhs", a.ids, 0), pc + 3, r, env, w);
      One(p, Run(pc + 3, r, env, w), Run(pc + 4, r, env, w));
      StepThen(p, Run(pc + 1, r, env, w), Run(pc + 3, r, env, w), Run(pc + 4, r, env, w));
      StepThen(p, Run(pc, regs, env, w), Run(pc + 1, r, env, w), Run(pc + 4, r, env, w));
    }
  }

  predicate NullishOps(p: Program, pc: nat, d: nat, x: seq<nat>, a: LoweredExpr, n: nat) {
    var dst := a.ids.temp;
    var check := L(x, "nullish_check_undefined", a.ids, 0);
    var rhs := L(x, "nullish_rhs", a.ids, 1);
    var end := L(x, "nullish_end", a.ids, 2);
    var q := pc + 8 + n + 1;
    && q < |p.ops| && p.ops[pc] == OpMove(dst, a.value)
    && p.ops[pc + 1] == OpBinary(dst + 1, "==", a.value, Const(Null))
       && p.ops[pc + 2] == OpJumpIfFalse(Register(dst + 1), check)
    && p.ops[pc + 3] == OpJump(rhs) && p.ops[pc + 4] == OpLabel(check)
    && p.ops[pc + 5] == OpBinary(dst + 2, "==", a.value, Const(Undefined))
       && p.ops[pc + 6] == OpJumpIfFalse(Register(dst + 2), end)
    && p.ops[pc + 7] == OpLabel(rhs) && p.ops[q] == OpLabel(end)
    && Depth(p.ops, pc + 2) == d == Depth(p.ops, pc + 3) && Depth(p.ops, pc + 4) == d == Depth(p.ops, pc + 6)
    && Depth(p.ops, pc + 7) == d == Depth(p.ops, q)
  }

  lemma NullishOpsAt(p: Program, pc: nat, d: nat, x: seq<nat>, a: LoweredExpr, n: nat, right: Operand)
    requires At(p, pc, d, NullishCode(x, a, right).0) && At(p, pc + 8 + n, d, NullishCode(x, a, right).1)
    ensures NullishOps(p, pc, d, x, a, n)
  {
    hide LinearOne, Depth, At, Plain, NullishCode;
    var code := NullishCode(x, a, right);
    NullishLinear(x, a, right);
    OpOf(p, pc, d, code.0, 0);
    OpOf(p, pc, d, code.0, 1);
    OpOf(p, pc, d, code.0, 2);
    OpOf(p, pc, d, code.0, 3);
    OpOf(p, pc, d, code.0, 4);
    OpOf(p, pc, d, code.0, 5);
    OpOf(p, pc, d, code.0, 6);
    OpOf(p, pc, d, code.0, 7);
    OpOf(p, pc + 8 + n, d, code.1, 1);
  }

  lemma NullishLinear(x: seq<nat>, a: LoweredExpr, right: Operand)
    ensures var (mid, tail) := NullishCode(x, a, right); var dst := a.ids.temp;
            var check, rhs, end := L(x, "nullish_check_undefined", a.ids, 0), L(x, "nullish_rhs", a.ids, 1),
                L(x, "nullish_end", a.ids, 2);
            && Plain(mid) && |mid| == 8 && LinearOne(mid[0]) == [OpMove(dst, a.value)]
            && LinearOne(mid[1]) == [OpBinary(dst + 1, "==", a.value, Const(Null))]
               && LinearOne(mid[2]) == [OpJumpIfFalse(Register(dst + 1), check)]
            && LinearOne(mid[3]) == [OpJump(rhs)] && LinearOne(mid[4]) == [OpLabel(check)]
            && LinearOne(mid[5]) == [OpBinary(dst + 2, "==", a.value, Const(Undefined))]
               && LinearOne(mid[6]) == [OpJumpIfFalse(Register(dst + 2), end)]
            && LinearOne(mid[7]) == [OpLabel(rhs)] && Plain(tail) && |tail| == 2 && LinearOne(tail[1]) == [OpLabel(end)]
  {
  }

  predicate NullishLaid(p: Program, pc: nat, d: nat, x: seq<nat>, a: LoweredExpr, b: LoweredExpr) {
    && At(p, pc, d, a.code)
    && At(p, pc + |a.code| + 8, d, b.code + NullishCode(x, a, b.value).1)
    && NullishOps(p, pc + |a.code|, d, x, a, |b.code|)
  }

  lemma NullishLay(p: Program, pc: nat, d: nat, x: seq<nat>, a: LoweredExpr, b: LoweredExpr)
    requires Plain(a.code) && Plain(b.code) && UniqueLabels(p.ops)
    requires var (mid, tail) := NullishCode(x, a, b.value); At(p, pc, d, a.code + (mid + (b.code + tail)))
    ensures NullishLaid(p, pc, d, x, a, b)
  {
    hide Linear, LinearOne, DepthFrom, Depth, OpsAt;
    var (mid, tail) := NullishCode(x, a, b.value);
    ShortCircuitPlaced(p, pc, d, a.code, mid, b.code, tail);
    NullishOpsAt(p, pc + |a.code|, d, x, a, |b.code|, b.value);
  }

  lemma NullishPlaced(p: Program, pc: nat, d: nat, x: seq<nat>, e: Expr, ids: Ids)
    requires e.Nullish? && Placed(p, pc, d, x, e, ids)
    ensures var a := LowerExpr(x, e.left, ids);
            var b := LowerExpr(x, e.right, Labels(Temp(Temp(Temp(a.ids))), 3));
            var l := LowerExpr(x, e, ids);
            && ids.temp <= a.ids.temp && Below(a.value, a.ids.temp) && NullishLaid(p, pc, d, x, a, b)
            && |l.code| == |a.code| + 10 + |b.code| && l.value == Register(a.ids.temp)
  {
    assert LowerExpr(x, e, ids) == LowerNullish(x, e, ids);
    var a := LowerExpr(x, e.left, ids);
    var ids1 := Labels(Temp(Temp(Temp(a.ids))), 3);
    ExprShape(x, e.left, ids);
    ExprShape(x, e.right, ids1);
    NullishLay(p, pc, d, x, a, LowerExpr(x, e.right, ids1));
  }

  lemma {:induction false} NullishRun(p: Program, pc: nat, d: nat, x: seq<nat>, e: Expr, ids: Ids,
                                      regs: map<nat, Value>, env: seq<nat>, w: World) returns (regs': map<nat, Value>)
    requires e.Nullish? && UniqueLabels(p.ops)
    requires var a := LowerExpr(x, e.left, ids);
             ids.temp <= a.ids.temp && Below(a.value, a.ids.temp)
                 && NullishLaid(p, pc, d, x, a, LowerExpr(x, e.right, Labels(Temp(Temp(Temp(a.ids))), 3)))
    ensures var a := LowerExpr(x, e.left, ids);
            var b := LowerExpr(x, e.right, Labels(Temp(Temp(Temp(a.ids))), 3));
            Computes(p, pc, pc + |a.code| + 10 + |b.code|, regs, regs', env, w, ids.temp, Register(a.ids.temp),
                Eval(p.m.host, e, env, w))
    decreases e, 0
  {
    hide Linear, LinearOne, DepthFrom, Depth, OpsAt, NullishOps;
    assert Eval(p.m.host, e, env, w) == EvalShortCircuit(p.m.host, e, env, w);
    var a := LowerExpr(x, e.left, ids);
    var ids1 := Labels(Temp(Temp(Temp(a.ids))), 3);
    var n := |LowerExpr(x, e.right, ids1).code|;
    var dst, end := a.ids.temp, L(x, "nullish_end", a.ids, 2);
    var pc1 := pc + |a.code|;
    regs' := ExprSim(p, pc, d, x, e.left, ids, regs, env, w);
    var (ra, w1) := Eval(p.m.host, e.left, env, w);
    if ra.Ok? {
      var regs1, right := regs', IsNullish(ra.v);
      var regs2 := NullishTest(p, pc1, d, x, a, n, regs1, env, w1);
      regs' := ShortCircuitRest(p, pc, w, pc1, pc1 + 8, d, x, e.right, ids1, dst, end, ids.temp, ra.v, right, regs,
          regs1, regs2, env, w1);
    }
  }

  lemma {:induction false} NullishSim(p: Program, pc: nat, d: nat, x: seq<nat>, e: Expr, ids: Ids,
                                      regs: map<nat, Value>, env: seq<nat>, w: World) returns (regs': map<nat, Value>)
    requires e.Nullish? && Placed(p, pc, d, x, e, ids)
    ensures Simulates(p, pc, x, e, ids, regs, regs', env, w)
    decreases e, 1
  {
    hide Linear, Depth, OpsAt, Computes, LowerCall;
    assert LowerExpr(x, e, ids) == LowerNullish(x, e, ids);
    NullishPlaced(p, pc, d, x, e, ids);
    regs' := NullishRun(p, pc, d, x, e, ids, regs, env, w);
  }

  /** The two equality tests of `??`: either one sends a nullish value to the right operand. */
  /** A nullish left operand passes the first test, or else the second, to the right one. */
  lemma NullishRight(p: Program, pc: nat, d: nat, x: seq<nat>, a: LoweredExpr, n: nat,
                     regs: map<nat, Value>, env: seq<nat>, w: World)
    requires UniqueLabels(p.ops) && NullishOps(p, pc, d, x, a, n) && Truthy(Read(Register(a.ids.temp + 1), regs))
    ensures Reaches(p, Run(pc + 2, regs, env, w), Run(pc + 8, regs, env, w))
  {
    hide At, Reaches, Depth, Find, JumpEnv;
    LocalJump(p, pc + 3, L(x, "nullish_rhs", a.ids, 1), pc + 7, regs, env, w);
    One(p, Run(pc + 7, regs, env, w), Run(pc + 8, regs, env, w));
    StepThen(p, Run(pc + 3, regs, env, w), Run(pc + 7, regs, env, w), Run(pc + 8, regs, env, w));
    StepThen(p, Run(pc + 2, regs, env, w), Run(pc + 3, regs, env, w), Run(pc + 8, regs, env, w));
  }

  lemma NullishTest(p: Program, pc: nat, d: nat, x: seq<nat>, a: LoweredExpr, n: nat,
                    regs: map<nat, Value>, env: seq<nat>, w: World) returns (r3: map<nat, Value>)
    requires UniqueLabels(p.ops) && Below(a.value, a.ids.temp) && NullishOps(p, pc, d, x, a, n)
    ensures var v := Read(a.value, regs);
            && Reaches(p, Run(pc, regs, env, w), Run(if IsNullish(v) then pc + 8 else pc + 10 + n, r3, env, w))
            && Read(Register(a.ids.temp), r3) == v && Same(regs, r3, a.ids.temp)
  {
    hide At, Reaches, Depth, NullishOps;
    var v := Read(a.value, regs);
    var dst := a.ids.temp;
    var r1 := regs[dst := v];
    var r2 := r1[dst + 1 := Bool(IsNullish(v))];
    var stop := if IsNullish(v) then pc + 8 else pc + 10 + n;
    assert Read(a.value, r2) == v;
    if IsNullish(v) {
      r3 := r2;
      NullishRight(p, pc, d, x, a, n, r2, env, w);
    } else {
      r3 := r2[dst + 2 := Bool(false)];
      SecondTest(p, pc, d, x, a, n, r2, env, w);
    }
    FirstCompare(p, pc, d, x, a, n, regs, env, w);
    Trans(p, Run(pc, regs, env, w), Run(pc + 2, r2, env, w), Run(stop, r3, env, w));
  }

  /** The value moved, and compared with null. */
  lemma FirstCompare(p: Program, pc: nat, d: nat, x: seq<nat>, a: LoweredExpr, n: nat, regs: map<nat, Value>,
                     env: seq<nat>, w: World)
    requires Below(a.value, a.ids.temp) && NullishOps(p, pc, d, x, a, n)
    ensures var v := Read(a.value, regs); var dst := a.ids.temp;
            Reaches(p, Run(pc, regs, env, w), Run(pc + 2, regs[dst := v][dst + 1 := Bool(IsNullish(v))], env, w))
  {
    hide Depth, Find, Reaches, RunN;
    var v := Read(a.value, regs);
    var dst := a.ids.temp;
    var r1 := regs[dst := v];
    var r2 := r1[dst + 1 := Bool(IsNullish(v))];
    assert Read(a.value, r1) == v;
    One(p, Run(pc + 1, r1, env, w), Run(pc + 2, r2, env, w));
    StepThen(p, Run(pc, regs, env, w), Run(pc + 1, r1, env, w), Run(pc + 2, r2, env, w));
  }

  lemma SecondTest(p: Program, pc: nat, d: nat, x: seq<nat>, a: LoweredExpr, n: nat, r: map<nat, Value>, env: seq<nat>,
                   w: World)
    requires UniqueLabels(p.ops) && NullishOps(p, pc, d, x, a, n)
    requires !IsNullish(Read(a.value, r)) && Read(Register(a.ids.temp + 1), r) == Bool(false)
    ensures Reaches(p, Run(pc + 2, r, env, w), Run(pc + 10 + n, r[a.ids.temp + 2 := Bool(false)], env, w))
  {
    var q := pc + 8 + n + 1;
    var r1 := r[a.ids.temp + 2 := Bool(false)];
    LocalJump(p, pc + 2, L(x, "nullish_check_undefined", a.ids, 0), pc + 4, r, env, w);
    LocalJump(p, pc + 6, L(x, "nullish_end", a.ids, 2), q, r1, env, w);
    One(p, Run(q, r1, env, w), Run(q + 1, r1, env, w));
    StepThen(p, Run(pc + 6, r1, env, w), Run(q, r1, env, w), Run(q + 1, r1, env, w));
    StepThen(p, Run(pc + 5, r, env, w), Run(pc + 6, r1, env, w), Run(q + 1, r1, env, w));
    StepThen(p, Run(pc + 4, r, env, w), Run(pc + 5, r, env, w), Run(q + 1, r1, env, w));
    StepThen(p, Run(pc + 2, r, env, w), Run(pc + 4, r, env, w), Run(q + 1, r1, env, w));
  }

  // ---- conditionals ----------------------------------------------------------------

  predicate CondLaid(p: Program, pc: nat, d: nat, q: seq<nat>, ids: Ids, x: LoweredExpr, y: LoweredExpr,
                     z: LoweredExpr) {
    var els := L(q, "cond_else", ids, 0);
    var end := L(q, "cond_end", ids, 1);
    var pc1 := pc + |x.code|;
    var pc2 := pc1 + 1 + |y.code|;
    var stop := pc2 + 3 + |z.code| + 2;
    && At(p, pc, d, x.code) && At(p, pc1 + 1, d, y.code)
       && At(p, pc2 + 3, d, z.code + [Move(ids.temp, z.value), LabelAt(end)])
    && stop <= |p.ops| && p.ops[pc1] == OpJumpIfFalse(x.value, els)
    && p.ops[pc2] == OpMove(ids.temp, y.value) && p.ops[pc2 + 1] == OpJump(end) && p.ops[pc2 + 2] == OpLabel(els)
    && p.ops[stop - 1] == OpLabel(end)
    && Depth(p.ops, pc1) == d == Depth(p.ops, pc2 + 1) && Depth(p.ops, pc2 + 2) == d == Depth(p.ops, stop - 1)
  }

  lemma TwoHeads(p: Program, pc: nat, d: nat, a: seq<Instr>, b: seq<Instr>, rest: seq<Instr>)
    requires At(p, pc, d, a + (b + rest)) && Plain(a) && Plain(b)
    ensures At(p, pc, d, a) && At(p, pc + |a|, d, b) && At(p, pc + |a| + |b|, d, rest)
  {
    PlainSplit(p, pc, d, a, b + rest);
    PlainSplit(p, pc + |a|, d, b, rest);
  }

  lemma CondLay(p: Program, pc: nat, d: nat, q: seq<nat>, ids: Ids, x: LoweredExpr, y: LoweredExpr, z: LoweredExpr)
    requires Plain(x.code) && Plain(y.code) && Plain(z.code)
    requires var (m2, m3) := CondCode(q, ids, y.value, z.value);
             At(p, pc, d, x.code + ([JumpIfFalse(x.value, L(q, "cond_else", ids, 0))]
                 + (y.code + (m2 + (z.code + m3)))))
    ensures CondLaid(p, pc, d, q, ids, x, y, z)
  {
    hide Linear, LinearOne, Depth, DepthFrom, OpsAt, At;
    var (m2, m3) := CondCode(q, ids, y.value, z.value);
    var jump := [JumpIfFalse(x.value, L(q, "cond_else", ids, 0))];
    var pc1 := pc + |x.code|;
    var pc2 := pc1 + 1 + |y.code|;
    TwoHeads(p, pc, d, x.code, jump, y.code + (m2 + (z.code + m3)));
    TwoHeads(p, pc1 + 1, d, y.code, m2, z.code + m3);
    PlainSplit(p, pc2 + 3, d, z.code, m3);
    CondJump(p, pc1, d, x.value, L(q, "cond_else", ids, 0));
    CondOps(p, pc2, pc2 + 3 + |z.code|, d, q, ids, y.value, z.value);
  }

  lemma CondJump(p: Program, pc: nat, d: nat, test: Operand, l: Label)
    requires At(p, pc, d, [JumpIfFalse(test, l)])
    ensures pc < |p.ops| && p.ops[pc] == OpJumpIfFalse(test, l) && Depth(p.ops, pc) == d
  {
    hide Linear, Depth, DepthFrom, OpsAt, At;
    OpOf(p, pc, d, [JumpIfFalse(test, l)], 0);
  }

  lemma CondOps(p: Program, pc2: nat, pc3: nat, d: nat, q: seq<nat>, ids: Ids, cons: Operand, alt: Operand)
    requires At(p, pc2, d, CondCode(q, ids, cons, alt).0) && At(p, pc3, d, CondCode(q, ids, cons, alt).1)
    ensures pc2 + 3 <= |p.ops| && pc3 + 2 <= |p.ops|
    ensures p.ops[pc2] == OpMove(ids.temp, cons) && p.ops[pc2 + 1] == OpJump(L(q, "cond_end", ids, 1))
    ensures p.ops[pc2 + 2] == OpLabel(L(q, "cond_else", ids, 0)) && p.ops[pc3 + 1] == OpLabel(L(q, "cond_end", ids, 1))
    ensures Depth(p.ops, pc2 + 1) == d == Depth(p.ops, pc2 + 2) && Depth(p.ops, pc3 + 1) == d
  {
    hide Linear, Depth, DepthFrom, OpsAt, At;
    var (m2, m3) := CondCode(q, ids, cons, alt);
    OpOf(p, pc2, d, m2, 0);
    OpOf(p, pc2, d, m2, 1);
    OpOf(p, pc2, d, m2, 2);
    OpOf(p, pc3, d, m3, 1);
  }

  lemma {:induction false} CondRun(p: Program, pc: nat, d: nat, q: seq<nat>, e: Expr, ids: Ids,
                                   regs: map<nat, Value>, env: seq<nat>, w: World) returns (regs': map<nat, Value>)
    requires e.Cond? && UniqueLabels(p.ops)
    requires var x := LowerExpr(q, e.test, Labels(Temp(ids), 2));
             var y := LowerExpr(q, e.cons, x.ids);
             var z := LowerExpr(q, e.alt, y.ids);
             ids.temp < x.ids.temp <= y.ids.temp && CondLaid(p, pc, d, q, ids, x, y, z)
    ensures var x := LowerExpr(q, e.test, Labels(Temp(ids), 2));
            var y := LowerExpr(q, e.cons, x.ids);
            var z := LowerExpr(q, e.alt, y.ids);
            Computes(p, pc, pc + |x.code| + |y.code| + |z.code| + 6, regs, regs', env, w, ids.temp, Register(ids.temp),
                Eval(p.m.host, e, env, w))
    decreases e, 2
  {
    hide EvalArgs, GoesRight, IsLogical, Load, RunN, StandardIncDec, Step, Store, LowerExpr;
    assert Eval(p.m.host, e, env, w) == EvalCond(p.m.host, e, env, w);
    var x := LowerExpr(q, e.test, Labels(Temp(ids), 2));
    var pc1 := pc + |x.code|;
    regs' := ExprSim(p, pc, d, q, e.test, Labels(Temp(ids), 2), regs, env, w);
    var (r, w1) := Eval(p.m.host, e.test, env, w);
    if r.Ok? {
      var regs1 := regs';
      ghost var stop;
      regs', stop := CondRest(p, pc, d, q, e, ids, x, regs1, env, w1);
      ComputesAfter(p, pc, regs, w, pc1, regs1, w1, stop, regs', env, ids.temp, Register(ids.temp),
                    Eval(p.m.host, if Truthy(r.v) then e.cons else e.alt, env, w1));
    }
  }

  /** The branch that the test, already in its operand, selects. */
  lemma {:induction false} CondRest(p: Program, pc: nat, d: nat, q: seq<nat>, e: Expr, ids: Ids, x: LoweredExpr,
                                    regs: map<nat, Value>, env: seq<nat>, w: World)
                                      returns (regs': map<nat, Value>, stop: nat)
    requires e.Cond? && UniqueLabels(p.ops)
    requires var y := LowerExpr(q, e.cons, x.ids);
             ids.temp < x.ids.temp <= y.ids.temp && CondLaid(p, pc, d, q, ids, x, y, LowerExpr(q, e.alt, y.ids))
    ensures var y := LowerExpr(q, e.cons, x.ids);
            var z := LowerExpr(q, e.alt, y.ids);
            stop == pc + |x.code| + |y.code| + |z.code| + 6
    ensures Computes(p, pc + |x.code|, stop, regs, regs', env, w, ids.temp, Register(ids.temp),
                     Eval(p.m.host, if Truthy(Read(x.value, regs)) then e.cons else e.alt, env, w))
    decreases e, 1
  {
    hide Linear, Depth, OpsAt, Eval, LowerExpr;
    var y := LowerExpr(q, e.cons, x.ids);
    var z := LowerExpr(q, e.alt, y.ids);
    var pc1 := pc + |x.code|;
    var pc2 := pc1 + 1 + |y.code|;
    stop := pc2 + 3 + |z.code| + 2;
    var dst, end := ids.temp, L(q, "cond_end", ids, 1);
    if Truthy(Read(x.value, regs)) {
      One(p, Run(pc1, regs, env, w), Run(pc1 + 1, regs, env, w));
      regs' := CondThen(p, pc1 + 1, d, q, e.cons, x.ids, dst, end, stop, regs, env, w);
      ComputesAfter(p, pc1, regs, w, pc1 + 1, regs, w, stop, regs', env, dst, Register(dst),
          Eval(p.m.host, e.cons, env, w));
    } else {
      CondElse(p, pc1, pc2, d, q, ids, x, regs, env, w);
      regs' := AfterJump(p, pc1, pc2 + 3, d, q, e.alt, y.ids, dst, end, regs, env, w);
    }
  }

  lemma {:induction false} AfterJump(p: Program, pc1: nat, pc: nat, d: nat, x: seq<nat>, e: Expr, ids: Ids, dst: nat,
                                     end: Label,
                                     regs: map<nat, Value>, env: seq<nat>, w: World) returns (regs': map<nat, Value>)
    requires UniqueLabels(p.ops) && dst <= ids.temp && Reaches(p, Run(pc1, regs, env, w), Run(pc, regs, env, w))
    requires var b := LowerExpr(x, e, ids); At(p, pc, d, b.code + [Move(dst, b.value), LabelAt(end)])
    ensures Computes(p, pc1, pc + |LowerExpr(x, e, ids).code| + 2, regs, regs', env, w, dst, Register(dst),
            Eval(p.m.host, e, env, w))
    decreases e, 7
  {
    regs' := RightSim(p, pc, d, x, e, ids, dst, end, dst, regs, env, w);
    ComputesAfter(p, pc1, regs, w, pc, regs, w, pc + |LowerExpr(x, e, ids).code| + 2, regs', env, dst, Register(dst),
        Eval(p.m.host, e, env, w));
  }

  lemma {:induction false} CondThen(p: Program, pc: nat, d: nat, q: seq<nat>, e: Expr, ids: Ids, dst: nat, end: Label,
                                    stop: nat,
                                    regs: map<nat, Value>, env: seq<nat>, w: World) returns (regs': map<nat, Value>)
    requires Placed(p, pc, d, q, e, ids) && dst < ids.temp
    requires var y := LowerExpr(q, e, ids);
             var pc2 := pc + |y.code|;
             && pc2 + 1 < stop <= |p.ops| && p.ops[pc2] == OpMove(dst, y.value) && p.ops[pc2 + 1] == OpJump(end)
                && p.ops[stop - 1] == OpLabel(end)
             && Depth(p.ops, pc2 + 1) == d == Depth(p.ops, stop - 1)
    ensures Computes(p, pc, stop, regs, regs', env, w, dst, Register(dst), Eval(p.m.host, e, env, w))
    decreases e, 6
  {
    hide Eval, LowerExpr, Bind, Linear, OpsAt, RunN, Step, Depth;
    var y := LowerExpr(q, e, ids);
    var pc2 := pc + |y.code|;
    var regs1 := ExprSim(p, pc, d, q, e, ids, regs, env, w);
    regs' := regs1;
    var (v, w1) := Eval(p.m.host, e, env, w);
    if v.Ok? {
      CondEnd(p, pc2, d, y.value, dst, end, stop, regs1, env, w1);
      regs' := regs1[dst := v.v];
      Trans(p, Run(pc, regs, env, w), Run(pc2, regs1, env, w1), Run(stop, regs', env, w1));
    }
  }

  lemma CondEnd(p: Program, pc: nat, d: nat, src: Operand, dst: nat, end: Label, stop: nat, regs: map<nat, Value>,
                env: seq<nat>, w: World)
    requires UniqueLabels(p.ops) && pc + 1 < stop <= |p.ops|
    requires p.ops[pc] == OpMove(dst, src) && p.ops[pc + 1] == OpJump(end) && p.ops[stop - 1] == OpLabel(end)
    requires Depth(p.ops, pc + 1) == d == Depth(p.ops, stop - 1)
    ensures Reaches(p, Run(pc, regs, env, w), Run(stop, regs[dst := Read(src, regs)], env, w))
  {
    var r := regs[dst := Read(src, regs)];
    LocalJump(p, pc + 1, end, stop - 1, r, env, w);
    One(p, Run(stop - 1, r, env, w), Run(stop, r, env, w));
    StepThen(p, Run(pc + 1, r, env, w), Run(stop - 1, r, env, w), Run(stop, r, env, w));
    StepThen(p, Run(pc, regs, env, w), Run(pc + 1, r, env, w), Run(stop, r, env, w));
  }

  lemma CondElse(p: Program, pc1: nat, pc2: nat, d: nat, q: seq<nat>, ids: Ids, x: LoweredExpr, regs: map<nat, Value>,
                 env: seq<nat>, w: World)
    requires UniqueLabels(p.ops) && pc1 < |p.ops| && pc2 + 2 < |p.ops| && !Truthy(Read(x.value, regs))
    requires p.ops[pc1] == OpJumpIfFalse(x.value, L(q, "cond_else", ids, 0))
             && p.ops[pc2 + 2] == OpLabel(L(q, "cond_else", ids, 0))
    requires Depth(p.ops, pc1) == d == Depth(p.ops, pc2 + 2)
    ensures Reaches(p, Run(pc1, regs, env, w), Run(pc2 + 3, regs, env, w))
  {
    LocalJump(p, pc1, L(q, "cond_else", ids, 0), pc2 + 2, regs, env, w);
    One(p, Run(pc2 + 2, regs, env, w), Run(pc2 + 3, regs, env, w));
    StepThen(p, Run(pc1, regs, env, w), Run(pc2 + 2, regs, env, w), Run(pc2 + 3, regs, env, w));
  }

  lemma CondPlaced(p: Program, pc: nat, d: nat, q: seq<nat>, e: Expr, ids: Ids)
    requires e.Cond? && Placed(p, pc, d, q, e, ids)
    ensures var x := LowerExpr(q, e.test, Labels(Temp(ids), 2));
            var y := LowerExpr(q, e.cons, x.ids);
            var z := LowerExpr(q, e.alt, y.ids);
            var l := LowerExpr(q, e, ids);
            && ids.temp < x.ids.temp <= y.ids.temp && CondLaid(p, pc, d, q, ids, x, y, z)
            && |l.code| == |x.code| + |y.code| + |z.code| + 6 && l.value == Register(ids.temp)
  {
    assert LowerExpr(q, e, ids) == LowerCond(q, e, ids);
    var x := LowerExpr(q, e.test, Labels(Temp(ids), 2));
    var y := LowerExpr(q, e.cons, x.ids);
    ExprShape(q, e.test, Labels(Temp(ids), 2));
    ExprShape(q, e.cons, x.ids);
    ExprShape(q, e.alt, y.ids);
    CondLay(p, pc, d, q, ids, x, y, LowerExpr(q, e.alt, y.ids));
  }

  lemma {:induction false} CondSim(p: Program, pc: nat, d: nat, x: seq<nat>, e: Expr, ids: Ids,
                                   regs: map<nat, Value>, env: seq<nat>, w: World) returns (regs': map<nat, Value>)
    requires e.Cond? && Placed(p, pc, d, x, e, ids)
    ensures Simulates(p, pc, x, e, ids, regs, regs', env, w)
    decreases e, 3
  {
    hide Linear, LinearOne, DepthFrom, Depth, OpsAt;
    assert LowerExpr(x, e, ids) == LowerCond(x, e, ids);
    CondPlaced(p, pc, d, x, e, ids);
    regs' := CondRun(p, pc, d, x, e, ids, regs, env, w);
  }

  // ---- lists, assignments and calls --------------------------------------------------

  lemma {:induction false} SeqSim(p: Program, pc: nat, d: nat, x: seq<nat>, es: seq<Expr>, last: Operand, ids: Ids,
                                  regs: map<nat, Value>, env: seq<nat>, w: World) returns (regs': map<nat, Value>)
    requires UniqueLabels(p.ops) && At(p, pc, d, LowerSeq(x, es, last, ids).code) && Below(last, ids.temp)
    ensures var l := LowerSeq(x, es, last, ids);
            Computes(p, pc, pc + |l.code|, regs, regs', env, w, ids.temp, l.value,
                EvalSeq(p.m.host, es, Read(last, regs), env, w))
    decreases es, 0
  {
    hide Eval, LowerExpr, Exec, LowerStmt;
    regs' := regs;
    if es == [] {
      Refl(p, Run(pc, regs, env, w));
    } else {
      var a := LowerExpr(x, es[0], ids);
      var b := LowerSeq(x, es[1..], a.value, a.ids);
      ExprShape(x, es[0], ids);
      PlainSplit(p, pc, d, a.code, b.code);
      var pc1 := pc + |a.code|;
      var regs1 := ExprSim(p, pc, d, x, es[0], ids, regs, env, w);
      regs' := regs1;
      var (r, w1) := Eval(p.m.host, es[0], env, w);
      if r.Ok? {
        regs' := SeqSim(p, pc1, d, x, es[1..], a.value, a.ids, regs1, env, w1);
        ComputesAfter(p, pc, regs, w, pc1, regs1, w1, pc1 + |b.code|, regs', env, ids.temp, b.value,
                      EvalSeq(p.m.host, es[1..], r.v, env, w1));
      }
    }
  }

  lemma StoreSim(p: Program, pc: nat, d: nat, name: string, src: Operand, value: Operand, t: nat,
                 regs: map<nat, Value>, env: seq<nat>, w: World)
    requires At(p, pc, d, [StoreName(name, src)])
    ensures var s := Store(p.m.host, env, name, Read(src, regs), w);
            Computes(p, pc, pc + 1, regs, regs, env, w, t, value, if s.0.Throws?
                then s else (Ok(Read(value, regs)), s.1))
  {
    var s := Store(p.m.host, env, name, Read(src, regs), w);
    OpOf(p, pc, d, [StoreName(name, src)], 0);
    One(p, Run(pc, regs, env, w), if s.0.Ok? then Run(pc + 1, regs, env, s.1) else Done(Thrown(s.0.v), s.1));
  }

  lemma {:induction false} AssignSim(p: Program, pc: nat, d: nat, x: seq<nat>, e: Expr, ids: Ids,
                                     regs: map<nat, Value>, env: seq<nat>, w: World) returns (regs': map<nat, Value>)
    requires e.Assign? && Placed(p, pc, d, x, e, ids)
    ensures Simulates(p, pc, x, e, ids, regs, regs', env, w)
    decreases e, 1
  {
    assert Eval(p.m.host, e, env, w) == EvalAssign(p.m.host, e, env, w);
    assert LowerExpr(x, e, ids) == LowerAssign(x, e, ids);
    var a := LowerExpr(x, e.right, ids);
    ExprShape(x, e.right, ids);
    PlainSplit(p, pc, d, a.code, [StoreName(e.name, a.value)]);
    var pc1 := pc + |a.code|;
    regs' := ExprSim(p, pc, d, x, e.right, ids, regs, env, w);
    var (r, w1) := Eval(p.m.host, e.right, env, w);
    if r.Ok? {
      var s := Store(p.m.host, env, e.name, r.v, w1);
      StoreSim(p, pc1, d, e.name, a.value, a.value, ids.temp, regs', env, w1);
      ComputesAfter(p, pc, regs, w, pc1, regs', w1, pc1 + 1, regs', env, ids.temp, a.value, if s.0.Throws?
          then s else (r, s.1));
    }
  }

  /** A result in a register of its own, then stored under a name: the tail of compound
      assignments and updates. */
  lemma ThenStore(p: Program, pc: nat, d: nat, i: Instr, name: string, dst: nat, value: Operand, t: nat,
                  r: (Result, World),
                  regs: map<nat, Value>, env: seq<nat>, w: World) returns (regs': map<nat, Value>)
    requires At(p, pc, d, [i, StoreName(name, Register(dst))]) && Plain([i]) && t <= dst
    requires forall op :: LinearOne(i) == [op] && pc < |p.ops|
                          ==> StepOp(p, op, pc, regs, env, w) == Finish(dst, r, pc, regs, env)
    ensures r.0.Throws? ==> Computes(p, pc, pc + 2, regs, regs', env, w, t, value, r)
    ensures r.0.Ok? ==>
              var s := Store(p.m.host, env, name, r.0.v, r.1);
              Computes(p, pc, pc + 2, regs, regs', env, w, t, value, if s.0.Throws?
                  then s else (Ok(Read(value, regs[dst := r.0.v])), s.1))
  {
    hide StepOp;
    assert [i, StoreName(name, Register(dst))] == [i] + [StoreName(name, Register(dst))];
    PlainSplit(p, pc, d, [i], [StoreName(name, Register(dst))]);
    OpOf(p, pc, d, [i], 0);
    regs' := if r.0.Ok? then regs[dst := r.0.v] else regs;
    One(p, Run(pc, regs, env, w), Finish(dst, r, pc, regs, env));
    if r.0.Ok? {
      var s := Store(p.m.host, env, name, r.0.v, r.1);
      StoreSim(p, pc + 1, d, name, Register(dst), value, t, regs', env, r.1);
      ComputesAfter(p, pc, regs, w, pc + 1, regs', r.1, pc + 2, regs', env, t, value, if s.0.Throws?
          then s else (Ok(Read(value, regs')), s.1));
    }
  }

  /** From the current value in `cur`: the right operand, the operator, the store. */
  lemma {:induction false} AssignOpRest(p: Program, pc: nat, d: nat, x: seq<nat>, e: Expr, ids: Ids, cur: nat,
                                        regs: map<nat, Value>, env: seq<nat>, w: World) returns (regs': map<nat, Value>)
    requires e.AssignOp? && UniqueLabels(p.ops) && cur < ids.temp
    requires var b := LowerExpr(x, e.right, ids);
             var dst := b.ids.temp;
             && cur < dst && At(p, pc, d, b.code)
             && At(p, pc + |b.code|, d,
                [BinaryInstr(dst, e.op, Register(cur), b.value), StoreName(e.name, Register(dst))])
    ensures var b := LowerExpr(x, e.right, ids);
            Computes(p, pc, pc + |b.code| + 2, regs, regs', env, w, cur, Register(b.ids.temp),
                     var (r, w2) := Eval(p.m.host, e.right, env, w);
                     if r.Throws? then (r, w2) else
                     var (c, w3) := BinaryOp(p.m.host, e.op, Read(Register(cur), regs), r.v, w2);
                     if c.Throws? then (c, w3) else
                     var (s, w4) := Store(p.m.host, env, e.name, c.v, w3);
                     if s.Throws? then (s, w4) else (c, w4))
    decreases e, 0
  {
    hide Eval, LowerExpr, Exec, LowerStmt;
    var b := LowerExpr(x, e.right, ids);
    var dst := b.ids.temp;
    var bin := BinaryInstr(dst, e.op, Register(cur), b.value);
    var pc2 := pc + |b.code|;
    regs' := ExprSim(p, pc, d, x, e.right, ids, regs, env, w);
    var (r, w2) := Eval(p.m.host, e.right, env, w);
    if r.Ok? {
      var regs2 := regs';
      assert Read(Register(cur), regs2) == Read(Register(cur), regs);
      var c := BinaryOp(p.m.host, e.op, Read(Register(cur), regs), r.v, w2);
      regs' := ThenStore(p, pc2, d, bin, e.name, dst, Register(dst), cur, c, regs2, env, w2);
      var s := Store(p.m.host, env, e.name, c.0.v, c.1);
      ComputesAfter(p, pc, regs, w, pc2, regs2, w2, pc2 + 2, regs', env, cur, Register(dst),
                    if c.0.Throws? then c else if s.0.Throws? then s else (c.0, s.1));
    }
  }

  lemma AssignOpPlaced(p: Program, pc: nat, d: nat, x: seq<nat>, e: Expr, ids: Ids)
    requires e.AssignOp? && Placed(p, pc, d, x, e, ids)
    ensures var b := LowerExpr(x, e.right, Temp(ids)); var dst := b.ids.temp;
            && LowerExpr(x, e, ids) == LowerAssignOp(x, e, ids) && |LowerExpr(x, e, ids).code| == 1 + |b.code| + 2
            && At(p, pc, d, [LoadName(ids.temp, e.name)])
            && At(p, pc + 1, d, b.code)
            && At(p, pc + 1 + |b.code|, d,
               [BinaryInstr(dst, e.op, Register(ids.temp), b.value), StoreName(e.name, Register(dst))])
            && Shaped(Temp(ids), b)
  {
    hide Linear, LinearOne, Depth, DepthFrom, OpsAt, At;
    assert LowerExpr(x, e, ids) == LowerAssignOp(x, e, ids);
    var b := LowerExpr(x, e.right, Temp(ids));
    var tail := [BinaryInstr(b.ids.temp, e.op, Register(ids.temp), b.value), StoreName(e.name, Register(b.ids.temp))];
    ExprShape(x, e.right, Temp(ids));
    PlainSplit(p, pc, d, [LoadName(ids.temp, e.name)], b.code + tail);
    PlainSplit(p, pc + 1, d, b.code, tail);
  }

  lemma {:induction false} AssignOpSim(p: Program, pc: nat, d: nat, x: seq<nat>, e: Expr, ids: Ids,
                                       regs: map<nat, Value>, env: seq<nat>, w: World) returns (regs': map<nat, Value>)
    requires e.AssignOp? && Placed(p, pc, d, x, e, ids)
    ensures Simulates(p, pc, x, e, ids, regs, regs', env, w)
    decreases e, 1
  {
    hide Linear, Depth, At, LowerExpr, Load;
    assert Eval(p.m.host, e, env, w) == EvalAssignOp(p.m.host, e, env, w);
    AssignOpPlaced(p, pc, d, x, e, ids);
    var b := LowerExpr(x, e.right, Temp(ids));
    var dst := b.ids.temp;
    var (a, w1) := Load(p.m.host, env, e.name, w);
    regs' := FinishSim(p, pc, d, LoadName(ids.temp, e.name), regs, env, w, ids.temp, ids.temp, (a, w1));
    if a.Ok? {
      var regs1 := regs';
      regs' := AssignOpRest(p, pc + 1, d, x, e, Temp(ids), ids.temp, regs1, env, w1);
      ComputesAfter(p, pc, regs, w, pc + 1, regs1, w1, pc + 1 + |b.code| + 2, regs', env, ids.temp, Register(dst),
                    Eval(p.m.host, e, env, w));
    }
  }

  lemma UpdateSim(p: Program, pc: nat, d: nat, x: seq<nat>, e: Expr, ids: Ids,
                  regs: map<nat, Value>, env: seq<nat>, w: World) returns (regs': map<nat, Value>)
    requires e.Update? && Placed(p, pc, d, x, e, ids)
    ensures Simulates(p, pc, x, e, ids, regs, regs', env, w)
  {
    hide Linear, Depth, OpsAt, Load, Store, EvalName, Bind;
    var a := LowerName(e.name, ids);
    var dst := a.ids.temp;
    var una := UnaryInstr(dst, e.step, a.value);
    var value := if e.prefix then Register(dst) else a.value;
    PlainSplit(p, pc, d, a.code, [una, StoreName(e.name, Register(dst))]);
    var pc1 := pc + |a.code|;
    regs' := NameSim(p, pc, d, e.name, ids, regs, env, w);
    var (r, w1) := EvalName(p.m.host, e.name, env, w);
    if r.Ok? {
      var regs1 := regs';
      var c := p.m.host.unary(e.step, r.v, w1);
      regs' := ThenStore(p, pc1, d, una, e.name, dst, value, ids.temp, c, regs1, env, w1);
      var s := Store(p.m.host, env, e.name, c.0.v, c.1);
      var out := if c.0.Throws? then c else if s.0.Throws? then s else (if e.prefix then c.0 else r, s.1);
      ComputesAfter(p, pc, regs, w, pc1, regs1, w1, pc1 + 2, regs', env, ids.temp, value, out);
    }
  }

  /** Argument code leaves every argument in its operand, or throws what one threw. */
  ghost predicate ComputesAll(p: Program, pc: nat, end: nat, regs: map<nat, Value>, regs': map<nat, Value>,
                              env: seq<nat>, w: World, t: nat, values: seq<Operand>,
                                  r: (seq<Value>, Option<Value>, World)) {
    match r.1
    case Some(v) => Reaches(p, Run(pc, regs, env, w), Done(Thrown(v), r.2))
    case None =>
      && Reaches(p, Run(pc, regs, env, w), Run(end, regs', env, r.2))
      && ReadAll(values, regs') == r.0
      && Same(regs, regs', t)
  }

  lemma ArgsCons(p: Program, pc: nat, regs: map<nat, Value>, w: World, pc1: nat, regs1: map<nat, Value>, w1: World,
                 end: nat, regs': map<nat, Value>, env: seq<nat>, t: nat, t1: nat, value: Operand, values: seq<Operand>,
                 v: Value, r: (seq<Value>, Option<Value>, World))
    requires Reaches(p, Run(pc, regs, env, w), Run(pc1, regs1, env, w1)) && Same(regs, regs1, t)
    requires ComputesAll(p, pc1, end, regs1, regs', env, w1, t1, values, r)
    requires Read(value, regs1) == v && Below(value, t1) && t <= t1
    ensures ComputesAll(p, pc, end, regs, regs', env, w, t, [value] + values, ([v] + r.0, r.1, r.2))
  {
    if r.1.None? {
      assert Read(value, regs') == v;
      assert ReadAll([value] + values, regs') == [v] + r.0;
      Trans(p, Run(pc, regs, env, w), Run(pc1, regs1, env, w1), Run(end, regs', env, r.2));
    } else {
      Trans(p, Run(pc, regs, env, w), Run(pc1, regs1, env, w1), Done(Thrown(r.1.value), r.2));
    }
  }

  lemma {:induction false} ArgsSim(p: Program, pc: nat, d: nat, x: seq<nat>, es: seq<Expr>, ids: Ids,
                                   regs: map<nat, Value>, env: seq<nat>, w: World) returns (regs': map<nat, Value>)
    requires UniqueLabels(p.ops) && At(p, pc, d, LowerArgs(x, es, ids).code)
    ensures var l := LowerArgs(x, es, ids);
            ComputesAll(p, pc, pc + |l.code|, regs, regs', env, w, ids.temp, l.values, EvalArgs(p.m.host, es, env, w))
    decreases es, 0
  {
    hide Bind, DepthStep, LinearOne, Read, RunN, Step, LowerExpr, Eval;
    regs' := regs;
    if es == [] {
      Refl(p, Run(pc, regs, env, w));
    } else {
      var a := LowerExpr(x, es[0], ids);
      var b := LowerArgs(x, es[1..], a.ids);
      ExprShape(x, es[0], ids);
      PlainSplit(p, pc, d, a.code, b.code);
      var pc1 := pc + |a.code|;
      var regs1 := ExprSim(p, pc, d, x, es[0], ids, regs, env, w);
      regs' := regs1;
      var (r, w1) := Eval(p.m.host, es[0], env, w);
      if r.Ok? {
        regs' := ArgsSim(p, pc1, d, x, es[1..], a.ids, regs1, env, w1);
        ArgsCons(p, pc, regs, w, pc1, regs1, w1, pc1 + |b.code|, regs', env, ids.temp, a.ids.temp, a.value, b.values,
                 r.v, EvalArgs(p.m.host, es[1..], env, w1));
      }
    }
  }

  /** From the callee in its operand: the arguments, then the call. */
  lemma {:induction false} CallRest(p: Program, pc: nat, d: nat, x: seq<nat>, args: seq<Expr>, ids: Ids, f: Operand,
                                    dst: nat,
                                    regs: map<nat, Value>, env: seq<nat>, w: World) returns (regs': map<nat, Value>)
    requires UniqueLabels(p.ops) && Below(f, dst) && dst < ids.temp
    requires var b := LowerArgs(x, args, ids);
             At(p, pc, d, b.code) && At(p, pc + |b.code|, d, [CallInstr(dst, f, b.values)])
    ensures var vs := EvalArgs(p.m.host, args, env, w);
            Computes(p, pc, pc + |LowerArgs(x, args, ids).code| + 1, regs, regs', env, w, dst, Register(dst),
                     if vs.1.Some? then (Throws(vs.1.value), vs.2) else p.m.host.call(Read(f, regs), vs.0, vs.2))
    decreases args, 1
  {
    hide Eval, LowerExpr, Exec, LowerStmt, Reaches, Depth;
    var b := LowerArgs(x, args, ids);
    var pc1 := pc + |b.code|;
    regs' := ArgsSim(p, pc, d, x, args, ids, regs, env, w);
    var vs := EvalArgs(p.m.host, args, env, w);
    if vs.1.None? {
      var regs1 := regs';
      var r := p.m.host.call(Read(f, regs), vs.0, vs.2);
      assert Read(f, regs1) == Read(f, regs);
      regs' := FinishSim(p, pc1, d, CallInstr(dst, f, b.values), regs1, env, vs.2, dst, dst, r);
      ComputesAfter(p, pc, regs, w, pc1, regs1, vs.2, pc1 + 1, regs', env, dst, Register(dst), r);
    }
  }

  lemma CallPlaced(p: Program, pc: nat, d: nat, x: seq<nat>, e: Expr, ids: Ids)
    requires e.Call? && Placed(p, pc, d, x, e, ids)
    ensures var a := LowerExpr(x, e.callee, ids);
            var b := LowerArgs(x, e.args, Temp(a.ids));
            && ids.temp <= a.ids.temp && Below(a.value, a.ids.temp) && At(p, pc, d, a.code)
               && At(p, pc + |a.code|, d, b.code)
            && At(p, pc + |a.code| + |b.code|, d, [CallInstr(a.ids.temp, a.value, b.values)])
  {
    hide Linear, LinearOne, DepthFrom, Depth, OpsAt;
    assert LowerExpr(x, e, ids) == LowerCall(x, e, ids);
    var a := LowerExpr(x, e.callee, ids);
    var b := LowerArgs(x, e.args, Temp(a.ids));
    ExprShape(x, e.callee, ids);
    ArgsShape(x, e.args, Temp(a.ids));
    TwoHeads(p, pc, d, a.code, b.code, [CallInstr(a.ids.temp, a.value, b.values)]);
  }

  lemma {:induction false} CallSim(p: Program, pc: nat, d: nat, x: seq<nat>, e: Expr, ids: Ids,
                                   regs: map<nat, Value>, env: seq<nat>, w: World) returns (regs': map<nat, Value>)
    requires e.Call? && Placed(p, pc, d, x, e, ids)
    ensures Simulates(p, pc, x, e, ids, regs, regs', env, w)
    decreases e, 1
  {
    hide Depth, At;
    assert Eval(p.m.host, e, env, w) == EvalCall(p.m.host, e, env, w);
    assert LowerExpr(x, e, ids) == LowerCall(x, e, ids);
    var a := LowerExpr(x, e.callee, ids);
    var dst := a.ids.temp;
    var b := LowerArgs(x, e.args, Temp(a.ids));
    CallPlaced(p, pc, d, x, e, ids);
    var pc1 := pc + |a.code|;
    regs' := ExprSim(p, pc, d, x, e.callee, ids, regs, env, w);
    var (f, w1) := Eval(p.m.host, e.callee, env, w);
    if f.Ok? {
      var regs1 := regs';
      regs' := CallRest(p, pc1, d, x, e.args, Temp(a.ids), a.value, dst, regs1, env, w1);
      var vs := EvalArgs(p.m.host, e.args, env, w1);
      ComputesAfter(p, pc, regs, w, pc1, regs1, w1, pc1 + |b.code| + 1, regs', env, ids.temp, Register(dst),
                    if vs.1.Some? then (Throws(vs.1.value), vs.2) else p.m.host.call(f.v, vs.0, vs.2));
    }
  }
}
