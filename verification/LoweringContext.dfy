/** The lowering pass as it runs: one context that appends instructions, hands out
    temporaries and labels, and keeps a stack of break and continue targets. Every
    method is held to the functions of Lower.dfy, which the theorems are about. */
module LoweringContext {
  import opened Syntax
  import opened Ir
  import opened Lower

  class Context {
    var instructions: seq<Instr>
    var tempId: nat
    var labelId: nat
    var childId: nat
    var prefix: seq<nat>
    var controlStack: seq<ControlTarget>
    var pending: seq<string>

    constructor (prefix: seq<nat>)
      ensures this.prefix == prefix && instructions == [] && Numbers() == Ids(0, 0, 0)
      ensures controlStack == [] && pending == []
    {
      this.prefix := prefix;
      instructions, tempId, labelId, childId, controlStack, pending := [], 0, 0, 0, [], [];
    }

    function Numbers(): Ids
      reads this
    {
      Ids(tempId, labelId, childId)
    }

    /** Only instructions were added and numbers handed out. */
    twostate predicate Adds(code: seq<Instr>, ids: Ids)
      reads this
    {
      instructions == old(instructions) + code && Numbers() == ids && prefix == old(prefix)
          && controlStack == old(controlStack)
    }

    twostate predicate Yields(x: LoweredExpr, value: Operand)
      reads this
    {
      Adds(x.code, x.ids) && value == x.value && pending == old(pending)
    }

    // ---- emitting and numbering --------------------------------------------------------

    method Emit(i: Instr)
      modifies this`instructions
      ensures instructions == old(instructions) + [i]
    {
      instructions := instructions + [i];
    }

    method EmitTwo(i: Instr, j: Instr)
      modifies this`instructions
      ensures instructions == old(instructions) + [i, j]
    {
      Emit(i);
      Emit(j);
    }

    method EmitThree(i: Instr, j: Instr, k: Instr)
      modifies this`instructions
      ensures instructions == old(instructions) + [i, j, k]
    {
      EmitTwo(i, j);
      Emit(k);
    }

    method NewTemp() returns (t: nat)
      modifies this`tempId
      ensures t == old(tempId) && tempId == t + 1
    {
      t := tempId;
      tempId := tempId + 1;
    }

    method NewLabel(stem: string) returns (l: Label)
      modifies this`labelId
      ensures l == CodeLabel(prefix, stem, old(labelId)) && labelId == old(labelId) + 1
    {
      l := CodeLabel(prefix, stem, labelId);
      labelId := labelId + 1;
    }

    /** A context of its own for a part: fresh numbering, no control targets. */
    method NewChild() returns (c: Context)
      modifies this`childId
      ensures fresh(c) && childId == old(childId) + 1
      ensures c.prefix == prefix + [old(childId)] && c.instructions == [] && c.Numbers() == Ids(0, 0, 0)
      ensures c.controlStack == [] && c.pending == []
    {
      c := new Context(prefix + [childId]);
      childId := childId + 1;
    }

    // ---- control targets -----------------------------------------------------------------

    /** Pushes the unnamed target and one for each label waiting for it. */
    method PushControlTargets(brk: Label, cont: Option<Label>) returns (previous: nat)
      modifies this`controlStack, this`pending
      ensures previous == |old(controlStack)| && pending == []
      ensures controlStack == PushTargets(old(controlStack), old(pending), brk, cont)
    {
      previous := |controlStack|;
      var labels := pending;
      pending := [];
      controlStack := controlStack + [ControlTarget(None, brk, cont)];
      for i := 0 to |labels|
        invariant controlStack == old(controlStack) + [ControlTarget(None, brk, cont)]
                  + PendingTargets(labels[..i], brk, cont)
        invariant pending == []
      {
        PendingNext(labels, i, brk, cont);
        controlStack := controlStack + [ControlTarget(Some(labels[i]), brk, cont)];
      }
      assert labels[..|labels|] == labels;
    }

    method PopControlTargets(previous: nat)
      requires previous <= |controlStack|
      modifies this`controlStack
      ensures controlStack == old(controlStack)[..previous]
    {
      controlStack := controlStack[..previous];
    }

    /** The innermost target of that name. */
    method ResolveBreakTarget(name: Option<string>) returns (l: Option<Label>)
      ensures l == ResolveBreak(controlStack, name)
    {
      var i := |controlStack|;
      assert controlStack[..i] == controlStack;
      while i > 0
        invariant 0 <= i <= |controlStack| && ResolveBreak(controlStack, name) == ResolveBreak(controlStack[..i], name)
      {
        i := i - 1;
        assert controlStack[..i + 1][..i] == controlStack[..i];
        if controlStack[i].name == name {
          return Some(controlStack[i].brk);
        }
      }
      return None;
    }

    /** The innermost target of that name that can be continued. */
    method ResolveContinueTarget(name: Option<string>) returns (l: Option<Label>)
      ensures l == ResolveContinue(controlStack, name)
    {
      var i := |controlStack|;
      assert controlStack[..i] == controlStack;
      while i > 0
        invariant 0 <= i <= |controlStack|
                  && ResolveContinue(controlStack, name) == ResolveContinue(controlStack[..i], name)
      {
        i := i - 1;
        assert controlStack[..i + 1][..i] == controlStack[..i];
        if controlStack[i].name == name && controlStack[i].cont.Some? {
          return controlStack[i].cont;
        }
      }
      return None;
    }

    // ---- expressions ---------------------------------------------------------------------

    method LowerNameInto(x: string) returns (v: Operand)
      modifies this
      ensures Yields(LowerName(x, old(Numbers())), v)
    {
      if x == "undefined" {
        return Const(Undefined);
      } else if x == "NaN" {
        return Const(Number(NaN));
      } else if x == "Infinity" {
        return Const(Number(Infinity));
      }
      var dst := NewTemp();
      Emit(LoadName(dst, x));
      return Register(dst);
    }

    method LowerExpression(e: Expr) returns (v: Operand)
      modifies this
      ensures Yields(LowerExpr(old(prefix), e, old(Numbers())), v)
      decreases e, 2
    {
      match e {
        case Lit(value) =>
          var dst := NewTemp();
          Emit(LoadConst(dst, value));
          v := Register(dst);
        case Name(x) => v := LowerNameInto(x);
        case Bin(_, _, _) => v := LowerBinaryExpr(e);
        case Unary(_, _) => v := LowerUnaryExpr(e);
        case And(_, _) => v := LowerLogicalAnd(e);
        case Or(_, _) => v := LowerLogicalOr(e);
        case Nullish(_, _) => v := LowerNullishCoalescing(e);
        case Cond(_, _, _) => v := LowerConditional(e);
        case Seq(es) => v := LowerSequence(es, Const(Undefined));
        case Assign(_, _) => v := LowerAssignment(e);
        case AssignOp(_, _, _) => v := LowerCompound(e);
        case Update(op, isPrefix, x) => v := LowerUpdateExpr(op, isPrefix, x);
        case Call(_, _) => v := LowerCallExpr(e);
        case Fn(fn) =>
          var dst := NewTemp();
          var inner := NewChild();
          Emit(FunctionExpr(dst, fn));
          v := Register(dst);
      }
    }

    method LowerBinaryExpr(e: Expr) returns (v: Operand)
      requires e.Bin?
      modifies this
      ensures Yields(LowerExpr(old(prefix), e, old(Numbers())), v)
      decreases e, 1
    {
      assert LowerExpr(prefix, e, Numbers()) == LowerBinary(prefix, e, Numbers());
      var left := LowerExpression(e.left);
      var right := LowerExpression(e.right);
      var dst := NewTemp();
      Emit(BinaryInstr(dst, e.infix, left, right));
      v := Register(dst);
    }

    method LowerUnaryExpr(e: Expr) returns (v: Operand)
      requires e.Unary?
      modifies this
      ensures Yields(LowerExpr(old(prefix), e, old(Numbers())), v)
      decreases e, 1
    {
      assert LowerExpr(prefix, e, Numbers()) == LowerUnary(prefix, e, Numbers());
      var arg := LowerExpression(e.arg);
      var dst := NewTemp();
      Emit(UnaryInstr(dst, e.sign, arg));
      v := Register(dst);
    }

    method LowerLogicalAnd(e: Expr) returns (v: Operand)
      requires e.And?
      modifies this
      ensures Yields(LowerExpr(old(prefix), e, old(Numbers())), v)
      decreases e, 1
    {
      hide LowerAssignOp;
      assert LowerExpr(prefix, e, Numbers()) == LowerAnd(prefix, e, Numbers());
      var left := LowerExpression(e.left);
      var dst := NewTemp();
      var end := NewLabel("logical_and_end");
      Emit(Move(dst, left));
      Emit(JumpIfFalse(left, end));
      var right := LowerExpression(e.right);
      EmitTwo(Move(dst, right), LabelAt(end));
      v := Register(dst);
    }

    method LowerLogicalOr(e: Expr) returns (v: Operand)
      requires e.Or?
      modifies this
      ensures Yields(LowerExpr(old(prefix), e, old(Numbers())), v)
      decreases e, 1
    {
      hide LowerExpr;
      OrParts(prefix, e, Numbers());
      ghost var code := instructions;
      var left := LowerExpression(e.left);
      var dst := NewTemp();
      var rhs := NewLabel("logical_or_rhs");
      var end := NewLabel("logical_or_end");
      EmitTwo(Move(dst, left), JumpIfFalse(left, rhs));
      EmitTwo(Jump(end), LabelAt(rhs));
      ghost var x := LowerExpr(old(prefix), e.left, old(Numbers()));
      ghost var mid := OrCode(prefix, x, Const(Null)).0;
      assert instructions == code + x.code + mid;
      var right := LowerExpression(e.right);
      ghost var y := LowerExpr(old(prefix), e.right, Labels(Temp(x.ids), 2));
      EmitTwo(Move(dst, right), LabelAt(end));
      FourParts(code, x.code, mid, y.code, OrCode(prefix, x, right).1);
      assert instructions == code + x.code + mid + y.code + OrCode(prefix, x, right).1;
      v := Register(dst);
    }

    /** A nullish value goes on to the right operand, anything else to the end. */
    method EmitNullishTests(dst: nat, left: Operand) returns (end: Label)
      requires tempId == dst + 1
      modifies this`instructions, this`tempId, this`labelId
      ensures var x := LoweredExpr([], left, Ids(dst, old(labelId), childId));
              && instructions == old(instructions) + NullishCode(prefix, x, Const(Null)).0
              && Numbers() == Ids(dst + 3, old(labelId) + 3, childId) && end == L(prefix, "nullish_end", x.ids, 2)
    {
      var checkUndefined := NewLabel("nullish_check_undefined");
      var rhs := NewLabel("nullish_rhs");
      end := NewLabel("nullish_end");
      Emit(Move(dst, left));
      var isNull := NewTemp();
      Emit(BinaryInstr(isNull, "==", left, Const(Null)));
      Emit(JumpIfFalse(Register(isNull), checkUndefined));
      Emit(Jump(rhs));
      Emit(LabelAt(checkUndefined));
      var isUndefined := NewTemp();
      Emit(BinaryInstr(isUndefined, "==", left, Const(Undefined)));
      Emit(JumpIfFalse(Register(isUndefined), end));
      Emit(LabelAt(rhs));
    }

    method LowerNullishCoalescing(e: Expr) returns (v: Operand)
      requires e.Nullish?
      modifies this
      ensures Yields(LowerExpr(old(prefix), e, old(Numbers())), v)
      decreases e, 1
    {
      hide LowerExpr;
      NullishParts(prefix, e, Numbers());
      ghost var code := instructions;
      var left := LowerExpression(e.left);
      var dst := NewTemp();
      var end := EmitNullishTests(dst, left);
      ghost var x := LowerExpr(old(prefix), e.left, old(Numbers()));
      ghost var mid := NullishCode(prefix, x, Const(Null)).0;
      assert instructions == code + x.code + mid;
      var right := LowerExpression(e.right);
      ghost var y := LowerExpr(old(prefix), e.right, Labels(Temp(Temp(Temp(x.ids))), 3));
      assert instructions == code + x.code + mid + y.code;
      EmitTwo(Move(dst, right), LabelAt(end));
      ghost var tail := NullishCode(prefix, x, right).1;
      FourParts(code, x.code, mid, y.code, tail);
      assert instructions == code + x.code + mid + y.code + tail;
      v := Register(dst);
    }

    method LowerConditional(e: Expr) returns (v: Operand)
      requires e.Cond?
      modifies this
      ensures Yields(LowerExpr(old(prefix), e, old(Numbers())), v)
      decreases e, 1
    {
      hide LowerExpr, CondCode, L;
      CondParts(prefix, e, Numbers());
      ghost var code := instructions;
      var dst := NewTemp();
      var elseLabel := NewLabel("cond_else");
      var end := NewLabel("cond_end");
      var test := LowerExpression(e.test);
      Emit(JumpIfFalse(test, elseLabel));
      ghost var x := LowerExpr(old(prefix), e.test, Labels(Temp(old(Numbers())), 2));
      ghost var jump := [JumpIfFalse(x.value, elseLabel)];
      assert instructions == code + x.code + jump;
      var cons := LowerExpression(e.cons);
      ghost var y := LowerExpr(old(prefix), e.cons, x.ids);
      ghost var m2 := [Move(dst, cons), Jump(end), LabelAt(elseLabel)];
      EmitThree(Move(dst, cons), Jump(end), LabelAt(elseLabel));
      assert instructions == code + x.code + jump + y.code + m2;
      var alt := LowerExpression(e.alt);
      ghost var z := LowerExpr(old(prefix), e.alt, y.ids);
      EmitTwo(Move(dst, alt), LabelAt(end));
      ghost var m3 := [Move(dst, alt), LabelAt(end)];
      SixParts(code, x.code, jump, y.code, m2, z.code, m3);
      assert instructions == code + x.code + jump + y.code + m2 + z.code + m3;
      v := Register(dst);
    }

    method LowerAssignment(e: Expr) returns (v: Operand)
      requires e.Assign?
      modifies this
      ensures Yields(LowerExpr(old(prefix), e, old(Numbers())), v)
      decreases e, 1
    {
      assert LowerExpr(prefix, e, Numbers()) == LowerAssign(prefix, e, Numbers());
      v := LowerExpression(e.right);
      Emit(StoreName(e.name, v));
    }

    method LowerCompound(e: Expr) returns (v: Operand)
      requires e.AssignOp?
      modifies this
      ensures Yields(LowerExpr(old(prefix), e, old(Numbers())), v)
      decreases e, 1
    {
      assert LowerExpr(prefix, e, Numbers()) == LowerAssignOp(prefix, e, Numbers());
      var current := NewTemp();
      Emit(LoadName(current, e.name));
      var right := LowerExpression(e.right);
      var dst := NewTemp();
      Emit(BinaryInstr(dst, e.op, Register(current), right));
      Emit(StoreName(e.name, Register(dst)));
      v := Register(dst);
    }

    method LowerUpdateExpr(op: string, isPrefix: bool, x: string) returns (v: Operand)
      modifies this
      ensures Yields(LowerIncDec(op, isPrefix, x, old(Numbers())), v)
    {
      var before := LowerNameInto(x);
      var dst := NewTemp();
      Emit(UnaryInstr(dst, op, before));
      Emit(StoreName(x, Register(dst)));
      v := if isPrefix then Register(dst) else before;
    }

    method LowerCallExpr(e: Expr) returns (v: Operand)
      requires e.Call?
      modifies this
      ensures Yields(LowerExpr(old(prefix), e, old(Numbers())), v)
      decreases e, 1
    {
      assert LowerExpr(prefix, e, Numbers()) == LowerCall(prefix, e, Numbers());
      var callee := LowerExpression(e.callee);
      var dst := NewTemp();
      var args := LowerArguments(e.args);
      Emit(CallInstr(dst, callee, args));
      v := Register(dst);
    }

    method LowerSequence(es: seq<Expr>, last: Operand) returns (v: Operand)
      modifies this
      ensures Yields(LowerSeq(old(prefix), es, last, old(Numbers())), v)
      decreases es, 0
    {
      if es == [] {
        return last;
      }
      v := LowerExpression(es[0]);
      v := LowerSequence(es[1..], v);
    }

    method LowerArguments(es: seq<Expr>) returns (vs: seq<Operand>)
      modifies this
      ensures var x := LowerArgs(old(prefix), es, old(Numbers())); Adds(x.code, x.ids) && vs == x.values
                                                                   && pending == old(pending)
      decreases es, 0
    {
      if es == [] {
        return [];
      }
      var v := LowerExpression(es[0]);
      var rest := LowerArguments(es[1..]);
      vs := [v] + rest;
    }

    // ---- statements ------------------------------------------------------------------------

    twostate predicate Becomes(x: Lowered)
      reads this
    {
      Adds(x.code, x.ids) && pending == []
    }

    method LowerExpressionStmt(e: Expr)
      modifies this
      ensures var x := LowerExprStmt(old(prefix), e, old(Numbers())); Adds(x.code, x.ids) && pending == old(pending)
    {
      hide LowerExpr;
      var value := LowerExpression(e);
      if value.Const? {
        var dst := NewTemp();
        Emit(Move(dst, value));
        value := Register(dst);
      }
      Emit(Pop(value));
    }

    method LowerDeclarator(kind: DeclKind, d: Declarator)
      modifies this
      ensures var x := LowerOpt(old(prefix), d.init, Const(Undefined), old(Numbers()));
              Adds(x.code + [DeclareName(kind, d.name), StoreName(d.name, x.value)], x.ids) && pending == old(pending)
    {
      hide LowerExpr;
      var value := Const(Undefined);
      if d.init.Some? {
        value := LowerExpression(d.init.value);
      }
      Emit(DeclareName(kind, d.name));
      Emit(StoreName(d.name, value));
    }

    method LowerDeclarators(kind: DeclKind, decls: seq<Declarator>)
      modifies this
      ensures var x := LowerDecls(old(prefix), kind, decls, old(Numbers()));
              Adds(x.code, x.ids) && pending == old(pending)
    {
      hide LowerExpr, LowerOpt;
      var i := 0;
      ghost var code, ids := [], Numbers();
      while i < |decls|
        invariant 0 <= i <= |decls| && Adds(code, ids) && pending == old(pending)
        invariant var rest := LowerDecls(prefix, kind, decls[i..], ids);
                  var all := LowerDecls(prefix, kind, decls, old(Numbers()));
                  all.code == code + rest.code && all.ids == rest.ids
      {
        assert decls[i..][1..] == decls[i + 1..];
        ghost var x := LowerOpt(prefix, decls[i].init, Const(Undefined), ids);
        LowerDeclarator(kind, decls[i]);
        code, ids := code + (x.code + [DeclareName(kind, decls[i].name), StoreName(decls[i].name, x.value)]), x.ids;
        i := i + 1;
      }
    }

    /** The test of a loop or an `if`, when there is one. */
    method LowerGuard(t: Option<Expr>, end: Label)
      modifies this
      ensures var x := LowerTest(old(prefix), t, end, old(Numbers())); Adds(x.code, x.ids) && pending == old(pending)
    {
      hide LowerExpr;
      if t.Some? {
        var test := LowerExpression(t.value);
        Emit(JumpIfFalse(test, end));
      }
    }

    method LowerDropped(u: Option<Expr>)
      modifies this
      ensures var x := Lower.LowerUpdate(old(prefix), u, old(Numbers())); Adds(x.code, x.ids) && pending == old(pending)
    {
      hide LowerExpr;
      if u.Some? {
        var value := LowerExpression(u.value);
        Emit(Pop(value));
      }
    }

    method LowerForInit(init: ForInit)
      modifies this
      ensures var x := LowerInit(old(prefix), init, old(Numbers())); Adds(x.code, x.ids) && pending == old(pending)
    {
      match init {
        case NoInit =>
        case InitExpr(e) => LowerDropped(Some(e));
        case InitDecl(kind, decls) => LowerDeclarators(kind, decls);
      }
    }

    /** Reads the loop bindings, opens or replaces the iteration's frame, binds the copies. */
    method EmitPerIterationScope(names: seq<string>, leaveExisting: bool)
      modifies this
      ensures var x := PerIteration(names, leaveExisting, old(Numbers()));
              Adds(x.code, x.ids) && pending == old(pending)
    {
      hide CopyLoads, CopyStores;
      var first := tempId;
      NoCopies(first);
      assert names[..0] == [];
      var i := 0;
      while i < |names|
        invariant 0 <= i <= |names| && pending == old(pending)
        invariant Adds(CopyLoads(names[..i], first), Ids(first + i, old(labelId), old(childId)))
      {
        LoadNext(names, i, first);
        var t := NewTemp();
        Emit(LoadName(t, names[i]));
        i := i + 1;
      }
      assert names[..|names|] == names;
      if leaveExisting {
        Emit(LeaveScope);
      }
      Emit(EnterScope);
      ghost var head := CopyLoads(names, first) + (if leaveExisting then [LeaveScope, EnterScope] else [EnterScope]);
      i := 0;
      while i < |names|
        invariant 0 <= i <= |names| && pending == old(pending)
        invariant Adds(head + CopyStores(names[..i], first), Ids(first + |names|, old(labelId), old(childId)))
      {
        StoreNext(names, i, first);
        Emit(DeclareName(LetKind, names[i]));
        Emit(StoreName(names[i], Register(first + i)));
        i := i + 1;
      }
      assert names[..|names|] == names;
    }

    method LowerStatement(s: Stmt)
      requires pending != [] ==> IsControlTarget(s)
      modifies this
      ensures Becomes(LowerStmt(old(prefix), old(controlStack), old(pending), s, old(Numbers())))
      decreases s, 2
    {
      match s {
        case Empty =>
        case ExprStmt(e) => LowerExpressionStmt(e);
        case Decl(kind, decls) => LowerDeclarators(kind, decls);
        case Block(_) => LowerBlock(s);
        case If(_, _, _) => LowerIfStmt(s);
        case While(_, _) => LowerWhileStmt(s);
        case DoWhile(_, _) => LowerDoWhileStmt(s);
        case For(_, _, _, _) => LowerForStmt(s);
        case Switch(_, _) => LowerSwitchStmt(s);
        case Labeled(_, _) => LowerLabeledStmt(s);
        case Break(target) =>
          var l := ResolveBreakTarget(target);
          if l.Some? { Emit(Jump(l.value)); } else { Emit(Marker("break")); }
        case Continue(target) =>
          var l := ResolveContinueTarget(target);
          if l.Some? { Emit(Jump(l.value)); } else { Emit(Marker("continue")); }
        case Return(arg) => LowerReturnStmt(arg);
        case Throw(e) => LowerThrowStmt(e);
        case Try(_, _, _) => LowerTryStmt(s);
      }
    }

    method LowerReturnStmt(arg: Option<Expr>)
      modifies this
      ensures var x := LowerReturn(old(prefix), arg, old(Numbers())); Adds(x.code, x.ids) && pending == old(pending)
    {
      hide LowerExpr;
      if arg.Some? {
        var value := LowerExpression(arg.value);
        Emit(ReturnInstr(Some(value)));
      } else {
        Emit(ReturnInstr(None));
      }
    }

    method LowerThrowStmt(e: Expr)
      modifies this
      ensures var x := LowerThrow(old(prefix), e, old(Numbers())); Adds(x.code, x.ids) && pending == old(pending)
    {
      hide LowerExpr;
      var value := LowerExpression(e);
      Emit(ThrowInstr(value));
    }

    method LowerStatements(ss: seq<Stmt>)
      requires pending == []
      modifies this
      ensures Becomes(LowerList(old(prefix), old(controlStack), ss, old(Numbers())))
      decreases ss, 1
    {
      if ss != [] {
        LowerStatement(ss[0]);
        LowerStatements(ss[1..]);
      }
    }

    /** A block's instructions are taken back off the list and wrapped in a scope. */
    method LowerBlock(s: Stmt)
      requires s.Block? && pending == []
      modifies this
      ensures Becomes(LowerStmt(old(prefix), old(controlStack), [], s, old(Numbers())))
      decreases s, 1
    {
      var start := |instructions|;
      LowerStatements(s.body);
      var body := instructions[start..];
      instructions := instructions[..start];
      Emit(Scope(body));
    }

    method LowerIfStmt(s: Stmt)
      requires s.If? && pending == []
      modifies this
      ensures Becomes(LowerStmt(old(prefix), old(controlStack), [], s, old(Numbers())))
      decreases s, 1
    {
      hide LowerTest, LowerStmt;
      IfParts(prefix, controlStack, s, Numbers());
      ghost var code, ids, ctrl := instructions, Numbers(), controlStack;
      var elseLabel := NewLabel("if_else");
      var end := NewLabel("if_end");
      LowerGuard(Some(s.test), elseLabel);
      ghost var x := LowerTest(prefix, Some(s.test), elseLabel, Labels(ids, 2));
      LowerStatement(s.cons);
      ghost var y := LowerStmt(prefix, ctrl, [], s.cons, x.ids);
      EmitTwo(Jump(end), LabelAt(elseLabel));
      ghost var z := match s.alt case Some(b) => LowerStmt(prefix, ctrl, [], b, y.ids) case None => Lowered([], y.ids);
      if s.alt.Some? {
        LowerStatement(s.alt.value);
      }
      Emit(LabelAt(end));
      FiveParts(code, x.code, y.code, [Jump(end), LabelAt(elseLabel)], z.code, [LabelAt(end)]);
      assert instructions == code + x.code + y.code + [Jump(end), LabelAt(elseLabel)] + z.code + [LabelAt(end)];
    }

    method LowerWhileStmt(s: Stmt)
      requires s.While?
      modifies this
      ensures Becomes(LowerStmt(old(prefix), old(controlStack), old(pending), s, old(Numbers())))
      decreases s, 1
    {
      hide LowerTest, LowerTry, BoundNames, LowerOpt, LowerUpdate, PendingTargets, PerIteration, Temp, LowerExpr,
           LowerSwitch;
      assert LowerStmt(prefix, controlStack, pending, s, Numbers())
             == LowerWhile(prefix, controlStack, pending, s, Numbers());
      ghost var code, ids := instructions, Numbers();
      var start := NewLabel("while_start");
      var end := NewLabel("while_end");
      Emit(LabelAt(start));
      LowerGuard(Some(s.test), end);
      ghost var x := LowerTest(prefix, Some(s.test), end, Labels(ids, 2));
      var previous := PushControlTargets(end, Some(start));
      ghost var y := LowerStmt(prefix, controlStack, [], s.stmt, x.ids);
      LowerStatement(s.stmt);
      PushedBack(old(controlStack), old(pending), end, Some(start));
      PopControlTargets(previous);
      Emit(Jump(start));
      Emit(LabelAt(end));
      FourParts(code, [LabelAt(start)], x.code, y.code, [Jump(start), LabelAt(end)]);
      assert instructions == code + [LabelAt(start)] + x.code + y.code + [Jump(start), LabelAt(end)];
    }

    method LowerDoWhileStmt(s: Stmt)
      requires s.DoWhile?
      modifies this
      ensures Becomes(LowerStmt(old(prefix), old(controlStack), old(pending), s, old(Numbers())))
      decreases s, 1
    {
      hide LowerTest, LowerStmt, PushTargets, LowerExpr, LowerExprStmt, IsControlTarget;
      DoParts(prefix, controlStack, pending, s, Numbers());
      ghost var code, ids := instructions, Numbers();
      var start := NewLabel("do_start");
      var test := NewLabel("do_test");
      var end := NewLabel("do_end");
      Emit(LabelAt(start));
      var previous := PushControlTargets(end, Some(test));
      ghost var y := LowerStmt(prefix, controlStack, [], s.stmt, Labels(ids, 3));
      LowerStatement(s.stmt);
      PushedBack(old(controlStack), old(pending), end, Some(test));
      PopControlTargets(previous);
      Emit(LabelAt(test));
      LowerGuard(Some(s.test), end);
      ghost var x := LowerTest(prefix, Some(s.test), end, y.ids);
      Emit(Jump(start));
      Emit(LabelAt(end));
      FiveParts(code, [LabelAt(start)], y.code, [LabelAt(test)], x.code, [Jump(start), LabelAt(end)]);
      assert instructions == code + [LabelAt(start)] + y.code + [LabelAt(test)] + x.code + [Jump(start), LabelAt(end)];
    }

    /** The loop's own frame is collected apart, the context's list put aside meanwhile. */
    method LowerForStmt(s: Stmt)
      requires s.For?
      modifies this
      ensures Becomes(LowerStmt(old(prefix), old(controlStack), old(pending), s, old(Numbers())))
      decreases s, 1
    {
      if IsLexicalFor(s) {
        var outer := instructions;
        instructions := [];
        LowerLexicalFor(s);
        var body := instructions;
        instructions := outer;
        Emit(Scope(body));
      } else {
        LowerUnscopedFor(s);
      }
    }

    method LowerLexicalFor(s: Stmt)
      requires IsLexicalFor(s) && instructions == []
      modifies this
      ensures var x := LowerForLexical(old(prefix), old(controlStack), old(pending), s, old(Numbers()));
              x.code == [Scope(instructions)] && Numbers() == x.ids && prefix == old(prefix)
                  && controlStack == old(controlStack) && pending == []
      decreases s, 0
    {
      hide LowerTest, LowerInit, PerIteration, Lower.LowerUpdate, LowerExpr, IsControlTarget, PendingTargets, Temp,
           LowerStmt, BoundNames;
      var names := BoundNames(s.init.decls);
      ghost var i := LowerInit(prefix, s.init, Numbers());
      LowerForInit(s.init);
      ghost var c := PerIteration(names, false, i.ids);
      EmitPerIterationScope(names, false);
      assert instructions == i.code + c.code;
      var start := NewLabel("for_start");
      var next := NewLabel("for_update");
      var end := NewLabel("for_end");
      Emit(LabelAt(start));
      ghost var x := LowerTest(prefix, s.guard, end, Labels(c.ids, 3));
      LowerGuard(s.guard, end);
      var previous := PushControlTargets(end, Some(next));
      ghost var y := LowerStmt(prefix, controlStack, [], s.stmt, x.ids);
      LowerStatement(s.stmt);
      PushedBack(old(controlStack), old(pending), end, Some(next));
      PopControlTargets(previous);
      assert instructions == i.code + c.code + [LabelAt(start)] + x.code + y.code;
      LowerNextIteration(s, names, start, next, end, y.ids);
      ghost var d := PerIteration(names, true, y.ids);
      ghost var z := Lower.LowerUpdate(prefix, s.update, d.ids);
      LexicalParts(i.code, c.code, [LabelAt(start)], x.code, y.code, [LabelAt(next)], d.code, z.code,
          [Jump(start), LabelAt(end), LeaveScope]);
    }

    /** The end of an iteration: its frame replaced, the update in the new one, and back. */
    method LowerNextIteration(s: Stmt, names: seq<string>, start: Label, next: Label, end: Label, ghost ids: Ids)
      requires s.For? && Numbers() == ids
      modifies this
      ensures var d := PerIteration(names, true, ids); var z := Lower.LowerUpdate(old(prefix), s.update, d.ids);
              Adds([LabelAt(next)] + (d.code + (z.code + [Jump(start), LabelAt(end), LeaveScope])), z.ids)
                  && pending == old(pending)
    {
      hide PerIteration, Lower.LowerUpdate;
      Emit(LabelAt(next));
      EmitPerIterationScope(names, true);
      LowerDropped(s.update);
      Emit(Jump(start));
      Emit(LabelAt(end));
      Emit(LeaveScope);
    }

    method LowerUnscopedFor(s: Stmt)
      requires s.For? && !IsLexicalFor(s)
      modifies this
      ensures Becomes(LowerForUnscoped(old(prefix), old(controlStack), old(pending), s, old(Numbers())))
      decreases s, 0
    {
      hide LowerTest, LowerInit, Lower.LowerUpdate, LowerExpr, LowerStmt, IsLexicalFor, IsControlTarget, PendingTargets,
           Temp;
      ghost var code := instructions;
      ghost var i := LowerInit(prefix, s.init, Numbers());
      LowerForInit(s.init);
      var start := NewLabel("for_start");
      var next := NewLabel("for_update");
      var end := NewLabel("for_end");
      Emit(LabelAt(start));
      ghost var x := LowerTest(prefix, s.guard, end, Labels(i.ids, 3));
      LowerGuard(s.guard, end);
      var previous := PushControlTargets(end, Some(next));
      ghost var y := LowerStmt(prefix, controlStack, [], s.stmt, x.ids);
      LowerStatement(s.stmt);
      PushedBack(old(controlStack), old(pending), end, Some(next));
      PopControlTargets(previous);
      assert instructions == code + i.code + [LabelAt(start)] + x.code + y.code;
      LowerForEnd(s, start, next, end, y.ids);
      ghost var z := Lower.LowerUpdate(prefix, s.update, y.ids);
      FiveParts(code, i.code, [LabelAt(start)], x.code, y.code,
          [LabelAt(next)] + (z.code + [Jump(start), LabelAt(end)]));
    }

    method LowerForEnd(s: Stmt, start: Label, next: Label, end: Label, ghost ids: Ids)
      requires s.For? && Numbers() == ids
      modifies this
      ensures var z := Lower.LowerUpdate(old(prefix), s.update, ids);
              Adds([LabelAt(next)] + (z.code + [Jump(start), LabelAt(end)]), z.ids) && pending == old(pending)
    {
      hide Lower.LowerUpdate;
      Emit(LabelAt(next));
      LowerDropped(s.update);
      Emit(Jump(start));
      Emit(LabelAt(end));
    }

    method LowerLabeledStmt(s: Stmt)
      requires s.Labeled? && (pending != [] ==> IsControlTarget(s))
      modifies this
      ensures Becomes(LowerStmt(old(prefix), old(controlStack), old(pending), s, old(Numbers())))
      decreases s, 1
    {
      assert LowerStmt(prefix, controlStack, pending, s, Numbers())
             == LowerLabeled(prefix, controlStack, pending, s, Numbers());
      if IsControlTarget(s.stmt) {
        pending := pending + [s.name];
        LowerStatement(s.stmt);
      } else {
        var end := NewLabel("label_end");
        var previous := |controlStack|;
        controlStack := controlStack + [ControlTarget(Some(s.name), end, None)];
        LowerStatement(s.stmt);
        PopControlTargets(previous);
        Emit(LabelAt(end));
      }
    }

    /** The labels of the clauses, in order: one each, the default clause the one made for it. */
    method LabelClauses(cases: seq<Case>, dflt: Label) returns (labels: seq<Label>)
      modifies this`labelId
      ensures var r := CaseLabels(prefix, cases, 0, dflt, old(Numbers())); labels == r.0 && Numbers() == r.1
    {
      hide CaseLabels, Decimal;
      labels := [];
      var i := 0;
      ghost var all := CaseLabels(prefix, cases, 0, dflt, Numbers());
      assert cases[0..] == cases && [] + all.0 == all.0;
      while i < |cases|
        invariant 0 <= i <= |cases| && |labels| == i && tempId == old(tempId) && childId == old(childId)
        invariant all.0 == labels + CaseLabels(prefix, cases[i..], i, dflt, Numbers()).0
        invariant all.1 == CaseLabels(prefix, cases[i..], i, dflt, Numbers()).1
      {
        ClauseLabel(prefix, cases, i, dflt, Numbers());
        var l := dflt;
        if cases[i].test.Some? {
          l := NewLabel("switch_case_" + Decimal(i));
        }
        assert labels + ([l] + CaseLabels(prefix, cases[i + 1..], i + 1, dflt, Numbers()).0)
            == (labels + [l]) + CaseLabels(prefix, cases[i + 1..], i + 1, dflt, Numbers()).0;
        labels := labels + [l];
        i := i + 1;
      }
      NoClauses(prefix, cases, dflt, Numbers());
    }

    method LowerClauseTests(disc: Operand, cases: seq<Case>, labels: seq<Label>)
      requires |labels| == |cases|
      modifies this
      ensures var x := LowerTests(old(prefix), disc, cases, labels, old(Numbers()));
              Adds(x.code, x.ids) && pending == old(pending)
    {
      hide LowerExpr;
      var i := 0;
      ghost var code, ids := [], Numbers();
      ghost var all := LowerTests(prefix, disc, cases, labels, Numbers());
      while i < |cases|
        invariant 0 <= i <= |cases| && Adds(code, ids) && pending == old(pending)
        invariant var rest := LowerTests(prefix, disc, cases[i..], labels[i..], ids);
                  all.code == code + rest.code && all.ids == rest.ids
      {
        assert cases[i..][1..] == cases[i + 1..] && labels[i..][1..] == labels[i + 1..];
        if cases[i].test.Some? {
          ghost var more := LowerClauseTest(disc, cases[i].test.value, labels[i]);
          code, ids := code + more, Numbers();
        }
        i := i + 1;
      }
    }

    method LowerClauseTest(disc: Operand, e: Expr, l: Label) returns (ghost code: seq<Instr>)
      modifies this
      ensures var a := LowerExpr(old(prefix), e, old(Numbers())); var next := L(old(prefix), "switch_next", a.ids, 0);
              && code == a.code + [BinaryInstr(a.ids.temp, "===", disc, a.value),
                 JumpIfFalse(Register(a.ids.temp), next), Jump(l), LabelAt(next)]
              && Adds(code, Labels(Temp(a.ids), 1)) && pending == old(pending)
    {
      hide LowerExpr;
      ghost var a := LowerExpr(prefix, e, Numbers());
      var test := LowerExpression(e);
      var cmp := NewTemp();
      Emit(BinaryInstr(cmp, "===", disc, test));
      var next := NewLabel("switch_next");
      Emit(JumpIfFalse(Register(cmp), next));
      Emit(Jump(l));
      Emit(LabelAt(next));
      code := a.code + [BinaryInstr(a.ids.temp, "===", disc, a.value), JumpIfFalse(Register(a.ids.temp), next), Jump(l),
          LabelAt(next)];
    }

    method LowerClauses(cases: seq<Case>, labels: seq<Label>)
      requires |labels| == |cases| && pending == []
      modifies this
      ensures Becomes(Lower.LowerCases(old(prefix), old(controlStack), cases, labels, old(Numbers())))
      decreases cases, 1
    {
      if cases != [] {
        Emit(LabelAt(labels[0]));
        LowerStatements(cases[0].body);
        LowerClauses(cases[1..], labels[1..]);
      }
    }

    /** The bodies, with `end` as the target of `break`. */
    method LowerClauseBodies(cases: seq<Case>, labels: seq<Label>, end: Label)
      requires |labels| == |cases|
      modifies this
      ensures var y := LowerCases(old(prefix), PushTargets(old(controlStack), old(pending), end, None), cases, labels,
              old(Numbers()));
              Adds(y.code + [LabelAt(end)], y.ids) && pending == []
      decreases cases, 2
    {
      hide LowerCases, PushTargets;
      var previous := PushControlTargets(end, None);
      LowerClauses(cases, labels);
      PushedBack(old(controlStack), old(pending), end, None);
      PopControlTargets(previous);
      Emit(LabelAt(end));
    }

    method LowerSwitchStmt(s: Stmt)
      requires s.Switch?
      modifies this
      ensures Becomes(LowerStmt(old(prefix), old(controlStack), old(pending), s, old(Numbers())))
      decreases s, 1
    {
      hide LowerExpr, CaseLabels, LowerTests, LowerCases, HasDefault, LowerStmt, PushTargets;
      SwitchParts(prefix, controlStack, pending, s, Numbers());
      ghost var code := instructions;
      ghost var x := LowerExpr(prefix, s.disc, Numbers());
      var disc := LowerExpression(s.disc);
      var end := NewLabel("switch_end");
      var dflt := NewLabel("switch_default");
      var labels := LabelClauses(s.cases, dflt);
      ghost var t := LowerTests(prefix, disc, s.cases, labels, Numbers());
      LowerClauseTests(disc, s.cases, labels);
      var hasDefault := AnyDefault(s.cases);
      var target := if hasDefault then dflt else end;
      Emit(Jump(target));
      ghost var y := LowerCases(prefix, PushTargets(controlStack, pending, end, None), s.cases, labels, Numbers());
      LowerClauseBodies(s.cases, labels, end);
      FiveParts(code, x.code, t.code, [Jump(target)], y.code, [LabelAt(end)]);
      assert instructions == code + x.code + t.code + [Jump(target)] + y.code + [LabelAt(end)];
    }

    method AnyDefault(cases: seq<Case>) returns (b: bool)
      ensures b == HasDefault(cases)
    {
      for i := 0 to |cases|
        invariant forall k :: 0 <= k < i ==> cases[k].test.Some?
      {
        if cases[i].test.None? {
          return true;
        }
      }
      return false;
    }

    /** Each part of a `try` in a context of its own, which is then discarded. */
    method LowerPart(body: seq<Stmt>) returns (part: seq<Instr>)
      modifies this`childId
      ensures part == [Scope(LowerList(old(prefix) + [old(childId)], [], body, Ids(0, 0, 0)).code)]
      ensures childId == old(childId) + 1
      decreases body, 3
    {
      hide LowerList;
      var inner := NewChild();
      inner.LowerStatements(body);
      ghost var x := LowerList(old(prefix) + [old(childId)], [], body, Ids(0, 0, 0));
      assert inner.instructions == [] + x.code == x.code;
      part := [Scope(inner.instructions)];
    }

    method LowerTryStmt(s: Stmt)
      requires s.Try? && pending == []
      modifies this
      ensures Becomes(LowerStmt(old(prefix), old(controlStack), [], s, old(Numbers())))
      decreases s, 1
    {
      hide LowerList;
      assert LowerStmt(prefix, controlStack, [], s, Numbers()) == LowerTry(prefix, s, Numbers());
      var body := LowerPart(s.block);
      var param: Option<string> := None;
      var catchBody := [];
      if s.handler.Some? {
        param := s.handler.value.param;
        catchBody := LowerPart(s.handler.value.body);
      }
      var finallyBody := [];
      if s.finalizer.Finally? {
        finallyBody := LowerPart(s.finalizer.body);
      }
      Emit(TryInstr(body, param, catchBody, finallyBody));
    }
  }

  lemma ClauseLabel(p: seq<nat>, cases: seq<Case>, i: nat, dflt: Label, ids: Ids)
    requires i < |cases|
    ensures var own := cases[i].test.Some?;
            var rest := CaseLabels(p, cases[i + 1..], i + 1, dflt, if own then Labels(ids, 1) else ids);
            var r := CaseLabels(p, cases[i..], i, dflt, ids);
            r.0 == [if own then CodeLabel(p, "switch_case_" + Decimal(i), ids.lbl) else dflt] + rest.0 && r.1 == rest.1
  {
    assert cases[i..][1..] == cases[i + 1..];
  }

  lemma NoClauses(p: seq<nat>, cases: seq<Case>, dflt: Label, ids: Ids)
    ensures var r := CaseLabels(p, cases[|cases|..], |cases|, dflt, ids); r.0 == [] && r.1 == ids
  {
  }

  lemma NoCopies(t: nat)
    ensures CopyLoads([], t) == [] && CopyStores([], t) == []
  {
  }

  lemma OrParts(p: seq<nat>, e: Expr, ids: Ids)
    requires e.Or?
    ensures var a := LowerExpr(p, e.left, ids); var b := LowerExpr(p, e.right, Labels(Temp(a.ids), 2));
            var (mid, tail) := OrCode(p, a, b.value);
            LowerExpr(p, e, ids) == LoweredExpr(a.code + (mid + (b.code + tail)), Register(a.ids.temp), b.ids)
  {
    assert LowerExpr(p, e, ids) == LowerOr(p, e, ids);
  }

  lemma NullishParts(p: seq<nat>, e: Expr, ids: Ids)
    requires e.Nullish?
    ensures var a := LowerExpr(p, e.left, ids); var b := LowerExpr(p, e.right, Labels(Temp(Temp(Temp(a.ids))), 3));
            var (mid, tail) := NullishCode(p, a, b.value);
            LowerExpr(p, e, ids) == LoweredExpr(a.code + (mid + (b.code + tail)), Register(a.ids.temp), b.ids)
  {
    assert LowerExpr(p, e, ids) == LowerNullish(p, e, ids);
  }

  lemma CondParts(p: seq<nat>, e: Expr, ids: Ids)
    requires e.Cond?
    ensures var x := LowerExpr(p, e.test, Labels(Temp(ids), 2)); var y := LowerExpr(p, e.cons, x.ids);
                                                                 var z := LowerExpr(p, e.alt, y.ids);
            var els, end := CodeLabel(p, "cond_else", ids.lbl), CodeLabel(p, "cond_end", ids.lbl + 1);
            LowerExpr(p, e, ids) == LoweredExpr(x.code
                + ([JumpIfFalse(x.value, els)] + (y.code + ([Move(ids.temp, y.value), Jump(end), LabelAt(els)]
                                                  + (z.code + [Move(ids.temp, z.value), LabelAt(end)])))),
                                                      Register(ids.temp), z.ids)
  {
    assert LowerExpr(p, e, ids) == LowerCond(p, e, ids);
  }

  lemma IfParts(p: seq<nat>, ctrl: seq<ControlTarget>, s: Stmt, ids: Ids)
    requires s.If?
    ensures var els, end := CodeLabel(p, "if_else", ids.lbl), CodeLabel(p, "if_end", ids.lbl + 1);
            var x := LowerTest(p, Some(s.test), els, Labels(ids, 2)); var y := LowerStmt(p, ctrl, [], s.cons, x.ids);
            var z := (match s.alt case Some(b) => LowerStmt(p, ctrl, [], b, y.ids) case None => Lowered([], y.ids));
            LowerStmt(p, ctrl, [], s, ids)
                == Lowered(x.code + (y.code + ([Jump(end), LabelAt(els)] + (z.code + [LabelAt(end)]))), z.ids)
  {
    assert LowerStmt(p, ctrl, [], s, ids) == LowerIf(p, ctrl, s, ids);
  }

  lemma DoParts(p: seq<nat>, ctrl: seq<ControlTarget>, pending: seq<string>, s: Stmt, ids: Ids)
    requires s.DoWhile?
    ensures var start, test, end := CodeLabel(p, "do_start", ids.lbl), CodeLabel(p, "do_test", ids.lbl + 1),
            CodeLabel(p, "do_end", ids.lbl + 2);
            var y := LowerStmt(p, PushTargets(ctrl, pending, end, Some(test)), [], s.stmt, Labels(ids, 3));
                var x := LowerTest(p, Some(s.test), end, y.ids);
            LowerStmt(p, ctrl, pending, s, ids)
                == Lowered([LabelAt(start)] + (y.code + ([LabelAt(test)] + (x.code + [Jump(start), LabelAt(end)]))),
                    x.ids)
  {
    assert LowerStmt(p, ctrl, pending, s, ids) == LowerDoWhile(p, ctrl, pending, s, ids);
  }

  lemma SwitchParts(p: seq<nat>, ctrl: seq<ControlTarget>, pending: seq<string>, s: Stmt, ids: Ids)
    requires s.Switch?
    ensures var x := LowerExpr(p, s.disc, ids);
            var end, dflt := CodeLabel(p, "switch_end", x.ids.lbl), CodeLabel(p, "switch_default", x.ids.lbl + 1);
            var ls := CaseLabels(p, s.cases, 0, dflt, Labels(x.ids, 2));
                var t := LowerTests(p, x.value, s.cases, ls.0, ls.1);
            var target := if HasDefault(s.cases) then dflt else end;
            var y := LowerCases(p, PushTargets(ctrl, pending, end, None), s.cases, ls.0, t.ids);
            LowerStmt(p, ctrl, pending, s, ids)
                == Lowered(x.code + (t.code + ([Jump(target)] + (y.code + [LabelAt(end)]))), y.ids)
  {
    assert LowerStmt(p, ctrl, pending, s, ids) == LowerSwitch(p, ctrl, pending, s, ids);
  }

  lemma FourParts(s: seq<Instr>, a: seq<Instr>, b: seq<Instr>, c: seq<Instr>, d: seq<Instr>)
    ensures s + a + b + c + d == s + (a + (b + (c + d)))
  {
  }

  lemma FiveParts(s: seq<Instr>, a: seq<Instr>, b: seq<Instr>, c: seq<Instr>, d: seq<Instr>, e: seq<Instr>)
    ensures s + a + b + c + d + e == s + (a + (b + (c + (d + e))))
  {
    FourParts(s, a, b, c, d);
    FourParts(s, a, b, c, d + e);
  }

  lemma LexicalParts(a: seq<Instr>, b: seq<Instr>, c: seq<Instr>, d: seq<Instr>, e: seq<Instr>, f: seq<Instr>,
                     g: seq<Instr>, h: seq<Instr>, i: seq<Instr>)
    ensures a + b + c + d + e + (f + (g + (h + i))) == a + (b + (c + (d + (e + (f + (g + (h + i)))))))
  {
    FourParts(a, b, c, d, e);
    FourParts(a, b, c, d, e + (f + (g + (h + i))));
  }

  /** Popping what was pushed. */
  lemma PushedBack(ctrl: seq<ControlTarget>, pending: seq<string>, brk: Label, cont: Option<Label>)
    ensures |ctrl| < |PushTargets(ctrl, pending, brk, cont)| && PushTargets(ctrl, pending, brk, cont)[..|ctrl|] == ctrl
  {
  }

  lemma {:induction false} LoadsConcat(a: seq<string>, b: seq<string>, t: nat)
    ensures CopyLoads(a + b, t) == CopyLoads(a, t) + CopyLoads(b, t + |a|)
    decreases a
  {
    if a == [] {
      assert a + b == b;
    } else {
      assert (a + b)[1..] == a[1..] + b;
      LoadsConcat(a[1..], b, t + 1);
    }
  }

  lemma LoadNext(names: seq<string>, i: nat, t: nat)
    requires i < |names|
    ensures CopyLoads(names[..i + 1], t) == CopyLoads(names[..i], t) + [LoadName(t + i, names[i])]
  {
    assert names[..i + 1] == names[..i] + [names[i]];
    LoadsConcat(names[..i], [names[i]], t);
    assert [names[i]][1..] == [];
  }

  lemma {:induction false} StoresConcat(a: seq<string>, b: seq<string>, t: nat)
    ensures CopyStores(a + b, t) == CopyStores(a, t) + CopyStores(b, t + |a|)
    decreases a
  {
    if a == [] {
      assert a + b == b;
    } else {
      assert (a + b)[1..] == a[1..] + b;
      StoresConcat(a[1..], b, t + 1);
    }
  }

  lemma StoreNext(names: seq<string>, i: nat, t: nat)
    requires i < |names|
    ensures CopyStores(names[..i + 1], t) == CopyStores(names[..i], t)
            + [DeclareName(LetKind, names[i]), StoreName(names[i], Register(t + i))]
  {
    assert names[..i + 1] == names[..i] + [names[i]];
    StoresConcat(names[..i], [names[i]], t);
    assert [names[i]][1..] == [];
  }

  lemma SixParts(s: seq<Instr>, a: seq<Instr>, b: seq<Instr>, c: seq<Instr>, d: seq<Instr>, e: seq<Instr>,
                 f: seq<Instr>)
    ensures s + a + b + c + d + e + f == s + (a + (b + (c + (d + (e + f)))))
  {
    FourParts(s, a, b, c, d);
    FourParts(s, a, b, c, d + (e + f));
  }

  lemma PendingNext(labels: seq<string>, i: nat, brk: Label, cont: Option<Label>)
    requires i < |labels|
    ensures PendingTargets(labels[..i + 1], brk, cont) == PendingTargets(labels[..i], brk, cont)
            + [ControlTarget(Some(labels[i]), brk, cont)]
  {
    PendingConcat(labels[..i], [labels[i]], brk, cont);
    assert labels[..i + 1] == labels[..i] + [labels[i]];
    assert [labels[i]][1..] == [];
  }

  lemma {:induction false} PendingConcat(a: seq<string>, b: seq<string>, brk: Label, cont: Option<Label>)
    ensures PendingTargets(a + b, brk, cont) == PendingTargets(a, brk, cont) + PendingTargets(b, brk, cont)
  {
    if a == [] {
      assert a + b == b;
    } else {
      assert (a + b)[1..] == a[1..] + b;
      PendingConcat(a[1..], b, brk, cont);
    }
  }
}
