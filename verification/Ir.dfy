/** The two instruction sets the lowering goes through: the transitional tree-shaped
    one, and the linear one of the structured IR and of the bytecode. */
module Ir {
  import opened Syntax

  /** `stem` is the purpose a label was made for, `suffix` what was appended to a
      label afterwards; `BlockLabel` names a basic block of a function. */
  datatype Label =
    | CodeLabel(prefix: seq<nat>, stem: string, id: nat)
    | BlockLabel(block: nat)

  datatype Operand = Register(r: nat) | Const(v: Value)

  datatype Instr =
    | Marker(text: string)
    | LabelAt(l: Label)
    | DeclareName(kind: DeclKind, name: string)
    | LoadConst(dst: nat, v: Value)
    | LoadName(dst: nat, name: string)
    | StoreName(name: string, src: Operand)
    | Move(dst: nat, src: Operand)
    | BinaryInstr(dst: nat, op: string, left: Operand, right: Operand)
    | UnaryInstr(dst: nat, op: string, arg: Operand)
    | CallInstr(dst: nat, callee: Operand, args: seq<Operand>)
    | FunctionExpr(dst: nat, fn: nat)
    | ThrowInstr(value: Operand)
    | TryInstr(body: seq<Instr>, param: Option<string>, catchBody: seq<Instr>, finallyBody: seq<Instr>)
    | EnterScope
    | LeaveScope
    | Scope(body: seq<Instr>)
    | ReturnInstr(result: Option<Operand>)
    | Pop(value: Operand)
    | Jump(l: Label)
    | JumpIfFalse(test: Operand, l: Label)

  datatype Op =
    | OpDebug
    | OpLabel(l: Label)
    | OpDeclare(kind: DeclKind, name: string)
    | OpMove(dst: nat, src: Operand)
    | OpLoad(dst: nat, name: string)
    | OpStore(name: string, src: Operand)
    | OpBinary(dst: nat, op: string, left: Operand, right: Operand)
    | OpUnary(dst: nat, op: string, arg: Operand)
    | OpCall(dst: nat, callee: Operand, args: seq<Operand>)
    | OpFunction(dst: nat, fn: nat)
    | OpEnterScope
    | OpLeaveScope
    | OpEnterTry
    | OpEnterCatch(param: Option<string>)
    | OpEnterFinally
    | OpLeaveTry
    | OpThrow(value: Operand)
    | OpReturn(result: Option<Operand>)
    | OpJump(l: Label)
    | OpJumpIfFalse(test: Operand, l: Label)

  /** The linear form of one instruction nested in a scope or a try. */
  function LinearOne(i: Instr): (ops: seq<Op>)
    decreases i, 1
  {
    match i
    case Marker(_) => [OpDebug]
    case LabelAt(l) => [OpLabel(l)]
    case DeclareName(kind, name) => [OpDeclare(kind, name)]
    case LoadConst(dst, value) => [OpMove(dst, Const(value))]
    case LoadName(dst, name) => [OpLoad(dst, name)]
    case StoreName(name, src) => [OpStore(name, src)]
    case Move(dst, src) => [OpMove(dst, src)]
    case BinaryInstr(dst, op, left, right) => [OpBinary(dst, op, left, right)]
    case UnaryInstr(dst, op, arg) => [OpUnary(dst, op, arg)]
    case CallInstr(dst, callee, args) => [OpCall(dst, callee, args)]
    case FunctionExpr(dst, fn) => [OpFunction(dst, fn)]
    case ThrowInstr(value) => [OpThrow(value)]
    case TryInstr(body, param, catchBody, finallyBody) =>
      [OpEnterTry] + Linear(body)
      + (if catchBody == [] then [] else [OpEnterCatch(param)] + Linear(catchBody))
      + (if finallyBody == [] then [] else [OpEnterFinally] + Linear(finallyBody))
      + [OpLeaveTry]
    case EnterScope => [OpEnterScope]
    case LeaveScope => [OpLeaveScope]
    case Scope(body) => [OpEnterScope] + Linear(body) + [OpLeaveScope]
    case ReturnInstr(arg) => [OpReturn(arg)]
    case Pop(_) => [OpDebug]
    case Jump(l) => [OpJump(l)]
    case JumpIfFalse(test, l) => [OpJumpIfFalse(test, l)]
  }

  function Linear(code: seq<Instr>): (ops: seq<Op>)
    decreases code, 0
  {
    if code == [] then [] else LinearOne(code[0]) + Linear(code[1..])
  }

  lemma {:induction false} LinearConcat(a: seq<Instr>, b: seq<Instr>)
    ensures Linear(a + b) == Linear(a) + Linear(b)
  {
    if a == [] {
      assert a + b == b;
    } else {
      assert (a + b)[1..] == a[1..] + b;
      LinearConcat(a[1..], b);
    }
  }
}
