/** Values, host behaviour and the JavaScript subset that is lowered. */
module Syntax {

  datatype Option<+T> = None | Some(value: T)

  datatype Num = Finite(r: real) | NaN | Infinity | NegInfinity

  /** A closure keeps the identities of the frames it was created under, as the
      runtime's clone of the lexical environment shares the frame records. */
  datatype Value =
    | Undefined
    | Null
    | Bool(b: bool)
    | Number(n: Num)
    | Str(s: string)
    | Object(id: nat)
    | Closure(env: seq<nat>, fn: nat)

  predicate Truthy(v: Value) {
    match v
    case Undefined => false
    case Null => false
    case Bool(b) => b
    case Number(n) => n != NaN && n != Finite(0.0)
    case Str(s) => s != ""
    case Object(_) => true
    case Closure(_, _) => true
  }

  /** The frames of every scope ever entered, by identity, and the log of what the
      host has done. */
  datatype World = World(heap: seq<map<string, Value>>, log: seq<string>)

  datatype Result = Ok(v: Value) | Throws(v: Value)

  /** Operators, calls and names outside the program: arbitrary total behaviour that
      may write frames, append to the log, and throw. `numeric` and `bump` are the two
      parts of `++` and `--`: conversion to a numeric value, and the change of it. With
      `standard` a program is read as ECMA-262 says, without it as the compiler does; the
      two readings differ in the six places that Departures.dfy lists. Neither knows the
      dead zone before a declaration, or that a `const` is not written. */
  datatype Host = Host(
    standard: bool,
    numeric: (Value, World) -> (Result, World),
    bump: (string, Value) -> Value,
    binary: (string, Value, Value, World) -> (Result, World),
    unary: (string, Value, World) -> (Result, World),
    call: (Value, seq<Value>, World) -> (Result, World),
    loadGlobal: (string, World) -> (Result, World),
    storeGlobal: (string, Value, World) -> (Result, World)
  )

  predicate IsLogical(op: string) { op == "&&" || op == "||" || op == "??" }

  /** The operators that evaluate both operands. */
  type InfixOp = op: string | !IsLogical(op) witness "+"

  /** The operators that become one instruction; `delete` does not, and `typeof` of a name
      goes with the load before it. */
  type UnaryOp = op: string | op != "delete" && op != "typeof" witness "!"

  type StepSign = op: string | op == "++" || op == "--" witness "++"

  datatype Expr =
    | Lit(value: Value)
    | Name(name: string)
    | Bin(infix: InfixOp, left: Expr, right: Expr)
    | Unary(sign: UnaryOp, arg: Expr)
    | And(left: Expr, right: Expr)
    | Or(left: Expr, right: Expr)
    | Nullish(left: Expr, right: Expr)
    | Cond(test: Expr, cons: Expr, alt: Expr)
    | Seq(exprs: seq<Expr>)
    | Assign(name: string, right: Expr)
    | AssignOp(op: string, name: string, right: Expr)
    | Update(step: StepSign, prefix: bool, name: string)
    | Call(callee: Expr, args: seq<Expr>)
    | Fn(fn: nat)

  datatype DeclKind = VarKind | LetKind | ConstKind

  datatype Declarator = Declarator(name: string, init: Option<Expr>)

  datatype ForInit =
    | NoInit
    | InitExpr(expr: Expr)
    | InitDecl(kind: DeclKind, decls: seq<Declarator>)

  datatype Case = Case(test: Option<Expr>, body: seq<Stmt>)

  datatype Handler = Handler(param: Option<string>, body: seq<Stmt>)

  datatype Finally = NoFinally | Finally(body: seq<Stmt>)

  datatype Stmt =
    | Empty
    | ExprStmt(expr: Expr)
    | Decl(kind: DeclKind, decls: seq<Declarator>)
    | Block(body: seq<Stmt>)
    | If(test: Expr, cons: Stmt, alt: Option<Stmt>)
    | While(test: Expr, stmt: Stmt)
    | DoWhile(stmt: Stmt, test: Expr)
    | For(init: ForInit, guard: Option<Expr>, update: Option<Expr>, stmt: Stmt)
    | Switch(disc: Expr, cases: seq<Case>)
    | Labeled(name: string, stmt: Stmt)
    | Break(target: Option<string>)
    | Continue(target: Option<string>)
    | Return(arg: Option<Expr>)
    | Throw(expr: Expr)
    | Try(block: seq<Stmt>, handler: Option<Handler>, finalizer: Finally)

  /** The statements whose labels wait for the control targets they push. */
  predicate IsControlTarget(s: Stmt) {
    match s
    case While(_, _) => true
    case DoWhile(_, _) => true
    case For(_, _, _, _) => true
    case Switch(_, _) => true
    case Labeled(_, body) => IsControlTarget(body)
    case _ => false
  }

  function BoundNames(decls: seq<Declarator>): (names: seq<string>)
    ensures |names| == |decls|
    ensures forall i :: 0 <= i < |decls| ==> names[i] == decls[i].name
  {
    if decls == [] then [] else [decls[0].name] + BoundNames(decls[1..])
  }
}
