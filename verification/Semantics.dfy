/** Meaning of the JavaScript subset: frames, expressions, and statements with
    ECMA-262 completion records. Statements take fuel, one unit an iteration. */
module Semantics {
  import opened Syntax

  // ---- frames ----------------------------------------------------------------

  /** The innermost frame of `env` that binds `name`. */
  function Resolve(env: seq<nat>, heap: seq<map<string, Value>>, name: string): Option<nat> {
    if env == [] then None
    else
      var f := env[|env| - 1];
      if f < |heap| && name in heap[f] then Some(f) else Resolve(env[..|env| - 1], heap, name)
  }

  function Bind(w: World, frame: nat, name: string, v: Value): World {
    if frame < |w.heap| then w.(heap := w.heap[frame := w.heap[frame][name := v]]) else w
  }

  function Load(h: Host, env: seq<nat>, name: string, w: World): (Result, World) {
    match Resolve(env, w.heap, name)
    case Some(f) => if f < |w.heap| && name in w.heap[f] then (Ok(w.heap[f][name]), w) else (Ok(Undefined), w)
    case None => h.loadGlobal(name, w)
  }

  function Store(h: Host, env: seq<nat>, name: string, v: Value, w: World): (Result, World) {
    match Resolve(env, w.heap, name)
    case Some(f) => (Ok(Undefined), Bind(w, f, name, v))
    case None => h.storeGlobal(name, v, w)
  }

  /** `var` declares in the function's frame, `let` and `const` in the innermost one;
      a binding that is already there keeps its value. */
  function Declare(base: nat, env: seq<nat>, kind: DeclKind, name: string, w: World): World {
    var at := if kind.VarKind? then base else |env|;
    if 0 < at <= |env| && env[at - 1] < |w.heap| && name !in w.heap[env[at - 1]]
    then Bind(w, env[at - 1], name, Undefined)
    else w
  }

  function PushFrame(w: World): World {
    w.(heap := w.heap + [map[]])
  }

  // ---- expressions -----------------------------------------------------------

  function ConstantName(name: string): Option<Value> {
    if name == "undefined" then Some(Undefined)
    else if name == "NaN" then Some(Number(NaN))
    else if name == "Infinity" then Some(Number(Infinity))
    else None
  }

  /** The code takes these names for constants wherever they stand. Section 19.1: they are
      properties of the global object, so a frame that binds the name comes first. */
  function EvalName(h: Host, name: string, env: seq<nat>, w: World): (Result, World) {
    match ConstantName(name)
    case Some(v) => if h.standard && Resolve(env, w.heap, name).Some? then Load(h, env, name, w) else (Ok(v), w)
    case None => Load(h, env, name, w)
  }

  predicate IsNullish(v: Value) { v.Null? || v.Undefined? }

  /** Loose equality with null or undefined, and the logical operators on operands that
      have been evaluated both, are decided by the operands alone. */
  function BinaryOp(h: Host, op: string, a: Value, b: Value, w: World): (Result, World) {
    if op == "==" && IsNullish(b) then (Ok(Bool(IsNullish(a))), w)
    else if IsLogical(op) then (Ok(if Decides(op, a) then a else b), w)
    else h.binary(op, a, b, w)
  }

  /** Is the left operand the value of a logical operator? */
  predicate Decides(op: string, a: Value)
    requires IsLogical(op)
  {
    if op == "&&" then !Truthy(a) else if op == "||" then Truthy(a) else !IsNullish(a)
  }

  function Eval(h: Host, e: Expr, env: seq<nat>, w: World): (Result, World)
    decreases e, 2
  {
    match e
    case Lit(v) => (Ok(v), w)
    case Name(x) => EvalName(h, x, env, w)
    case Bin(_, _, _) => EvalBinary(h, e, env, w)
    case Unary(_, _) => EvalUnary(h, e, env, w)
    case And(_, _) | Or(_, _) | Nullish(_, _) => EvalShortCircuit(h, e, env, w)
    case Cond(_, _, _) => EvalCond(h, e, env, w)
    case Seq(es) => EvalSeq(h, es, Undefined, env, w)
    case Assign(_, _) => EvalAssign(h, e, env, w)
    case AssignOp(_, _, _) => EvalAssignOp(h, e, env, w)
    case Update(op, prefix, x) => EvalIncDec(h, op, prefix, x, env, w)
    case Call(_, _) => EvalCall(h, e, env, w)
    case Fn(fn) => (Ok(Closure(env, fn)), w)
  }

  function EvalBinary(h: Host, e: Expr, env: seq<nat>, w: World): (Result, World)
    requires e.Bin?
    decreases e, 1
  {
    var (a, w1) := Eval(h, e.left, env, w);
    if a.Throws? then (a, w1) else
    var (b, w2) := Eval(h, e.right, env, w1);
    if b.Throws? then (b, w2) else BinaryOp(h, e.infix, a.v, b.v, w2)
  }

  function EvalUnary(h: Host, e: Expr, env: seq<nat>, w: World): (Result, World)
    requires e.Unary?
    decreases e, 1
  {
    var (a, w1) := Eval(h, e.arg, env, w);
    if a.Throws? then (a, w1) else h.unary(e.sign, a.v, w1)
  }

  /** Whether the value of the left operand makes the right one run. */
  predicate GoesRight(e: Expr, v: Value)
    requires e.And? || e.Or? || e.Nullish?
  {
    if e.And? then Truthy(v) else if e.Or? then !Truthy(v) else IsNullish(v)
  }

  function EvalShortCircuit(h: Host, e: Expr, env: seq<nat>, w: World): (Result, World)
    requires e.And? || e.Or? || e.Nullish?
    decreases e, 1
  {
    var (a, w1) := Eval(h, e.left, env, w);
    if a.Throws? || !GoesRight(e, a.v) then (a, w1) else Eval(h, e.right, env, w1)
  }

  function EvalCond(h: Host, e: Expr, env: seq<nat>, w: World): (Result, World)
    requires e.Cond?
    decreases e, 1
  {
    var (b, w1) := Eval(h, e.test, env, w);
    if b.Throws? then (b, w1) else Eval(h, if Truthy(b.v) then e.cons else e.alt, env, w1)
  }

  function EvalAssign(h: Host, e: Expr, env: seq<nat>, w: World): (Result, World)
    requires e.Assign?
    decreases e, 1
  {
    var (a, w1) := Eval(h, e.right, env, w);
    if a.Throws? then (a, w1) else
    var (s, w2) := Store(h, env, e.name, a.v, w1);
    if s.Throws? then (s, w2) else (a, w2)
  }

  function EvalAssignOp(h: Host, e: Expr, env: seq<nat>, w: World): (Result, World)
    requires e.AssignOp?
    decreases e, 1
  {
    var (a, w1) := Load(h, env, e.name, w);
    if a.Throws? || (h.standard && IsLogical(e.op) && Decides(e.op, a.v)) then (a, w1) else
    var (b, w2) := Eval(h, e.right, env, w1);
    if b.Throws? then (b, w2) else
    var (c, w3) := BinaryOp(h, e.op, a.v, b.v, w2);
    if c.Throws? then (c, w3) else
    var (s, w4) := Store(h, env, e.name, c.v, w3);
    if s.Throws? then (s, w4) else (c, w4)
  }

  function EvalIncDec(h: Host, op: string, prefix: bool, x: string, env: seq<nat>, w: World): (Result, World) {
    var (a, w1) := EvalName(h, x, env, w);
    if a.Throws? then (a, w1)
    else if h.standard then StandardIncDec(h, op, prefix, x, a.v, env, w1)
    else
      var (b, w2) := h.unary(op, a.v, w1);
      if b.Throws? then (b, w2) else
      var (s, w3) := Store(h, env, x, b.v, w2);
      if s.Throws? then (s, w3) else (if prefix then b else a, w3)
  }

  /** Sections 13.4.2 to 13.4.5: the value of `x++` is the old value as a numeric one. */
  function StandardIncDec(h: Host, op: string, prefix: bool, x: string, v: Value, env: seq<nat>, w: World): (Result,
                          World) {
    var (n, w1) := h.numeric(v, w);
    if n.Throws? then (n, w1) else
    var b := h.bump(op, n.v);
    var (s, w2) := Store(h, env, x, b, w1);
    if s.Throws? then (s, w2) else (Ok(if prefix then b else n.v), w2)
  }

  function EvalCall(h: Host, e: Expr, env: seq<nat>, w: World): (Result, World)
    requires e.Call?
    decreases e, 1
  {
    var (a, w1) := Eval(h, e.callee, env, w);
    if a.Throws? then (a, w1) else
    var (vs, thrown, w2) := EvalArgs(h, e.args, env, w1);
    if thrown.Some? then (Throws(thrown.value), w2) else h.call(a.v, vs, w2)
  }

  function EvalSeq(h: Host, es: seq<Expr>, last: Value, env: seq<nat>, w: World): (Result, World)
    decreases es, 0
  {
    if es == [] then (Ok(last), w) else
    var (a, w1) := Eval(h, es[0], env, w);
    if a.Throws? then (a, w1) else EvalSeq(h, es[1..], a.v, env, w1)
  }

  /** The argument values, or what one of them threw. */
  function EvalArgs(h: Host, es: seq<Expr>, env: seq<nat>, w: World): (r: (seq<Value>, Option<Value>, World))
    ensures r.1.None? ==> |r.0| == |es|
    decreases es, 0
  {
    if es == [] then ([], None, w) else
    var (a, w1) := Eval(h, es[0], env, w);
    if a.Throws? then ([], Some(a.v), w1) else
    var (vs, t, w2) := EvalArgs(h, es[1..], env, w1);
    ([a.v] + vs, t, w2)
  }

  // ---- statements ------------------------------------------------------------

  datatype Completion =
    | Normal
    | BreakTo(target: Option<string>)
    | ContinueTo(target: Option<string>)
    | ReturnWith(v: Value)
    | ThrowWith(v: Value)
    | OutOfFuel

  /** What every statement is run against: the host, and how many frames of the
      environment belong to the function and its surroundings. */
  datatype Setting = Setting(host: Host, base: nat)

  /** A setting in which programs are read as the compiler does. */
  type CodeSetting = m: Setting | !m.host.standard witness Setting(NO_HOST, 1)

  const NO_HOST := Host(false, (v, w) => (Ok(v), w), (_, v) => v, (_, _, _, w) => (Ok(Undefined), w), (_, v, w) =>
      (Ok(v), w),
                        (_, _, w) => (Ok(Undefined), w), (_, w) => (Ok(Undefined), w), (_, _, w) => (Ok(Undefined), w))

  /** The same setting, with programs read as the standard says. */
  function Standard(m: Setting): Setting { m.(host := m.host.(standard := true)) }

  function ExecDecls(m: Setting, kind: DeclKind, decls: seq<Declarator>, env: seq<nat>, w: World): (Completion, World) {
    if decls == [] then (Normal, w) else
    var (a, w1) :=
      match decls[0].init
      case Some(e) => Eval(m.host, e, env, w)
      case None => (Ok(Undefined), w);
    if a.Throws? then (ThrowWith(a.v), w1) else
    var w2 := Declare(m.base, env, kind, decls[0].name, w1);
    // section 14.3.2.1: beyond the binding made on entry, `var x;` does nothing
    if m.host.standard && kind.VarKind? && decls[0].init.None? then ExecDecls(m, kind, decls[1..], env, w2) else
    var (s, w3) := Store(m.host, env, decls[0].name, a.v, w2);
    if s.Throws? then (ThrowWith(s.v), w3) else ExecDecls(m, kind, decls[1..], env, w3)
  }

  /** Reads the loop bindings that the next iteration's frame starts with. */
  function LoadAll(h: Host, names: seq<string>, env: seq<nat>, w: World): (r: (seq<Value>, Option<Value>, World))
    ensures r.1.None? ==> |r.0| == |names|
  {
    if names == [] then ([], None, w) else
    var (a, w1) := Load(h, env, names[0], w);
    if a.Throws? then ([], Some(a.v), w1) else
    var (vs, t, w2) := LoadAll(h, names[1..], env, w1);
    ([a.v] + vs, t, w2)
  }

  function BindAll(m: map<string, Value>, names: seq<string>, vs: seq<Value>): map<string, Value>
    requires |names| == |vs|
    decreases |names|
  {
    if names == [] then m else BindAll(m[names[0] := vs[0]], names[1..], vs[1..])
  }

  predicate LoopContinues(c: Completion, labels: seq<string>) {
    c.Normal? || (c.ContinueTo? && (c.target.None? || c.target.value in labels))
  }

  function LoopExit(c: Completion): Completion {
    if c == BreakTo(None) then Normal else c
  }

  function Exec(m: Setting, s: Stmt, labels: seq<string>, env: seq<nat>, w: World, fuel: nat): (Completion, World)
    decreases fuel, s, 5
  {
    match s
    case Empty => (Normal, w)
    case ExprStmt(e) => ExecExpr(m, e, env, w)
    case Decl(kind, decls) => ExecDecls(m, kind, decls, env, w)
    case Block(body) => ExecList(m, body, env + [|w.heap|], PushFrame(w), fuel)
    case If(_, _, _) => ExecIf(m, s, env, w, fuel)
    case While(t, body) => ExecWhile(m, t, body, labels, env, w, fuel)
    case DoWhile(body, t) => ExecDoWhile(m, body, t, labels, env, w, fuel)
    case For(init, t, u, body) => ExecForStmt(m, s, labels, env, w, fuel)
    case Switch(_, _) => ExecSwitch(m, s, env, w, fuel)
    case Labeled(_, _) => ExecLabeled(m, s, labels, env, w, fuel)
    case Break(t) => (BreakTo(t), w)
    case Continue(t) => (ContinueTo(t), w)
    case Return(arg) => ExecReturn(m, arg, env, w)
    case Throw(e) => ExecThrow(m, e, env, w)
    case Try(_, _, _) => (Normal, w) // outside the statements given a meaning here
  }

  function ExecExpr(m: Setting, e: Expr, env: seq<nat>, w: World): (Completion, World) {
    var (a, w1) := Eval(m.host, e, env, w);
    if a.Throws? then (ThrowWith(a.v), w1) else (Normal, w1)
  }

  function ExecReturn(m: Setting, arg: Option<Expr>, env: seq<nat>, w: World): (Completion, World) {
    match arg
    case None => (ReturnWith(Undefined), w)
    case Some(e) =>
      var (a, w1) := Eval(m.host, e, env, w);
      if a.Throws? then (ThrowWith(a.v), w1) else (ReturnWith(a.v), w1)
  }

  function ExecThrow(m: Setting, e: Expr, env: seq<nat>, w: World): (Completion, World) {
    var (a, w1) := Eval(m.host, e, env, w);
    (ThrowWith(a.v), w1)
  }

  function ExecIf(m: Setting, s: Stmt, env: seq<nat>, w: World, fuel: nat): (Completion, World)
    requires s.If?
    decreases fuel, s, 4
  {
    var (a, w1) := Eval(m.host, s.test, env, w);
    if a.Throws? then (ThrowWith(a.v), w1)
    else if Truthy(a.v) then Exec(m, s.cons, [], env, w1, fuel)
    else match s.alt case Some(b) => Exec(m, b, [], env, w1, fuel) case None => (Normal, w1)
  }

  function ExecForStmt(m: Setting, s: Stmt, labels: seq<string>, env: seq<nat>, w: World, fuel: nat): (Completion,
                       World)
    requires s.For?
    decreases fuel, s, 4
  {
    if s.init.InitDecl? && !s.init.kind.VarKind? then
      // a frame for the loop bindings, then one for each iteration
      var env1 := env + [|w.heap|];
      var (c, w1) := ExecDecls(m, s.init.kind, s.init.decls, env1, PushFrame(w));
      if !c.Normal? then (c, w1)
      else ExecPerIteration(m, BoundNames(s.init.decls), s.guard, s.update, s.stmt, labels, env1, env1, false, w1, fuel)
    else
      var (c, w1) := ExecInit(m, s.init, env, w);
      if !c.Normal? then (c, w1) else ExecFor(m, s.guard, s.update, s.stmt, labels, env, w1, fuel)
  }

  function ExecSwitch(m: Setting, s: Stmt, env: seq<nat>, w: World, fuel: nat): (Completion, World)
    requires s.Switch?
    decreases fuel, s, 4
  {
    var (a, w1) := Eval(m.host, s.disc, env, w);
    if a.Throws? then (ThrowWith(a.v), w1)
    // section 14.12.4: the case block has an environment of its own; one without bindings cannot be told from none
    else if m.host.standard && Lexical(s.cases) then ExecCaseBlock(m, s, a.v, env + [|w1.heap|], PushFrame(w1), fuel)
    else ExecCaseBlock(m, s, a.v, env, w1, fuel)
  }

  function ExecCaseBlock(m: Setting, s: Stmt, d: Value, env: seq<nat>, w: World, fuel: nat): (Completion, World)
    requires s.Switch?
    decreases fuel, s, 3
  {
    var (sel, w1) := SelectCase(m.host, d, s.cases, env, w);
    match sel
    case Failed(v) => (ThrowWith(v), w1)
    case NoCase => (Normal, w1)
    case Chosen(k) =>
      if k < |s.cases| then
        var (c, w2) := ExecCases(m, s.cases[k..], env, w1, fuel);
        (LoopExit(c), w2)
      else (Normal, w1)
  }

  /** Does a clause declare a `let` or a `const` of its own? */
  predicate Lexical(cases: seq<Case>) {
    exists k, j :: 0 <= k < |cases| && 0 <= j < |cases[k].body| && IsLexicalDecl(cases[k].body[j])
  }

  predicate IsLexicalDecl(s: Stmt) { s.Decl? && !s.kind.VarKind? }

  function ExecLabeled(m: Setting, s: Stmt, labels: seq<string>, env: seq<nat>, w: World, fuel: nat): (Completion,
                       World)
    requires s.Labeled?
    decreases fuel, s, 4
  {
    var (c, w1) := Exec(m, s.stmt, labels + [s.name], env, w, fuel);
    (if c == BreakTo(Some(s.name)) then Normal else c, w1)
  }

  function ExecList(m: Setting, ss: seq<Stmt>, env: seq<nat>, w: World, fuel: nat): (Completion, World)
    decreases fuel, ss, 1
  {
    if ss == [] then (Normal, w) else
    var (c, w1) := Exec(m, ss[0], [], env, w, fuel);
    if !c.Normal? then (c, w1) else ExecList(m, ss[1..], env, w1, fuel)
  }

  function ExecWhile(m: Setting, t: Expr, body: Stmt, labels: seq<string>, env: seq<nat>, w: World,
                     fuel: nat): (Completion, World)
    decreases fuel, body, 3
  {
    if fuel == 0 then (OutOfFuel, w) else
    var (a, w1) := Eval(m.host, t, env, w);
    if a.Throws? then (ThrowWith(a.v), w1)
    else if !Truthy(a.v) then (Normal, w1) else
    var (c, w2) := Exec(m, body, [], env, w1, fuel - 1);
    if LoopContinues(c, labels) then ExecWhile(m, t, body, labels, env, w2, fuel - 1) else (LoopExit(c), w2)
  }

  function ExecDoWhile(m: Setting, body: Stmt, t: Expr, labels: seq<string>, env: seq<nat>, w: World,
                       fuel: nat): (Completion, World)
    decreases fuel, body, 3
  {
    if fuel == 0 then (OutOfFuel, w) else
    var (c, w1) := Exec(m, body, [], env, w, fuel - 1);
    if !LoopContinues(c, labels) then (LoopExit(c), w1) else
    var (a, w2) := Eval(m.host, t, env, w1);
    if a.Throws? then (ThrowWith(a.v), w2)
    else if !Truthy(a.v) then (Normal, w2)
    else ExecDoWhile(m, body, t, labels, env, w2, fuel - 1)
  }

  function ExecInit(m: Setting, init: ForInit, env: seq<nat>, w: World): (Completion, World) {
    match init
    case NoInit => (Normal, w)
    case InitExpr(e) =>
      var (a, w1) := Eval(m.host, e, env, w);
      if a.Throws? then (ThrowWith(a.v), w1) else (Normal, w1)
    case InitDecl(kind, decls) => ExecDecls(m, kind, decls, env, w)
  }

  /** A missing test counts as true, a missing update does nothing. */
  function EvalOpt(h: Host, e: Option<Expr>, env: seq<nat>, w: World): (Result, World) {
    match e
    case None => (Ok(Bool(true)), w)
    case Some(e) => Eval(h, e, env, w)
  }

  function ExecFor(m: Setting, t: Option<Expr>, u: Option<Expr>, body: Stmt, labels: seq<string>, env: seq<nat>,
                   w: World, fuel: nat): (Completion, World)
    decreases fuel, body, 3
  {
    if fuel == 0 then (OutOfFuel, w) else
    var (a, w1) := EvalOpt(m.host, t, env, w);
    if a.Throws? then (ThrowWith(a.v), w1)
    else if !Truthy(a.v) then (Normal, w1) else
    var (c, w2) := Exec(m, body, [], env, w1, fuel - 1);
    if !LoopContinues(c, labels) then (LoopExit(c), w2) else
    var (b, w3) := EvalOpt(m.host, u, env, w2);
    if b.Throws? then (ThrowWith(b.v), w3) else ExecFor(m, t, u, body, labels, env, w3, fuel - 1)
  }

  /** One iteration of `for (let ...)`: a fresh frame on top of the loop's own frame,
      holding copies of the bindings read through `from`, then the update (after the
      first iteration), the test and the body, all in that frame. */
  function ExecPerIteration(m: Setting, names: seq<string>, t: Option<Expr>, u: Option<Expr>, body: Stmt,
                            labels: seq<string>,
                            loopEnv: seq<nat>, from: seq<nat>, update: bool, w: World, fuel: nat): (Completion, World)
    decreases fuel, body, 3
  {
    if fuel == 0 then (OutOfFuel, w) else
    var (vs, thrown, w1) := LoadAll(m.host, names, from, w);
    if thrown.Some? then (ThrowWith(thrown.value), w1) else
    var env := loopEnv + [|w1.heap|];
    var w2 := w1.(heap := w1.heap + [BindAll(map[], names, vs)]);
    var (b, w3) := if update then EvalOpt(m.host, u, env, w2) else (Ok(Undefined), w2);
    if b.Throws? then (ThrowWith(b.v), w3)
    else ExecRound(m, names, t, u, body, labels, loopEnv, env, w3, fuel)
  }

  /** The test and the body of an iteration whose frame is in place, and the iterations
      after it. */
  function ExecRound(m: Setting, names: seq<string>, t: Option<Expr>, u: Option<Expr>, body: Stmt, labels: seq<string>,
                     loopEnv: seq<nat>, env: seq<nat>, w: World, fuel: nat): (Completion, World)
    requires fuel > 0
    decreases fuel, body, 2
  {
    var (a, w1) := EvalOpt(m.host, t, env, w);
    if a.Throws? then (ThrowWith(a.v), w1)
    else if !Truthy(a.v) then (Normal, w1) else
    var (c, w2) := Exec(m, body, [], env, w1, fuel - 1);
    if !LoopContinues(c, labels) then (LoopExit(c), w2)
    else ExecPerIteration(m, names, t, u, body, labels, loopEnv, env, true, w2, fuel - 1)
  }

  datatype Selected = Chosen(k: nat) | NoCase | Failed(v: Value)

  function DefaultIndex(cases: seq<Case>, from: nat): Selected
    decreases |cases| - from
  {
    if from >= |cases| then NoCase
    else if cases[from].test.None? then Chosen(from)
    else DefaultIndex(cases, from + 1)
  }

  /** The first clause, in source order, whose test is strictly equal. */
  function MatchCase(h: Host, d: Value, cases: seq<Case>, from: nat, env: seq<nat>, w: World): (Selected, World)
    decreases |cases| - from
  {
    if from >= |cases| then (NoCase, w)
    else
      match cases[from].test
      case None => MatchCase(h, d, cases, from + 1, env, w)
      case Some(e) =>
        var (a, w1) := Eval(h, e, env, w);
        if a.Throws? then (Failed(a.v), w1) else
        var (b, w2) := BinaryOp(h, "===", d, a.v, w1);
        if b.Throws? then (Failed(b.v), w2)
        else if Truthy(b.v) then (Chosen(from), w2)
        else MatchCase(h, d, cases, from + 1, env, w2)
  }

  /** The default clause is taken, wherever it stands, only when no test matches. */
  function SelectCase(h: Host, d: Value, cases: seq<Case>, env: seq<nat>, w: World): (Selected, World) {
    var (sel, w1) := MatchCase(h, d, cases, 0, env, w);
    (if sel.NoCase? then DefaultIndex(cases, 0) else sel, w1)
  }

  /** Runs the clauses in turn, falling through. */
  function ExecCases(m: Setting, cases: seq<Case>, env: seq<nat>, w: World, fuel: nat): (Completion, World)
    decreases fuel, cases, 1
  {
    if cases == [] then (Normal, w) else
    var (c, w1) := ExecList(m, cases[0].body, env, w, fuel);
    if !c.Normal? then (c, w1) else ExecCases(m, cases[1..], env, w1, fuel)
  }

  // ---- function bodies -------------------------------------------------------------------

  /** The names that a statement declares with `var`, in nested statements too. */
  function VarsIn(s: Stmt): set<string>
    decreases s, 1
  {
    match s
    case Decl(kind, decls) => if kind.VarKind? then set x | x in BoundNames(decls) else {}
    case Block(body) => VarsOf(body)
    case If(_, c, alt) => VarsIn(c) + (if alt.Some? then VarsIn(alt.value) else {})
    case While(_, body) => VarsIn(body)
    case DoWhile(body, _) => VarsIn(body)
    case For(init, _, _, body) =>
      (if init.InitDecl? && init.kind.VarKind? then set x | x in BoundNames(init.decls) else {}) + VarsIn(body)
    case Switch(_, cases) => VarsOfCases(cases)
    case Labeled(_, body) => VarsIn(body)
    case Try(block, handler, finalizer) =>
      VarsOf(block) + (if handler.Some? then VarsOf(handler.value.body) else {})
      + (if finalizer.Finally? then VarsOf(finalizer.body) else {})
    case _ => {}
  }

  function VarsOf(ss: seq<Stmt>): set<string>
    decreases ss, 0
  {
    if ss == [] then {} else VarsIn(ss[0]) + VarsOf(ss[1..])
  }

  function VarsOfCases(cases: seq<Case>): set<string>
    decreases cases, 0
  {
    if cases == [] then {} else VarsOf(cases[0].body) + VarsOfCases(cases[1..])
  }

  /** Section 10.2.11: the names of a body's `var`s are bound in the function's frame before
      the body runs. The code binds each when its declaration runs. */
  function Entered(m: Setting, body: seq<Stmt>, env: seq<nat>, w: World): World {
    if m.host.standard && 0 < m.base <= |env| && env[m.base - 1] < |w.heap|
    then w.(heap := w.heap[env[m.base - 1] := WithUnset(VarsOf(body), w.heap[env[m.base - 1]])])
    else w
  }

  /** What is bound already, a parameter say, keeps its value. */
  function WithUnset(names: set<string>, frame: map<string, Value>): map<string, Value> {
    (map x | x in names :: Undefined) + frame
  }

  function ExecBody(m: Setting, body: seq<Stmt>, env: seq<nat>, w: World, fuel: nat): (Completion, World) {
    ExecList(m, body, env, Entered(m, body, env, w), fuel)
  }
}
