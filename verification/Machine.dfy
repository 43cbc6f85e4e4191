/** The linear machine: one flat list of operations, a program counter, registers,
    the environment as a stack of frame identities. Jumps cut the environment to the
    scope depth counted up to their target. */
module Machine {
  import opened Syntax
  import opened Semantics
  import opened Ir

  datatype Outcome = Completed | Returned(v: Value) | Thrown(v: Value) | Stuck

  datatype Config =
    | Run(pc: nat, regs: map<nat, Value>, env: seq<nat>, w: World)
    | Done(out: Outcome, w: World)

  datatype Program = Program(ops: seq<Op>, m: CodeSetting)

  function Read(o: Operand, regs: map<nat, Value>): Value {
    match o
    case Const(v) => v
    case Register(r) => if r in regs then regs[r] else Undefined
  }

  function ReadAll(os: seq<Operand>, regs: map<nat, Value>): (vs: seq<Value>)
    ensures |vs| == |os|
  {
    seq(|os|, i requires 0 <= i < |os| => Read(os[i], regs))
  }

  function DepthStep(op: Op, d: nat): nat {
    match op
    case OpEnterScope => d + 1
    case OpLeaveScope => if d == 0 then 0 else d - 1
    case _ => d
  }

  /** Scope depth before operation `i`, counted over the list as it is written. */
  function Depth(ops: seq<Op>, i: nat): nat
    requires i <= |ops|
  {
    if i == 0 then 0 else DepthStep(ops[i - 1], Depth(ops, i - 1))
  }

  /** The first operation that carries the label. */
  function Find(ops: seq<Op>, l: Label, from: nat): Option<nat>
    requires from <= |ops|
    ensures Find(ops, l, from).Some? ==> from <= Find(ops, l, from).value < |ops|
                                         && ops[Find(ops, l, from).value] == OpLabel(l)
    decreases |ops| - from
  {
    if from == |ops| then None
    else if ops[from] == OpLabel(l) then Some(from)
    else Find(ops, l, from + 1)
  }

  /** Leaves the environment alone unless the target is less deep; frame 0 stays. */
  function JumpEnv(env: seq<nat>, cur: nat, target: nat): seq<nat> {
    if target < cur then
      var outer := if |env| < cur then 0 else |env| - cur;
      var keep := if outer + target < 1 then 1 else outer + target;
      if keep < |env| then env[..keep] else env
    else env
  }

  function JumpTo(ops: seq<Op>, pc: nat, l: Label, regs: map<nat, Value>, env: seq<nat>, w: World): Config
    requires pc < |ops|
  {
    match Find(ops, l, 0)
    case None => Done(Stuck, w)
    case Some(t) => Run(t, regs, JumpEnv(env, Depth(ops, pc), Depth(ops, t)), w)
  }

  /** Writes a result to its register, or ends the run with what was thrown. */
  function Finish(dst: nat, r: (Result, World), pc: nat, regs: map<nat, Value>, env: seq<nat>): Config {
    match r.0
    case Ok(v) => Run(pc + 1, regs[dst := v], env, r.1)
    case Throws(v) => Done(Thrown(v), r.1)
  }

  function StepOp(p: Program, op: Op, pc: nat, regs: map<nat, Value>, env: seq<nat>, w: World): Config
    requires pc < |p.ops|
  {
    match op
    case OpDebug => Run(pc + 1, regs, env, w)
    case OpLabel(_) => Run(pc + 1, regs, env, w)
    case OpDeclare(kind, name) => Run(pc + 1, regs, env, Declare(p.m.base, env, kind, name, w))
    case OpMove(dst, src) => Run(pc + 1, regs[dst := Read(src, regs)], env, w)
    case OpLoad(dst, name) => Finish(dst, Load(p.m.host, env, name, w), pc, regs, env)
    case OpStore(name, src) =>
      var r := Store(p.m.host, env, name, Read(src, regs), w);
      (match r.0
       case Ok(_) => Run(pc + 1, regs, env, r.1)
       case Throws(v) => Done(Thrown(v), r.1))
    case OpBinary(dst, o, l, r) => Finish(dst, BinaryOp(p.m.host, o, Read(l, regs), Read(r, regs), w), pc, regs, env)
    case OpUnary(dst, o, a) => Finish(dst, p.m.host.unary(o, Read(a, regs), w), pc, regs, env)
    case OpCall(dst, f, args) => Finish(dst, p.m.host.call(Read(f, regs), ReadAll(args, regs), w), pc, regs, env)
    case OpFunction(dst, fn) => Run(pc + 1, regs[dst := Closure(env, fn)], env, w)
    case OpEnterScope => Run(pc + 1, regs, env + [|w.heap|], PushFrame(w))
    case OpLeaveScope => Run(pc + 1, regs, if |env| > 1 then env[..|env| - 1] else env, w)
    case OpThrow(v) => Done(Thrown(Read(v, regs)), w)
    case OpReturn(v) => Done(Returned(if v.Some? then Read(v.value, regs) else Undefined), w)
    case OpJump(l) => JumpTo(p.ops, pc, l, regs, env, w)
    case OpJumpIfFalse(t, l) =>
      if Truthy(Read(t, regs)) then Run(pc + 1, regs, env, w) else JumpTo(p.ops, pc, l, regs, env, w)
    case OpEnterTry | OpEnterCatch(_) | OpEnterFinally | OpLeaveTry => Done(Stuck, w)
  }

  function Step(p: Program, c: Config): Config {
    match c
    case Done(_, _) => c
    case Run(pc, regs, env, w) =>
      if pc < |p.ops| then StepOp(p, p.ops[pc], pc, regs, env, w) else Done(Completed, w)
  }

  function RunN(p: Program, c: Config, n: nat): Config
    decreases n
  {
    if n == 0 then c else RunN(p, Step(p, c), n - 1)
  }

  ghost predicate Reaches(p: Program, c: Config, c': Config) {
    exists n: nat :: RunN(p, c, n) == c'
  }

  /** Still running after `k` steps. */
  predicate Lasts(p: Program, c: Config, k: nat) {
    RunN(p, c, k).Run?
  }

  ghost predicate Halts(p: Program, c: Config, out: Outcome, w: World) {
    Reaches(p, c, Done(out, w))
  }

  // ---- runs --------------------------------------------------------------------

  lemma {:induction false} RunAdd(p: Program, c: Config, n: nat, k: nat)
    ensures RunN(p, c, n + k) == RunN(p, RunN(p, c, n), k)
    decreases n
  {
    if n > 0 { RunAdd(p, Step(p, c), n - 1, k); }
  }

  lemma {:induction false} DoneStays(p: Program, c: Config, n: nat)
    requires c.Done?
    ensures RunN(p, c, n) == c
  {
    if n > 0 { DoneStays(p, c, n - 1); }
  }

  lemma Refl(p: Program, c: Config)
    ensures Reaches(p, c, c)
  {
    assert RunN(p, c, 0) == c;
  }

  lemma Trans(p: Program, a: Config, b: Config, c: Config)
    requires Reaches(p, a, b) && Reaches(p, b, c)
    ensures Reaches(p, a, c)
  {
    var n: nat :| RunN(p, a, n) == b;
    var k: nat :| RunN(p, b, k) == c;
    RunAdd(p, a, n, k);
  }

  lemma One(p: Program, a: Config, b: Config)
    requires Step(p, a) == b
    ensures Reaches(p, a, b)
  {
    assert RunN(p, a, 1) == RunN(p, b, 0) == b;
  }

  lemma StepThen(p: Program, a: Config, b: Config, c: Config)
    requires Step(p, a) == b && Reaches(p, b, c)
    ensures Reaches(p, a, c)
  {
    One(p, a, b);
    Trans(p, a, b, c);
  }

  lemma LastsAfter(p: Program, a: Config, b: Config, k: nat)
    requires Reaches(p, a, b) && Lasts(p, b, k)
    ensures Lasts(p, a, k)
  {
    var n: nat :| RunN(p, a, n) == b;
    RunAdd(p, a, n, k);
    RunAdd(p, a, k, n);
    if RunN(p, a, k).Done? { DoneStays(p, RunN(p, a, k), n); }
  }

  lemma LastsOneMore(p: Program, a: Config, b: Config, k: nat)
    requires Step(p, a) == b && Lasts(p, b, k)
    ensures Lasts(p, a, k + 1)
  {
  }

  /** A run has one end at most. */
  lemma HaltsOnce(p: Program, c: Config, out: Outcome, w: World, out': Outcome, w': World)
    requires Halts(p, c, out, w) && Halts(p, c, out', w')
    ensures out == out' && w == w'
  {
    var n: nat :| RunN(p, c, n) == Done(out, w);
    var k: nat :| RunN(p, c, k) == Done(out', w');
    if n <= k {
      RunAdd(p, c, n, k - n);
      DoneStays(p, Done(out, w), k - n);
    } else {
      RunAdd(p, c, k, n - k);
      DoneStays(p, Done(out', w'), n - k);
    }
  }

  lemma HaltsEndsLasting(p: Program, c: Config, out: Outcome, w: World, n: nat, k: nat)
    requires RunN(p, c, n) == Done(out, w) && n <= k
    ensures !Lasts(p, c, k)
  {
    RunAdd(p, c, n, k - n);
    DoneStays(p, Done(out, w), k - n);
  }

  // ---- code in place -----------------------------------------------------------

  predicate UniqueLabels(ops: seq<Op>) {
    forall i, j :: 0 <= i < j < |ops| && ops[i].OpLabel? && ops[j].OpLabel? ==> ops[i] != ops[j]
  }

  lemma {:induction false} FindAt(ops: seq<Op>, l: Label, from: nat, at: nat)
    requires from <= at < |ops| && ops[at] == OpLabel(l) && UniqueLabels(ops)
    ensures Find(ops, l, from) == Some(at)
    decreases at - from
  {
    if from < at { FindAt(ops, l, from + 1, at); }
  }

  predicate OpsAt(ops: seq<Op>, pc: nat, f: seq<Op>) {
    pc + |f| <= |ops| && forall i :: 0 <= i < |f| ==> ops[pc + i] == f[i]
  }

  function DepthFrom(d: nat, f: seq<Op>): nat {
    if f == [] then d else DepthStep(f[|f| - 1], DepthFrom(d, f[..|f| - 1]))
  }

  lemma {:induction false} DepthFromConcat(d: nat, a: seq<Op>, b: seq<Op>)
    ensures DepthFrom(d, a + b) == DepthFrom(DepthFrom(d, a), b)
  {
    if b == [] {
      assert a + b == a;
    } else {
      assert (a + b)[..|a + b| - 1] == a + b[..|b| - 1];
      DepthFromConcat(d, a, b[..|b| - 1]);
    }
  }

  lemma {:induction false} DepthAfter(ops: seq<Op>, pc: nat, f: seq<Op>)
    requires OpsAt(ops, pc, f)
    ensures Depth(ops, pc + |f|) == DepthFrom(Depth(ops, pc), f)
  {
    if f != [] {
      var g := f[..|f| - 1];
      DepthAfter(ops, pc, g);
      assert ops[pc + |g|] == f[|g|];
    }
  }

  /** `code` stands in linear form at `pc`, where the scope depth is `d`. */
  predicate At(p: Program, pc: nat, d: nat, code: seq<Instr>) {
    OpsAt(p.ops, pc, Linear(code)) && Depth(p.ops, pc) == d
  }

  function Size(code: seq<Instr>): nat { |Linear(code)| }

  ghost predicate Keeps(code: seq<Instr>) {
    forall d: nat :: DepthFrom(d, Linear(code)) == d
  }

  lemma PartAt(ops: seq<Op>, i: nat, a: seq<Op>, b: seq<Op>)
    requires OpsAt(ops, i, a + b)
    ensures OpsAt(ops, i, a) && OpsAt(ops, i + |a|, b)
  {
    forall k | 0 <= k < |a| ensures ops[i + k] == a[k] { assert (a + b)[k] == a[k]; }
    forall k | 0 <= k < |b| ensures ops[i + |a| + k] == b[k] { assert (a + b)[|a| + k] == b[k]; }
  }

  lemma HeadAt(ops: seq<Op>, i: nat, op: Op, rest: seq<Op>)
    requires OpsAt(ops, i, [op] + rest)
    ensures i < |ops| && ops[i] == op && OpsAt(ops, i + 1, rest)
  {
    PartAt(ops, i, [op], rest);
    assert ops[i + 0] == [op][0];
  }

  lemma AtSplit(p: Program, pc: nat, d: nat, a: seq<Instr>, b: seq<Instr>)
    requires At(p, pc, d, a + b)
    ensures At(p, pc, d, a) && At(p, pc + Size(a), DepthFrom(d, Linear(a)), b)
    ensures Size(a + b) == Size(a) + Size(b)
  {
    hide Linear, OpsAt, Depth, DepthFrom;
    LinearConcat(a, b);
    PartAt(p.ops, pc, Linear(a), Linear(b));
    DepthAfter(p.ops, pc, Linear(a));
  }

  /** One operation each, and none that opens or closes a scope. */
  predicate Plain(code: seq<Instr>) {
    forall i :: 0 <= i < |code| ==>
      !code[i].Scope? && !code[i].EnterScope? && !code[i].LeaveScope? && !code[i].TryInstr?
  }

  lemma {:induction false} PlainLinear(code: seq<Instr>)
    requires Plain(code)
    ensures |Linear(code)| == |code|
    ensures forall i :: 0 <= i < |code| ==> LinearOne(code[i]) == [Linear(code)[i]]
    ensures forall i :: 0 <= i < |code| ==> !Linear(code)[i].OpEnterScope? && !Linear(code)[i].OpLeaveScope?
  {
    if code != [] { PlainLinear(code[1..]); }
  }

  lemma {:induction false} FlatDepth(d: nat, ops: seq<Op>)
    requires forall i :: 0 <= i < |ops| ==> !ops[i].OpEnterScope? && !ops[i].OpLeaveScope?
    ensures DepthFrom(d, ops) == d
  {
    if ops != [] { FlatDepth(d, ops[..|ops| - 1]); }
  }

  lemma AtPlain(p: Program, pc: nat, d: nat, code: seq<Instr>)
    requires At(p, pc, d, code) && Plain(code)
    ensures Size(code) == |code| && pc + |code| <= |p.ops|
    ensures forall q :: pc <= q < pc + |code| ==> LinearOne(code[q - pc]) == [p.ops[q]]
    ensures forall q :: pc <= q <= pc + |code| ==> Depth(p.ops, q) == d
  {
    PlainLinear(code);
    var f := Linear(code);
    forall q | pc <= q <= pc + |code| ensures Depth(p.ops, q) == d {
      var i := q - pc;
      assert OpsAt(p.ops, pc, f[..i]);
      DepthAfter(p.ops, pc, f[..i]);
      FlatDepth(d, f[..i]);
    }
  }

  lemma PlainKeeps(code: seq<Instr>)
    requires Plain(code)
    ensures Keeps(code)
  {
    PlainLinear(code);
    forall d: nat ensures DepthFrom(d, Linear(code)) == d { FlatDepth(d, Linear(code)); }
  }

  /** A jump within one scope depth moves the program counter and nothing else. */
  lemma LocalJump(p: Program, pc: nat, l: Label, at: nat, regs: map<nat, Value>, env: seq<nat>, w: World)
    requires pc < |p.ops| && at < |p.ops| && UniqueLabels(p.ops)
    requires p.ops[at] == OpLabel(l) && Depth(p.ops, at) == Depth(p.ops, pc)
    ensures JumpTo(p.ops, pc, l, regs, env, w) == Run(at, regs, env, w)
  {
    FindAt(p.ops, l, 0, at);
  }
}
