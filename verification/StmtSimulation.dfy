/** Lowered statements behave as the source statements do: same effects, same way of
    ending, and running on for as long as the source is out of fuel. */
module StmtSimulation {
  import opened Syntax
  import opened Semantics
  import opened Ir
  import opened Lower
  import opened Machine
  import opened ExprSimulation
  import opened StmtShape

  // ---- early errors ---------------------------------------------------------------

  /** The targets a statement may break to or continue at; `None` is the unnamed one. */
  datatype Jumps = Jumps(breaks: set<Option<string>>, continues: set<Option<string>>)

  function Named(labels: seq<string>): (s: set<Option<string>>) {
    set i | 0 <= i < |labels| :: Some(labels[i])
  }

  function InLoop(j: Jumps, labels: seq<string>): Jumps {
    Jumps(j.breaks + {None} + Named(labels), j.continues + {None} + Named(labels))
  }

  function InSwitch(j: Jumps, labels: seq<string>): Jumps {
    Jumps(j.breaks + {None} + Named(labels), j.continues)
  }

  /** Every `break` and `continue` has a target, a `switch` has one default at most, and
      there is no `try`. */
  predicate WellFormed(s: Stmt, labels: seq<string>, j: Jumps)
    decreases s, 1
  {
    match s
    case Block(body) => ListWellFormed(body, j)
    case If(_, c, alt) => WellFormed(c, [], j) && (alt.Some? ==> WellFormed(alt.value, [], j))
    case While(_, body) => WellFormed(body, [], InLoop(j, labels))
    case DoWhile(body, _) => WellFormed(body, [], InLoop(j, labels))
    case For(_, _, _, body) => WellFormed(body, [], InLoop(j, labels))
    case Switch(_, cases) =>
      && (forall a, b :: 0 <= a < b < |cases| && cases[a].test.None? ==> cases[b].test.Some?)
      && CasesWellFormed(cases, InSwitch(j, labels))
    case Labeled(l, body) =>
      if IsControlTarget(body) then WellFormed(body, labels + [l], j)
      else WellFormed(body, [], j.(breaks := j.breaks + {Some(l)}))
    case Break(t) => t in j.breaks
    case Continue(t) => t in j.continues
    case Try(_, _, _) => false
    case _ => true
  }

  predicate ListWellFormed(ss: seq<Stmt>, j: Jumps)
    decreases ss, 0
  {
    ss == [] || (WellFormed(ss[0], [], j) && ListWellFormed(ss[1..], j))
  }

  predicate CasesWellFormed(cases: seq<Case>, j: Jumps)
    decreases cases, 0
  {
    cases == [] || (ListWellFormed(cases[0].body, j) && CasesWellFormed(cases[1..], j))
  }

  // ---- control targets ------------------------------------------------------------

  predicate Covers(ctrl: seq<ControlTarget>, j: Jumps) {
    && (forall t :: t in j.breaks ==> ResolveBreak(ctrl, t).Some?)
    && (forall t :: t in j.continues ==> ResolveContinue(ctrl, t).Some?)
  }

  /** The label stands in the code, no deeper than `d`. */
  predicate Reachable(p: Program, l: Label, d: nat) {
    Find(p.ops, l, 0).Some? && Depth(p.ops, Find(p.ops, l, 0).value) <= d
  }

  predicate TargetsOk(p: Program, ctrl: seq<ControlTarget>, d: nat) {
    forall i :: 0 <= i < |ctrl| ==>
      Reachable(p, ctrl[i].brk, d) && (ctrl[i].cont.Some? ==> Reachable(p, ctrl[i].cont.value, d))
  }

  lemma {:induction false} BreakPending(ctrl: seq<ControlTarget>, pending: seq<string>, brk: Label, cont: Option<Label>,
                                        t: Option<string>)
    ensures ResolveBreak(ctrl + PendingTargets(pending, brk, cont), t)
         == if t.Some? && t.value in pending then Some(brk) else ResolveBreak(ctrl, t)
    decreases |pending|
  {
    PendingStep(ctrl, pending, brk, cont);
    if pending != [] { BreakPending(ctrl + [ControlTarget(Some(pending[0]), brk, cont)], pending[1..], brk, cont, t); }
  }

  lemma {:induction false} ContinuePending(ctrl: seq<ControlTarget>, pending: seq<string>, brk: Label,
                                           cont: Option<Label>, t: Option<string>)
    ensures ResolveContinue(ctrl + PendingTargets(pending, brk, cont), t)
         == if t.Some? && t.value in pending && cont.Some? then cont else ResolveContinue(ctrl, t)
    decreases |pending|
  {
    PendingStep(ctrl, pending, brk, cont);
    if pending != [] { ContinuePending(ctrl + [ControlTarget(Some(pending[0]), brk, cont)], pending[1..], brk, cont, t);
        }
  }

  lemma PendingStep(ctrl: seq<ControlTarget>, pending: seq<string>, brk: Label, cont: Option<Label>)
    ensures pending == [] ==> ctrl + PendingTargets(pending, brk, cont) == ctrl
    ensures pending != [] ==>
              var one := [ControlTarget(Some(pending[0]), brk, cont)];
              && ctrl + PendingTargets(pending, brk, cont) == ctrl + one + PendingTargets(pending[1..], brk, cont)
              && (ctrl + one)[..|ctrl + one| - 1] == ctrl
  {
    if pending == [] {
      Apart(ctrl, [], []);
    } else {
      Apart(ctrl, [ControlTarget(Some(pending[0]), brk, cont)], PendingTargets(pending[1..], brk, cont));
    }
  }

  lemma Apart<T>(a: seq<T>, b: seq<T>, c: seq<T>)
    ensures a + (b + c) == a + b + c && (a + b)[..|a|] == a && (b == [] ==> a + b == a)
  {
  }

  lemma ResolvePending(ctrl: seq<ControlTarget>, pending: seq<string>, brk: Label, cont: Option<Label>,
                       t: Option<string>)
    ensures var c := ctrl + PendingTargets(pending, brk, cont);
            && ResolveBreak(c, t) == (if t.Some? && t.value in pending then Some(brk) else ResolveBreak(ctrl, t))
            && ResolveContinue(c, t)
               == (if t.Some? && t.value in pending && cont.Some? then cont else ResolveContinue(ctrl, t))
  {
    BreakPending(ctrl, pending, brk, cont, t);
    ContinuePending(ctrl, pending, brk, cont, t);
  }

  lemma ResolvePush(ctrl: seq<ControlTarget>, pending: seq<string>, brk: Label, cont: Option<Label>, t: Option<string>)
    ensures var c := PushTargets(ctrl, pending, brk, cont);
            var mine := t.None? || t.value in pending;
            && ResolveBreak(c, t) == (if mine then Some(brk) else ResolveBreak(ctrl, t))
            && ResolveContinue(c, t) == (if mine && cont.Some? then cont else ResolveContinue(ctrl, t))
  {
    var one := [ControlTarget(None, brk, cont)];
    ResolvePending(ctrl + one, pending, brk, cont, t);
    assert (ctrl + one)[..|ctrl + one| - 1] == ctrl;
  }

  lemma {:induction false} PendingOk(p: Program, pending: seq<string>, brk: Label, cont: Option<Label>, d: nat)
    requires Reachable(p, brk, d) && (cont.Some? ==> Reachable(p, cont.value, d))
    ensures TargetsOk(p, PendingTargets(pending, brk, cont), d)
  {
    if pending != [] { PendingOk(p, pending[1..], brk, cont, d); }
  }

  lemma PushOk(p: Program, ctrl: seq<ControlTarget>, pending: seq<string>, brk: Label, cont: Option<Label>, d: nat)
    requires TargetsOk(p, ctrl, d) && Reachable(p, brk, d) && (cont.Some? ==> Reachable(p, cont.value, d))
    ensures TargetsOk(p, PushTargets(ctrl, pending, brk, cont), d)
  {
    PendingOk(p, pending, brk, cont, d);
    var c := PushTargets(ctrl, pending, brk, cont);
    forall i | 0 <= i < |c|
      ensures Reachable(p, c[i].brk, d) && (c[i].cont.Some? ==> Reachable(p, c[i].cont.value, d))
    {
      if i > |ctrl| { assert c[i] == PendingTargets(pending, brk, cont)[i - |ctrl| - 1]; }
    }
  }

  lemma LoopCovers(ctrl: seq<ControlTarget>, pending: seq<string>, brk: Label, cont: Option<Label>, j: Jumps)
    requires Covers(ctrl, j)
    ensures Covers(PushTargets(ctrl, pending, brk, cont), if cont.Some?
            then InLoop(j, pending) else InSwitch(j, pending))
  {
    forall t: Option<string> { ResolvePush(ctrl, pending, brk, cont, t); }
  }

  // ---- outcomes -------------------------------------------------------------------

  ghost predicate Arrives(p: Program, c: Config, pc: nat, env: seq<nat>, w: World) {
    exists regs :: Reaches(p, c, Run(pc, regs, env, w))
  }

  /** Arrives at the label with the environment cut to the label's scope depth. */
  ghost predicate Lands(p: Program, c: Config, l: Option<Label>, env: seq<nat>, w: World) {
    l.Some? && Find(p.ops, l.value, 0).Some? &&
    var t := Find(p.ops, l.value, 0).value;
    p.m.base + Depth(p.ops, t) <= |env| && Arrives(p, c, t, env[..p.m.base + Depth(p.ops, t)], w)
  }

  /** How a run from `c` answers the completion `r` of the source. A break to one of
      `labels`, the labels of this very statement, ends it. */
  ghost predicate Answers(p: Program, ctrl: seq<ControlTarget>, labels: seq<string>, c: Config, end: nat, env: seq<nat>,
                          fuel: nat, r: (Completion, World)) {
    match r.0
    case Normal => Arrives(p, c, end, env, r.1)
    case BreakTo(t) =>
      if t.Some? && t.value in labels then Arrives(p, c, end, env, r.1)
      else Lands(p, c, ResolveBreak(ctrl, t), env, r.1)
    case ContinueTo(t) => Lands(p, c, ResolveContinue(ctrl, t), env, r.1)
    case ReturnWith(v) => Reaches(p, c, Done(Returned(v), r.1))
    case ThrowWith(v) => Reaches(p, c, Done(Thrown(v), r.1))
    case OutOfFuel => Lasts(p, c, fuel)
  }

  lemma ArrivesVia(p: Program, a: Config, b: Config, pc: nat, env: seq<nat>, w: World)
    requires Reaches(p, a, b) && Arrives(p, b, pc, env, w)
    ensures Arrives(p, a, pc, env, w)
  {
    var regs :| Reaches(p, b, Run(pc, regs, env, w));
    Trans(p, a, b, Run(pc, regs, env, w));
  }

  lemma AnswersVia(p: Program, ctrl: seq<ControlTarget>, labels: seq<string>, a: Config, b: Config, end: nat,
                   env: seq<nat>,
                   fuel: nat, r: (Completion, World))
    requires Reaches(p, a, b) && Answers(p, ctrl, labels, b, end, env, fuel, r)
    ensures Answers(p, ctrl, labels, a, end, env, fuel, r)
  {
    match r.0
    case Normal => ArrivesVia(p, a, b, end, env, r.1);
    case BreakTo(t) =>
      if t.Some? && t.value in labels { ArrivesVia(p, a, b, end, env, r.1); }
      else { LandsVia(p, a, b, ResolveBreak(ctrl, t), env, r.1); }
    case ContinueTo(t) => LandsVia(p, a, b, ResolveContinue(ctrl, t), env, r.1);
    case ReturnWith(v) => Trans(p, a, b, Done(Returned(v), r.1));
    case ThrowWith(v) => Trans(p, a, b, Done(Thrown(v), r.1));
    case OutOfFuel => LastsAfter(p, a, b, fuel);
  }

  lemma LandsVia(p: Program, a: Config, b: Config, l: Option<Label>, env: seq<nat>, w: World)
    requires Reaches(p, a, b) && Lands(p, b, l, env, w)
    ensures Lands(p, a, l, env, w)
  {
    var t := Find(p.ops, l.value, 0).value;
    ArrivesVia(p, a, b, t, env[..p.m.base + Depth(p.ops, t)], w);
  }

  /** Arriving somewhere, one step further. */
  /** A label does nothing. */
  lemma PassLabel(p: Program, c: Config, at: nat, env: seq<nat>, w: World)
    requires at < |p.ops| && p.ops[at].OpLabel? && Arrives(p, c, at, env, w)
    ensures Arrives(p, c, at + 1, env, w)
  {
    ArrivesStep(p, c, at, env, w, at + 1, env, w);
  }

  lemma ArrivesStep(p: Program, c: Config, pc: nat, env: seq<nat>, w: World, pc': nat, env': seq<nat>, w': World)
    requires Arrives(p, c, pc, env, w)
    requires forall regs :: Step(p, Run(pc, regs, env, w)) == Run(pc', regs, env', w')
    ensures Arrives(p, c, pc', env', w')
  {
    var regs :| Reaches(p, c, Run(pc, regs, env, w));
    One(p, Run(pc, regs, env, w), Run(pc', regs, env', w'));
    Trans(p, c, Run(pc, regs, env, w), Run(pc', regs, env', w'));
  }

  /** A jump to a label no deeper than the jump lands there. */
  lemma JumpLands(p: Program, pc: nat, l: Label, regs: map<nat, Value>, env: seq<nat>, w: World)
    requires pc < |p.ops| && p.ops[pc] == OpJump(l) && p.m.base > 0 && |env| == p.m.base + Depth(p.ops, pc)
    requires Reachable(p, l, Depth(p.ops, pc))
    ensures Lands(p, Run(pc, regs, env, w), Some(l), env, w)
  {
    hide Linear, LinearOne, DepthFrom, Depth, OpsAt;
    var t := Find(p.ops, l, 0).value;
    var env' := env[..p.m.base + Depth(p.ops, t)];
    assert JumpEnv(env, Depth(p.ops, pc), Depth(p.ops, t)) == env';
    One(p, Run(pc, regs, env, w), Run(t, regs, env', w));
  }

  lemma {:induction false} BreakReachable(p: Program, ctrl: seq<ControlTarget>, d: nat, t: Option<string>)
    requires TargetsOk(p, ctrl, d)
    ensures ResolveBreak(ctrl, t).Some? ==> Reachable(p, ResolveBreak(ctrl, t).value, d)
    ensures ResolveContinue(ctrl, t).Some? ==> Reachable(p, ResolveContinue(ctrl, t).value, d)
    decreases |ctrl|
  {
    if ctrl != [] { BreakReachable(p, ctrl[..|ctrl| - 1], d, t); }
  }

  // ---- placing code ---------------------------------------------------------------

  lemma KeepSplit(p: Program, pc: nat, d: nat, a: seq<Instr>, b: seq<Instr>)
    requires At(p, pc, d, a + b) && Keeps(a)
    ensures At(p, pc, d, a) && At(p, pc + Size(a), d, b) && Size(a + b) == Size(a) + Size(b)
  {
    AtSplit(p, pc, d, a, b);
  }

  /** A statement's code: where it stands, and what its jumps may rely on. */
  ghost predicate Ready(p: Program, pc: nat, d: nat, ctrl: seq<ControlTarget>, code: seq<Instr>, j: Jumps) {
    && UniqueLabels(p.ops) && p.m.base > 0 && At(p, pc, d, code)
    && TargetsOk(p, ctrl, d) && Covers(ctrl, j)
  }

  // ---- expressions inside statements ------------------------------------------------

  lemma OptSim(p: Program, pc: nat, d: nat, q: seq<nat>, e: Option<Expr>, none: Value, ids: Ids,
               regs: map<nat, Value>, env: seq<nat>, w: World) returns (regs': map<nat, Value>)
    requires UniqueLabels(p.ops) && At(p, pc, d, LowerOpt(q, e, Const(none), ids).code)
    ensures var l := LowerOpt(q, e, Const(none), ids);
            Computes(p, pc, pc + |l.code|, regs, regs', env, w, ids.temp, l.value,
                     if e.Some? then Eval(p.m.host, e.value, env, w) else (Ok(none), w))
  {
    if e.Some? {
      regs' := ExprSim(p, pc, d, q, e.value, ids, regs, env, w);
    } else {
      regs' := regs;
      Refl(p, Run(pc, regs, env, w));
    }
  }

  /** A position in the code that carries the label, at depth `d`. */
  predicate Marks(p: Program, pc: nat, d: nat, l: Label) {
    pc < |p.ops| && p.ops[pc] == OpLabel(l) && Depth(p.ops, pc) == d
  }

  lemma MarksReachable(p: Program, pc: nat, d: nat, l: Label)
    requires UniqueLabels(p.ops) && Marks(p, pc, d, l)
    ensures Find(p.ops, l, 0) == Some(pc) && Reachable(p, l, d)
  {
    FindAt(p.ops, l, 0, pc);
  }

  lemma ExprTail(p: Program, pc: nat, d: nat, q: seq<nat>, e: Expr, ids: Ids, tail: seq<Instr>)
    requires At(p, pc, d, LowerExpr(q, e, ids).code + tail) && Plain(tail)
    ensures var x := LowerExpr(q, e, ids);
            At(p, pc, d, x.code) && At(p, pc + |x.code|, d, tail) && Size(x.code + tail) == |x.code| + |tail|
  {
    ExprShape(q, e, ids);
    PlainSplit(p, pc, d, LowerExpr(q, e, ids).code, tail);
    PlainConcat(LowerExpr(q, e, ids).code, tail);
    PlainLinear(LowerExpr(q, e, ids).code + tail);
  }

  /** A test falls through when it is true and goes to its label when it is not. */
  lemma TestSim(p: Program, pc: nat, d: nat, q: seq<nat>, t: Option<Expr>, l: Label, at: nat, ids: Ids,
                regs: map<nat, Value>, env: seq<nat>, w: World)
    requires UniqueLabels(p.ops) && At(p, pc, d, LowerTest(q, t, l, ids).code) && Marks(p, at, d, l)
    ensures var (a, w1) := EvalOpt(p.m.host, t, env, w);
            var c := Run(pc, regs, env, w);
            && (a.Throws? ==> Reaches(p, c, Done(Thrown(a.v), w1)))
            && (a.Ok? && Truthy(a.v) ==> Arrives(p, c, pc + Size(LowerTest(q, t, l, ids).code), env, w1))
            && (a.Ok? && !Truthy(a.v) ==> Arrives(p, c, at, env, w1))
  {
    hide Eval, LowerExpr, At, Reaches, UniqueLabels, Marks;
    var c := Run(pc, regs, env, w);
    if t.None? {
      Refl(p, c);
    } else {
      var x := LowerExpr(q, t.value, ids);
      ExprTail(p, pc, d, q, t.value, ids, [JumpIfFalse(x.value, l)]);
      var pc1 := pc + |x.code|;
      OpOf(p, pc1, d, [JumpIfFalse(x.value, l)], 0);
      var regs1 := ExprSim(p, pc, d, q, t.value, ids, regs, env, w);
      var (a, w1) := Eval(p.m.host, t.value, env, w);
      if a.Ok? {
        BranchSim(p, pc1, d, x.value, l, at, regs1, env, w1);
        Trans(p, c, Run(pc1, regs1, env, w1), Run(if Truthy(a.v) then pc1 + 1 else at, regs1, env, w1));
      }
    }
  }

  lemma BranchSim(p: Program, pc: nat, d: nat, v: Operand, l: Label, at: nat, regs: map<nat, Value>, env: seq<nat>,
                  w: World)
    requires UniqueLabels(p.ops) && pc < |p.ops| && p.ops[pc] == OpJumpIfFalse(v, l) && Depth(p.ops, pc) == d
             && Marks(p, at, d, l)
    ensures Reaches(p, Run(pc, regs, env, w), Run(if Truthy(Read(v, regs)) then pc + 1 else at, regs, env, w))
  {
    LocalJump(p, pc, l, at, regs, env, w);
    One(p, Run(pc, regs, env, w), Run(if Truthy(Read(v, regs)) then pc + 1 else at, regs, env, w));
  }

  /** An expression whose value is dropped. */
  lemma DropSim(p: Program, pc: nat, d: nat, q: seq<nat>, u: Option<Expr>, ids: Ids,
                regs: map<nat, Value>, env: seq<nat>, w: World)
    requires UniqueLabels(p.ops) && At(p, pc, d, LowerUpdate(q, u, ids).code)
    ensures var (a, w1) := EvalOpt(p.m.host, u, env, w);
            var c := Run(pc, regs, env, w);
            && (a.Throws? ==> Reaches(p, c, Done(Thrown(a.v), w1)))
            && (a.Ok? ==> Arrives(p, c, pc + Size(LowerUpdate(q, u, ids).code), env, w1))
  {
    hide Eval, LowerExpr, Exec, LowerStmt;
    var c := Run(pc, regs, env, w);
    if u.None? {
      Refl(p, c);
    } else {
      var x := LowerExpr(q, u.value, ids);
      ExprTail(p, pc, d, q, u.value, ids, [Pop(x.value)]);
      var pc1 := pc + |x.code|;
      OpOf(p, pc1, d, [Pop(x.value)], 0);
      var regs1 := ExprSim(p, pc, d, q, u.value, ids, regs, env, w);
      var (a, w1) := Eval(p.m.host, u.value, env, w);
      if a.Ok? {
        One(p, Run(pc1, regs1, env, w1), Run(pc1 + 1, regs1, env, w1));
        Trans(p, c, Run(pc1, regs1, env, w1), Run(pc1 + 1, regs1, env, w1));
      }
    }
  }

  lemma TestFrom(p: Program, c: Config, pc: nat, d: nat, q: seq<nat>, t: Option<Expr>, l: Label, at: nat, ids: Ids,
                 env: seq<nat>, w: World)
    requires UniqueLabels(p.ops) && At(p, pc, d, LowerTest(q, t, l, ids).code) && Marks(p, at, d, l)
             && Arrives(p, c, pc, env, w)
    ensures var (a, w1) := EvalOpt(p.m.host, t, env, w);
            && (a.Throws? ==> Reaches(p, c, Done(Thrown(a.v), w1)))
            && (a.Ok? && Truthy(a.v) ==> Arrives(p, c, pc + Size(LowerTest(q, t, l, ids).code), env, w1))
            && (a.Ok? && !Truthy(a.v) ==> Arrives(p, c, at, env, w1))
  {
    var regs :| Reaches(p, c, Run(pc, regs, env, w));
    var b := Run(pc, regs, env, w);
    TestSim(p, pc, d, q, t, l, at, ids, regs, env, w);
    var (a, w1) := EvalOpt(p.m.host, t, env, w);
    if a.Throws? { Trans(p, c, b, Done(Thrown(a.v), w1)); }
    else { ArrivesVia(p, c, b, if Truthy(a.v) then pc + Size(LowerTest(q, t, l, ids).code) else at, env, w1); }
  }

  lemma DropFrom(p: Program, c: Config, pc: nat, d: nat, q: seq<nat>, u: Option<Expr>, ids: Ids, env: seq<nat>,
                 w: World)
    requires UniqueLabels(p.ops) && At(p, pc, d, LowerUpdate(q, u, ids).code) && Arrives(p, c, pc, env, w)
    ensures var (a, w1) := EvalOpt(p.m.host, u, env, w);
            && (a.Throws? ==> Reaches(p, c, Done(Thrown(a.v), w1)))
            && (a.Ok? ==> Arrives(p, c, pc + Size(LowerUpdate(q, u, ids).code), env, w1))
  {
    var regs :| Reaches(p, c, Run(pc, regs, env, w));
    var b := Run(pc, regs, env, w);
    DropSim(p, pc, d, q, u, ids, regs, env, w);
    var (a, w1) := EvalOpt(p.m.host, u, env, w);
    if a.Throws? { Trans(p, c, b, Done(Thrown(a.v), w1)); }
    else { ArrivesVia(p, c, b, pc + Size(LowerUpdate(q, u, ids).code), env, w1); }
  }

  lemma ExprStmtSim(p: Program, pc: nat, d: nat, q: seq<nat>, e: Expr, ids: Ids, regs: map<nat, Value>, env: seq<nat>,
                    w: World)
    requires UniqueLabels(p.ops) && At(p, pc, d, LowerExprStmt(q, e, ids).code)
    ensures var (a, w1) := Eval(p.m.host, e, env, w);
            var c := Run(pc, regs, env, w);
            && (a.Throws? ==> Reaches(p, c, Done(Thrown(a.v), w1)))
            && (a.Ok? ==> Arrives(p, c, pc + Size(LowerExprStmt(q, e, ids).code), env, w1))
  {
    hide Eval, LowerExpr, Depth, Linear, At, UniqueLabels;
    var x := LowerExpr(q, e, ids);
    if x.value.Register? {
      DropSim(p, pc, d, q, Some(e), ids, regs, env, w);
    } else {
      var c := Run(pc, regs, env, w);
      var tail := [Move(x.ids.temp, x.value), Pop(Register(x.ids.temp))];
      ExprTail(p, pc, d, q, e, ids, tail);
      var pc1 := pc + |x.code|;
      OpOf(p, pc1, d, tail, 0);
      OpOf(p, pc1, d, tail, 1);
      var regs1 := ExprSim(p, pc, d, q, e, ids, regs, env, w);
      var (a, w1) := Eval(p.m.host, e, env, w);
      if a.Ok? {
        var regs2 := regs1[x.ids.temp := Read(x.value, regs1)];
        One(p, Run(pc1 + 1, regs2, env, w1), Run(pc1 + 2, regs2, env, w1));
        StepThen(p, Run(pc1, regs1, env, w1), Run(pc1 + 1, regs2, env, w1), Run(pc1 + 2, regs2, env, w1));
        Trans(p, c, Run(pc1, regs1, env, w1), Run(pc1 + 2, regs2, env, w1));
      }
    }
  }

  lemma DeclareStoreLay(p: Program, pc: nat, d: nat, a: seq<Instr>, two: seq<Instr>, b: seq<Instr>)
    requires At(p, pc, d, a + (two + b)) && Plain(a) && Plain(two) && Plain(b) && |two| == 2
    ensures At(p, pc, d, a) && At(p, pc + |a|, d, two) && At(p, pc + |a| + 2, d, b)
            && Size(a + (two + b)) == |a| + 2 + Size(b)
  {
    TwoHeads(p, pc, d, a, two, b);
    PlainConcat(two, b);
    PlainConcat(a, two + b);
    PlainLinear(a + (two + b));
    PlainLinear(b);
  }

  lemma DeclsPlaced(p: Program, pc: nat, d: nat, q: seq<nat>, kind: DeclKind, decls: seq<Declarator>, ids: Ids)
    requires decls != [] && At(p, pc, d, LowerDecls(q, kind, decls, ids).code)
    ensures var a := LowerOpt(q, decls[0].init, Const(Undefined), ids);
            var b := LowerDecls(q, kind, decls[1..], a.ids);
            && At(p, pc, d, a.code) && At(p, pc + |a.code|, d,
               [DeclareName(kind, decls[0].name), StoreName(decls[0].name, a.value)])
            && At(p, pc + |a.code| + 2, d, b.code)
               && Size(LowerDecls(q, kind, decls, ids).code) == |a.code| + 2 + Size(b.code)
  {
    hide Eval, LowerExpr, Exec, LowerStmt;
    var a := LowerOpt(q, decls[0].init, Const(Undefined), ids);
    var b := LowerDecls(q, kind, decls[1..], a.ids);
    var two := [DeclareName(kind, decls[0].name), StoreName(decls[0].name, a.value)];
    if decls[0].init.Some? { ExprShape(q, decls[0].init.value, ids); }
    DeclsPlain(q, kind, decls[1..], a.ids);
    DeclareStoreLay(p, pc, d, a.code, two, b.code);
  }

  lemma {:induction false} DeclsSim(p: Program, pc: nat, d: nat, q: seq<nat>, kind: DeclKind, decls: seq<Declarator>,
                                    ids: Ids,
                                    regs: map<nat, Value>, env: seq<nat>, w: World)
    requires UniqueLabels(p.ops) && At(p, pc, d, LowerDecls(q, kind, decls, ids).code)
    ensures Answers(p, [], [], Run(pc, regs, env, w), pc + Size(LowerDecls(q, kind, decls, ids).code), env, 0,
                    ExecDecls(p.m, kind, decls, env, w))
    ensures ExecDecls(p.m, kind, decls, env, w).0.Normal? || ExecDecls(p.m, kind, decls, env, w).0.ThrowWith?
    decreases decls
  {
    hide Eval, Depth, OpsAt, Store, Declare, RunN, Lasts, StepOp, LowerOpt;
    var c := Run(pc, regs, env, w);
    if decls == [] {
      Refl(p, c);
    } else {
      var a := LowerOpt(q, decls[0].init, Const(Undefined), ids);
      var b := LowerDecls(q, kind, decls[1..], a.ids);
      DeclsPlaced(p, pc, d, q, kind, decls, ids);
      var pc1 := pc + |a.code|;
      var regs1 := OptSim(p, pc, d, q, decls[0].init, Undefined, ids, regs, env, w);
      var (r, w1) := match decls[0].init case Some(e) => Eval(p.m.host, e, env, w) case None => (Ok(Undefined), w);
      if r.Ok? {
        DeclareStoreSim(p, pc1, d, kind, decls[0].name, a.value, regs1, env, w1);
        var w2 := Declare(p.m.base, env, kind, decls[0].name, w1);
        var (s, w3) := Store(p.m.host, env, decls[0].name, r.v, w2);
        if s.Ok? {
          Trans(p, c, Run(pc1, regs1, env, w1), Run(pc1 + 2, regs1, env, w3));
          DeclsSim(p, pc1 + 2, d, q, kind, decls[1..], a.ids, regs1, env, w3);
          AnswersVia(p, [], [], c, Run(pc1 + 2, regs1, env, w3), pc1 + 2 + Size(b.code), env, 0,
              ExecDecls(p.m, kind, decls[1..], env, w3));
        } else {
          Trans(p, c, Run(pc1, regs1, env, w1), Done(Thrown(s.v), w3));
        }
      }
    }
  }

  lemma DeclareStoreSim(p: Program, pc: nat, d: nat, kind: DeclKind, name: string, src: Operand, regs: map<nat, Value>,
                        env: seq<nat>, w: World)
    requires At(p, pc, d, [DeclareName(kind, name), StoreName(name, src)])
    ensures var (s, w1) := Store(p.m.host, env, name, Read(src, regs), Declare(p.m.base, env, kind, name, w));
            Reaches(p, Run(pc, regs, env, w), if s.Ok? then Run(pc + 2, regs, env, w1) else Done(Thrown(s.v), w1))
  {
    var two := [DeclareName(kind, name), StoreName(name, src)];
    var w0 := Declare(p.m.base, env, kind, name, w);
    var (s, w1) := Store(p.m.host, env, name, Read(src, regs), w0);
    OpOf(p, pc, d, two, 0);
    OpOf(p, pc, d, two, 1);
    var c := if s.Ok? then Run(pc + 2, regs, env, w1) else Done(Thrown(s.v), w1);
    One(p, Run(pc + 1, regs, env, w0), c);
    StepThen(p, Run(pc, regs, env, w), Run(pc + 1, regs, env, w0), c);
  }

  lemma InitSim(p: Program, pc: nat, d: nat, q: seq<nat>, init: ForInit, ids: Ids, regs: map<nat, Value>, env: seq<nat>,
                w: World)
    requires UniqueLabels(p.ops) && At(p, pc, d, LowerInit(q, init, ids).code)
    ensures Answers(p, [], [], Run(pc, regs, env, w), pc + Size(LowerInit(q, init, ids).code), env, 0,
            ExecInit(p.m, init, env, w))
    ensures ExecInit(p.m, init, env, w).0.Normal? || ExecInit(p.m, init, env, w).0.ThrowWith?
  {
    match init
    case NoInit =>
      assert LowerInit(q, init, ids).code == [];
      Refl(p, Run(pc, regs, env, w));
      assert Arrives(p, Run(pc, regs, env, w), pc, env, w);
    case InitExpr(e) =>
      DropSim(p, pc, d, q, Some(e), ids, regs, env, w);
      assert LowerInit(q, init, ids) == LowerUpdate(q, Some(e), ids);
      assert EvalOpt(p.m.host, Some(e), env, w) == Eval(p.m.host, e, env, w);
      assert ExecInit(p.m, init, env, w).0.Normal?
             ==> Arrives(p, Run(pc, regs, env, w), pc + Size(LowerInit(q, init, ids).code), env,
                 ExecInit(p.m, init, env, w).1);
    case InitDecl(kind, decls) => DeclsSim(p, pc, d, q, kind, decls, ids, regs, env, w);
  }

  // ---- loops ----------------------------------------------------------------------

  /** What the body of a loop leads to: the place where the next round starts, or the
      answer that the whole loop gives. */
  lemma LoopBody(p: Program, ctrl: seq<ControlTarget>, labels: seq<string>, brk: Label, cont: Label, c: Config,
                 bodyEnd: nat,
                 contAt: nat, brkAt: nat, d: nat, env: seq<nat>, fuel: nat, r: (Completion, World))
    requires UniqueLabels(p.ops) && |env| == p.m.base + d && Marks(p, contAt, d, cont) && Marks(p, brkAt, d, brk)
    requires Answers(p, PushTargets(ctrl, labels, brk, Some(cont)), [], c, bodyEnd, env, fuel, r)
    ensures LoopContinues(r.0, labels) ==> Arrives(p, c, if r.0.Normal? then bodyEnd else contAt, env, r.1)
    ensures !LoopContinues(r.0, labels) ==> Answers(p, ctrl, labels, c, brkAt + 1, env, fuel, (LoopExit(r.0), r.1))
  {
    MarksReachable(p, contAt, d, cont);
    MarksReachable(p, brkAt, d, brk);
    assert env[..p.m.base + d] == env;
    match r.0
    case BreakTo(t) =>
      ResolvePush(ctrl, labels, brk, Some(cont), t);
      if t.None? || t.value in labels { PassLabel(p, c, brkAt, env, r.1); }
    case ContinueTo(t) => ResolvePush(ctrl, labels, brk, Some(cont), t);
    case _ =>
  }

  /** One step before a run that answers with one unit of fuel less. */
  lemma AnswersStep(p: Program, ctrl: seq<ControlTarget>, labels: seq<string>, a: Config, b: Config, end: nat,
                    env: seq<nat>,
                    fuel: nat, r: (Completion, World))
    requires fuel > 0 && Step(p, a) == b && Answers(p, ctrl, labels, b, end, env, fuel - 1, r)
    ensures Answers(p, ctrl, labels, a, end, env, fuel, r)
  {
    if r.0.OutOfFuel? {
      LastsOneMore(p, a, b, fuel - 1);
    } else {
      One(p, a, b);
      AnswersVia(p, ctrl, labels, a, b, end, env, fuel, r);
    }
  }

  /** The answer from behind a label, one step earlier. */
  lemma AnswersLabel(p: Program, ctrl: seq<ControlTarget>, labels: seq<string>, pc: nat, regs: map<nat, Value>,
                     w: World,
                     end: nat, env: seq<nat>, fuel: nat, r: (Completion, World))
    requires fuel > 0 && pc < |p.ops| && p.ops[pc].OpLabel?
    requires Answers(p, ctrl, labels, Run(pc + 1, regs, env, w), end, env, fuel - 1, r)
    ensures Answers(p, ctrl, labels, Run(pc, regs, env, w), end, env, fuel, r)
  {
    AnswersStep(p, ctrl, labels, Run(pc, regs, env, w), Run(pc + 1, regs, env, w), end, env, fuel, r);
  }

  ghost predicate LoopReady(p: Program, d: nat, ctrl: seq<ControlTarget>, labels: seq<string>, j: Jumps, body: Stmt) {
    && UniqueLabels(p.ops) && p.m.base > 0 && TargetsOk(p, ctrl, d) && Covers(ctrl, j)
    && WellFormed(body, [], InLoop(j, labels))
  }

  /** The body, placed inside the loop's own control targets. */
  lemma BodyReady(p: Program, pc: nat, d: nat, ctrl: seq<ControlTarget>, labels: seq<string>, j: Jumps, body: Stmt,
                  brk: Label, brkAt: nat, cont: Label, contAt: nat, code: seq<Instr>)
    requires LoopReady(p, d, ctrl, labels, j, body) && At(p, pc, d, code) && Marks(p, brkAt, d, brk)
             && Marks(p, contAt, d, cont)
    ensures Ready(p, pc, d, PushTargets(ctrl, labels, brk, Some(cont)), code, InLoop(j, labels))
  {
    MarksReachable(p, brkAt, d, brk);
    MarksReachable(p, contAt, d, cont);
    PushOk(p, ctrl, labels, brk, Some(cont), d);
    LoopCovers(ctrl, labels, brk, Some(cont), j);
  }

  lemma {:induction false} BodySim(p: Program, pc: nat, d: nat, q: seq<nat>, ctrl: seq<ControlTarget>,
                                   labels: seq<string>, j: Jumps, body: Stmt,
                                   brk: Label, brkAt: nat, cont: Label, contAt: nat, ids: Ids, y: Lowered,
                                   regs: map<nat, Value>, env: seq<nat>, w: World, fuel: nat, r: (Completion, World))
    requires LoopReady(p, d, ctrl, labels, j, body) && At(p, pc, d, y.code) && Marks(p, brkAt, d, brk)
             && Marks(p, contAt, d, cont)
    requires y == LowerStmt(q, PushTargets(ctrl, labels, brk, Some(cont)), [], body, ids) && |env| == p.m.base + d
    requires r == Exec(p.m, body, [], env, w, fuel)
    ensures Answers(p, PushTargets(ctrl, labels, brk, Some(cont)), [], Run(pc, regs, env, w), pc + Size(y.code), env,
            fuel, r)
    decreases fuel, body, 3
  {
    hide Exec, LowerStmt, Depth, OpsAt, RunN, Find, UniqueLabels, InLoop, WellFormed;
    BodyReady(p, pc, d, ctrl, labels, j, body, brk, brkAt, cont, contAt, y.code);
    StmtSim(p, pc, d, q, PushTargets(ctrl, labels, brk, Some(cont)), body, [], InLoop(j, labels), ids, regs, env, w,
        fuel);
  }

  lemma {:induction false} BodyFrom(p: Program, c: Config, pc: nat, d: nat, q: seq<nat>, ctrl: seq<ControlTarget>,
                                    labels: seq<string>, j: Jumps, body: Stmt,
                                    brk: Label, brkAt: nat, cont: Label, contAt: nat, ids: Ids, y: Lowered,
                                    env: seq<nat>, w: World, fuel: nat, r: (Completion, World))
    requires LoopReady(p, d, ctrl, labels, j, body) && At(p, pc, d, y.code) && Marks(p, brkAt, d, brk)
             && Marks(p, contAt, d, cont)
    requires y == LowerStmt(q, PushTargets(ctrl, labels, brk, Some(cont)), [], body, ids) && |env| == p.m.base + d
    requires r == Exec(p.m, body, [], env, w, fuel) && Arrives(p, c, pc, env, w)
    ensures Answers(p, PushTargets(ctrl, labels, brk, Some(cont)), [], c, pc + Size(y.code), env, fuel, r)
    decreases fuel, body, 4
  {
    var regs :| Reaches(p, c, Run(pc, regs, env, w));
    BodySim(p, pc, d, q, ctrl, labels, j, body, brk, brkAt, cont, contAt, ids, y, regs, env, w, fuel, r);
    AnswersVia(p, PushTargets(ctrl, labels, brk, Some(cont)), [], c, Run(pc, regs, env, w), pc + Size(y.code), env,
        fuel, r);
  }

  lemma LabelLay(p: Program, pc: nat, d: nat, l: Label, rest: seq<Instr>)
    requires At(p, pc, d, [LabelAt(l)] + rest)
    ensures Marks(p, pc, d, l) && At(p, pc + 1, d, rest) && Size([LabelAt(l)] + rest) == 1 + Size(rest)
  {
    PlainKeeps([LabelAt(l)]);
    KeepSplit(p, pc, d, [LabelAt(l)], rest);
    OpOf(p, pc, d, [LabelAt(l)], 0);
  }

  predicate JumpsTo(p: Program, pc: nat, d: nat, l: Label) {
    pc < |p.ops| && p.ops[pc] == OpJump(l) && Depth(p.ops, pc) == d
  }

  lemma JumpLay(p: Program, pc: nat, d: nat, to: Label, rest: seq<Instr>)
    requires At(p, pc, d, [Jump(to)] + rest)
    ensures JumpsTo(p, pc, d, to) && At(p, pc + 1, d, rest) && Size([Jump(to)] + rest) == 1 + Size(rest)
  {
    PlainKeeps([Jump(to)]);
    KeepSplit(p, pc, d, [Jump(to)], rest);
    OpOf(p, pc, d, [Jump(to)], 0);
  }

  lemma JumpLabelLay(p: Program, pc: nat, d: nat, to: Label, l: Label)
    requires At(p, pc, d, [Jump(to), LabelAt(l)])
    ensures JumpsTo(p, pc, d, to) && Marks(p, pc + 1, d, l) && Size([Jump(to), LabelAt(l)]) == 2
  {
    assert [Jump(to), LabelAt(l)] == [Jump(to)] + ([LabelAt(l)] + []);
    JumpLay(p, pc, d, to, [LabelAt(l)] + []);
    LabelLay(p, pc + 1, d, l, []);
  }

  predicate WhileLaid(p: Program, pc: nat, d: nat, start: Label, end: Label, x: seq<Instr>, y: seq<Instr>) {
    var pcB := pc + 1 + Size(x);
    var pcJ := pcB + Size(y);
    && Marks(p, pc, d, start) && At(p, pc + 1, d, x) && At(p, pcB, d, y)
    && JumpsTo(p, pcJ, d, start) && Marks(p, pcJ + 1, d, end)
  }

  lemma WhileLay(p: Program, pc: nat, d: nat, start: Label, end: Label, x: seq<Instr>, y: seq<Instr>)
    requires At(p, pc, d, [LabelAt(start)] + (x + (y + [Jump(start), LabelAt(end)]))) && Keeps(x) && Keeps(y)
    ensures WhileLaid(p, pc, d, start, end, x, y)
    ensures Size([LabelAt(start)] + (x + (y + [Jump(start), LabelAt(end)]))) == 1 + Size(x) + Size(y) + 2
  {
    hide Linear, LinearOne, DepthFrom, Depth, OpsAt;
    LabelLay(p, pc, d, start, x + (y + [Jump(start), LabelAt(end)]));
    KeepSplit(p, pc + 1, d, x, y + [Jump(start), LabelAt(end)]);
    KeepSplit(p, pc + 1 + Size(x), d, y, [Jump(start), LabelAt(end)]);
    JumpLabelLay(p, pc + 1 + Size(x) + Size(y), d, start, end);
  }

  /** Back from `pc` by a jump to the loop's first label. */
  lemma BackJump(p: Program, c: Config, pc: nat, to: Label, at: nat, d: nat, env: seq<nat>, w: World)
    requires UniqueLabels(p.ops) && JumpsTo(p, pc, d, to) && Marks(p, at, d, to)
    requires Arrives(p, c, pc, env, w)
    ensures Arrives(p, c, at, env, w)
  {
    forall regs: map<nat, Value> ensures Step(p, Run(pc, regs, env, w)) == Run(at, regs, env, w) {
      LocalJump(p, pc, to, at, regs, env, w);
    }
    ArrivesStep(p, c, pc, env, w, at, env, w);
  }

  /** A `while` loop as it is lowered: test `x`, body `y`. */
  ghost predicate WhileCode(q: seq<nat>, ctrl: seq<ControlTarget>, t: Expr, body: Stmt, labels: seq<string>,
                            start: Label, end: Label, ids: Ids, x: Lowered, y: Lowered) {
    && x == LowerTest(q, Some(t), end, ids)
    && y == LowerStmt(q, PushTargets(ctrl, labels, end, Some(start)), [], body, x.ids)
  }

  lemma {:induction false} WhileSim(p: Program, pc: nat, d: nat, q: seq<nat>, ctrl: seq<ControlTarget>, t: Expr,
                                    body: Stmt, labels: seq<string>, j: Jumps,
                                    start: Label, end: Label, ids: Ids, x: Lowered, y: Lowered, regs: map<nat, Value>,
                                        env: seq<nat>, w: World, fuel: nat)
    requires LoopReady(p, d, ctrl, labels, j, body) && |env| == p.m.base + d
    requires WhileCode(q, ctrl, t, body, labels, start, end, ids, x, y)
             && WhileLaid(p, pc, d, start, end, x.code, y.code)
    ensures Answers(p, ctrl, labels, Run(pc, regs, env, w), pc + 1 + Size(x.code) + Size(y.code) + 2, env, fuel,
                    ExecWhile(p.m, t, body, labels, env, w, fuel))
    decreases fuel, body, 3
  {
    hide Exec, LowerStmt, Linear, Covers, TargetsOk, WellFormed, Truthy, Size, Lands, Eval, Step, Reaches;
    var pcJ := pc + 1 + Size(x.code) + Size(y.code);
    var c, c1 := Run(pc, regs, env, w), Run(pc + 1, regs, env, w);
    if fuel > 0 {
      var r := ExecWhile(p.m, t, body, labels, env, w, fuel);
      Refl(p, c1);
      TestFrom(p, c1, pc + 1, d, q, Some(t), end, pcJ + 1, ids, env, w);
      var (a, w1) := Eval(p.m.host, t, env, w);
      if a.Ok? {
        if Truthy(a.v) { WhileRound(p, pc, d, q, ctrl, t, body, labels, j, start, end, ids, x, y, c1, env, w1, fuel); }
        else { PassLabel(p, c1, pcJ + 1, env, w1); }
      }
      AnswersLabel(p, ctrl, labels, pc, regs, w, pcJ + 2, env, fuel, r);
    }
  }

  /** The body, and the rounds after it. */
  lemma {:induction false} WhileRound(p: Program, pc: nat, d: nat, q: seq<nat>, ctrl: seq<ControlTarget>, t: Expr,
                                      body: Stmt, labels: seq<string>, j: Jumps,
                                      start: Label, end: Label, ids: Ids, x: Lowered, y: Lowered, c: Config,
                                          env: seq<nat>, w: World, fuel: nat)
    requires LoopReady(p, d, ctrl, labels, j, body) && |env| == p.m.base + d && fuel > 0
             && Arrives(p, c, pc + 1 + Size(x.code), env, w)
    requires WhileCode(q, ctrl, t, body, labels, start, end, ids, x, y)
             && WhileLaid(p, pc, d, start, end, x.code, y.code)
    ensures var r := Exec(p.m, body, [], env, w, fuel - 1);
            Answers(p, ctrl, labels, c, pc + 1 + Size(x.code) + Size(y.code) + 2, env, fuel - 1,
                    if LoopContinues(r.0, labels) then ExecWhile(p.m, t, body, labels, env, r.1, fuel - 1)
                                                       else (LoopExit(r.0), r.1))
    decreases fuel, body, 1
  {
    hide Exec, LowerStmt, Linear, LinearOne, Depth, OpsAt, Eval, LowerExpr, LoopReady;
    var pcB := pc + 1 + Size(x.code);
    var pcJ := pcB + Size(y.code);
    var r := Exec(p.m, body, [], env, w, fuel - 1);
    BodyFrom(p, c, pcB, d, q, ctrl, labels, j, body, end, pcJ + 1, start, pc, x.ids, y, env, w, fuel - 1, r);
    WhileNext(p, pc, d, q, ctrl, t, body, labels, j, start, end, ids, x, y, c, env, r, fuel);
  }

  lemma {:induction false} WhileNext(p: Program, pc: nat, d: nat, q: seq<nat>, ctrl: seq<ControlTarget>, t: Expr,
                                     body: Stmt, labels: seq<string>, j: Jumps,
                                     start: Label, end: Label, ids: Ids, x: Lowered, y: Lowered, c: Config,
                                         env: seq<nat>, r: (Completion, World), fuel: nat)
    requires LoopReady(p, d, ctrl, labels, j, body) && |env| == p.m.base + d && fuel > 0
    requires WhileCode(q, ctrl, t, body, labels, start, end, ids, x, y)
             && WhileLaid(p, pc, d, start, end, x.code, y.code)
    requires Answers(p, PushTargets(ctrl, labels, end, Some(start)), [], c, pc + 1 + Size(x.code) + Size(y.code), env,
             fuel - 1, r)
    ensures Answers(p, ctrl, labels, c, pc + 1 + Size(x.code) + Size(y.code) + 2, env, fuel - 1,
                    if LoopContinues(r.0, labels) then ExecWhile(p.m, t, body, labels, env, r.1, fuel - 1)
                                                       else (LoopExit(r.0), r.1))
    decreases fuel, body, 0
  {
    hide Exec, LowerStmt, Linear, Eval, LowerExpr, Reaches, Lasts, StepOp, At, Find;
    var pcJ := pc + 1 + Size(x.code) + Size(y.code);
    LoopBody(p, ctrl, labels, end, start, c, pcJ, pc, pcJ + 1, d, env, fuel - 1, r);
    if LoopContinues(r.0, labels) {
      if r.0.Normal? { BackJump(p, c, pcJ, start, pc, d, env, r.1); }
      var regs2 :| Reaches(p, c, Run(pc, regs2, env, r.1));
      WhileSim(p, pc, d, q, ctrl, t, body, labels, j, start, end, ids, x, y, regs2, env, r.1, fuel - 1);
      AnswersVia(p, ctrl, labels, c, Run(pc, regs2, env, r.1), pcJ + 2, env, fuel - 1,
          ExecWhile(p.m, t, body, labels, env, r.1, fuel - 1));
    }
  }

  predicate DoLaid(p: Program, pc: nat, d: nat, start: Label, test: Label, end: Label, x: seq<Instr>, y: seq<Instr>) {
    var pcT := pc + 1 + Size(y);
    var pcJ := pcT + 1 + Size(x);
    && Marks(p, pc, d, start) && At(p, pc + 1, d, y) && Marks(p, pcT, d, test) && At(p, pcT + 1, d, x)
    && JumpsTo(p, pcJ, d, start) && Marks(p, pcJ + 1, d, end)
  }

  lemma DoLay(p: Program, pc: nat, d: nat, start: Label, test: Label, end: Label, x: seq<Instr>, y: seq<Instr>)
    requires At(p, pc, d, [LabelAt(start)] + (y + ([LabelAt(test)] + (x + [Jump(start), LabelAt(end)])))) && Keeps(x)
             && Keeps(y)
    ensures DoLaid(p, pc, d, start, test, end, x, y)
    ensures Size([LabelAt(start)] + (y + ([LabelAt(test)] + (x + [Jump(start), LabelAt(end)])))) == 1 + Size(y) + 1
            + Size(x) + 2
  {
    hide Linear, LinearOne, DepthFrom, Depth, OpsAt;
    LabelLay(p, pc, d, start, y + ([LabelAt(test)] + (x + [Jump(start), LabelAt(end)])));
    KeepSplit(p, pc + 1, d, y, [LabelAt(test)] + (x + [Jump(start), LabelAt(end)]));
    var pcT := pc + 1 + Size(y);
    LabelLay(p, pcT, d, test, x + [Jump(start), LabelAt(end)]);
    KeepSplit(p, pcT + 1, d, x, [Jump(start), LabelAt(end)]);
    JumpLabelLay(p, pcT + 1 + Size(x), d, start, end);
  }

  ghost predicate DoCode(q: seq<nat>, ctrl: seq<ControlTarget>, t: Expr, body: Stmt, labels: seq<string>,
                         test: Label, end: Label, ids: Ids, x: Lowered, y: Lowered) {
    && y == LowerStmt(q, PushTargets(ctrl, labels, end, Some(test)), [], body, ids)
    && x == LowerTest(q, Some(t), end, y.ids)
  }

  lemma {:induction false} DoWhileSim(p: Program, pc: nat, d: nat, q: seq<nat>, ctrl: seq<ControlTarget>, t: Expr,
                                      body: Stmt, labels: seq<string>, j: Jumps,
                                      start: Label, test: Label, end: Label, ids: Ids, x: Lowered, y: Lowered,
                                          regs: map<nat, Value>, env: seq<nat>, w: World, fuel: nat)
    requires LoopReady(p, d, ctrl, labels, j, body) && |env| == p.m.base + d
    requires DoCode(q, ctrl, t, body, labels, test, end, ids, x, y)
             && DoLaid(p, pc, d, start, test, end, x.code, y.code)
    ensures Answers(p, ctrl, labels, Run(pc, regs, env, w), pc + 1 + Size(y.code) + 1 + Size(x.code) + 2, env, fuel,
                    ExecDoWhile(p.m, body, t, labels, env, w, fuel))
    decreases fuel, body, 3
  {
    hide Exec, LowerStmt, Linear, LinearOne, Depth, OpsAt, Eval, LowerExpr, Lands, LoopReady, Size, Step;
    var stop := pc + 1 + Size(y.code) + 1 + Size(x.code) + 2;
    var c, c1 := Run(pc, regs, env, w), Run(pc + 1, regs, env, w);
    if fuel > 0 {
      Refl(p, c1);
      DoRound(p, pc, d, q, ctrl, t, body, labels, j, start, test, end, ids, x, y, c1, env, w, fuel);
      AnswersLabel(p, ctrl, labels, pc, regs, w, stop, env, fuel, ExecDoWhile(p.m, body, t, labels, env, w, fuel));
    }
  }

  /** From the body of a `do`. */
  lemma {:induction false} DoRound(p: Program, pc: nat, d: nat, q: seq<nat>, ctrl: seq<ControlTarget>, t: Expr,
                                   body: Stmt, labels: seq<string>, j: Jumps,
                                   start: Label, test: Label, end: Label, ids: Ids, x: Lowered, y: Lowered, c: Config,
                                       env: seq<nat>, w: World, fuel: nat)
    requires LoopReady(p, d, ctrl, labels, j, body) && |env| == p.m.base + d && fuel > 0
             && Arrives(p, c, pc + 1, env, w)
    requires DoCode(q, ctrl, t, body, labels, test, end, ids, x, y)
             && DoLaid(p, pc, d, start, test, end, x.code, y.code)
    ensures Answers(p, ctrl, labels, c, pc + 1 + Size(y.code) + 1 + Size(x.code) + 2, env, fuel - 1,
                    ExecDoWhile(p.m, body, t, labels, env, w, fuel))
    decreases fuel, body, 2
  {
    hide Exec, LowerStmt, LinearOne, Depth, OpsAt, Eval, LowerExpr, Reaches, Find, WellFormed;
    var pcT := pc + 1 + Size(y.code);
    var r := Exec(p.m, body, [], env, w, fuel - 1);
    BodyFrom(p, c, pc + 1, d, q, ctrl, labels, j, body, end, pcT + 1 + Size(x.code) + 1, test, pcT, ids, y, env, w,
        fuel - 1, r);
    DoNext(p, pc, d, q, ctrl, t, body, labels, j, start, test, end, ids, x, y, c, env, r, fuel);
  }

  function AfterDo(m: Setting, r: (Completion, World), t: Expr, body: Stmt, labels: seq<string>, env: seq<nat>,
                   fuel: nat): (Completion, World) {
    if !LoopContinues(r.0, labels) then (LoopExit(r.0), r.1) else
    var (a, w2) := Eval(m.host, t, env, r.1);
    if a.Throws? then (ThrowWith(a.v), w2)
    else if !Truthy(a.v) then (Normal, w2)
    else ExecDoWhile(m, body, t, labels, env, w2, fuel)
  }

  /** After the body of a `do`: its test, and the rounds after it. */
  lemma {:induction false} DoNext(p: Program, pc: nat, d: nat, q: seq<nat>, ctrl: seq<ControlTarget>, t: Expr,
                                  body: Stmt, labels: seq<string>, j: Jumps,
                                  start: Label, test: Label, end: Label, ids: Ids, x: Lowered, y: Lowered, c: Config,
                                      env: seq<nat>, r: (Completion, World), fuel: nat)
    requires LoopReady(p, d, ctrl, labels, j, body) && |env| == p.m.base + d && fuel > 0
    requires DoCode(q, ctrl, t, body, labels, test, end, ids, x, y)
             && DoLaid(p, pc, d, start, test, end, x.code, y.code)
    requires Answers(p, PushTargets(ctrl, labels, end, Some(test)), [], c, pc + 1 + Size(y.code), env, fuel - 1, r)
    ensures Answers(p, ctrl, labels, c, pc + 1 + Size(y.code) + 1 + Size(x.code) + 2, env, fuel - 1,
                    AfterDo(p.m, r, t, body, labels, env, fuel - 1))
    decreases fuel, body, 1
  {
    hide Linear, Depth, Eval, Reaches, Lasts, StepOp, At, Find, DoCode, ExecDoWhile;
    var pcT := pc + 1 + Size(y.code);
    var pcJ := pcT + 1 + Size(x.code);
    LoopBody(p, ctrl, labels, end, test, c, pcT, pcT, pcJ + 1, d, env, fuel - 1, r);
    if LoopContinues(r.0, labels) {
      DoTest(p, pc, d, q, ctrl, t, body, labels, j, start, test, end, ids, x, y, c, env, r.1, fuel - 1);
    }
  }

  /** From the label of the test. */
  lemma {:induction false} DoTest(p: Program, pc: nat, d: nat, q: seq<nat>, ctrl: seq<ControlTarget>, t: Expr,
                                  body: Stmt, labels: seq<string>, j: Jumps,
                                  start: Label, test: Label, end: Label, ids: Ids, x: Lowered, y: Lowered, c: Config,
                                      env: seq<nat>, w: World, fuel: nat)
    requires LoopReady(p, d, ctrl, labels, j, body) && |env| == p.m.base + d
             && Arrives(p, c, pc + 1 + Size(y.code), env, w)
    requires DoCode(q, ctrl, t, body, labels, test, end, ids, x, y)
             && DoLaid(p, pc, d, start, test, end, x.code, y.code)
    ensures Answers(p, ctrl, labels, c, pc + 1 + Size(y.code) + 1 + Size(x.code) + 2, env, fuel,
                    AfterDo(p.m, (Normal, w), t, body, labels, env, fuel))
    decreases fuel, body, 5
  {
    hide Exec, LowerStmt, Depth, OpsAt, Covers, TargetsOk, WellFormed, PushTargets, IsControlTarget, LowerExpr, Named,
         RunN, Step, Eval, Truthy;
    var pcT := pc + 1 + Size(y.code);
    var pcJ := pcT + 1 + Size(x.code);
    PassLabel(p, c, pcT, env, w);
    TestFrom(p, c, pcT + 1, d, q, Some(t), end, pcJ + 1, y.ids, env, w);
    var (a, w2) := Eval(p.m.host, t, env, w);
    if a.Ok? {
      if Truthy(a.v) {
        BackJump(p, c, pcJ, start, pc, d, env, w2);
        DoAgain(p, pc, d, q, ctrl, t, body, labels, j, start, test, end, ids, x, y, c, env, w2, fuel);
      } else {
        PassLabel(p, c, pcJ + 1, env, w2);
      }
    }
  }

  lemma {:induction false} DoAgain(p: Program, pc: nat, d: nat, q: seq<nat>, ctrl: seq<ControlTarget>, t: Expr,
                                   body: Stmt, labels: seq<string>, j: Jumps,
                                   start: Label, test: Label, end: Label, ids: Ids, x: Lowered, y: Lowered, c: Config,
                                       env: seq<nat>, w: World, fuel: nat)
    requires LoopReady(p, d, ctrl, labels, j, body) && |env| == p.m.base + d && Arrives(p, c, pc, env, w)
    requires DoCode(q, ctrl, t, body, labels, test, end, ids, x, y)
             && DoLaid(p, pc, d, start, test, end, x.code, y.code)
    ensures Answers(p, ctrl, labels, c, pc + 1 + Size(y.code) + 1 + Size(x.code) + 2, env, fuel,
                    ExecDoWhile(p.m, body, t, labels, env, w, fuel))
    decreases fuel, body, 4
  {
    hide Exec, Linear, LinearOne, Reaches, Lasts, StepOp, At, Find, DoCode;
    var regs :| Reaches(p, c, Run(pc, regs, env, w));
    DoWhileSim(p, pc, d, q, ctrl, t, body, labels, j, start, test, end, ids, x, y, regs, env, w, fuel);
    AnswersVia(p, ctrl, labels, c, Run(pc, regs, env, w), pc + 1 + Size(y.code) + 1 + Size(x.code) + 2, env, fuel,
               ExecDoWhile(p.m, body, t, labels, env, w, fuel));
  }

  predicate ForLaid(p: Program, pc: nat, d: nat, start: Label, next: Label, end: Label, x: seq<Instr>, y: seq<Instr>,
                    z: seq<Instr>) {
    var pcB := pc + 1 + Size(x);
    var pcN := pcB + Size(y);
    var pcJ := pcN + 1 + Size(z);
    && Marks(p, pc, d, start) && At(p, pc + 1, d, x) && At(p, pcB, d, y) && Marks(p, pcN, d, next)
       && At(p, pcN + 1, d, z)
    && JumpsTo(p, pcJ, d, start) && Marks(p, pcJ + 1, d, end)
  }

  lemma ForLay(p: Program, pc: nat, d: nat, start: Label, next: Label, end: Label, x: seq<Instr>, y: seq<Instr>,
               z: seq<Instr>)
    requires Keeps(x) && Keeps(y) && Keeps(z)
    requires At(p, pc, d, [LabelAt(start)] + (x + (y + ([LabelAt(next)] + (z + [Jump(start), LabelAt(end)])))))
    ensures ForLaid(p, pc, d, start, next, end, x, y, z)
    ensures Size([LabelAt(start)] + (x + (y + ([LabelAt(next)] + (z + [Jump(start), LabelAt(end)]))))) == 1 + Size(x)
            + Size(y) + 1 + Size(z) + 2
  {
    hide Linear, LinearOne, DepthFrom, Depth, OpsAt;
    var last := [Jump(start), LabelAt(end)];
    LabelLay(p, pc, d, start, x + (y + ([LabelAt(next)] + (z + last))));
    KeepSplit(p, pc + 1, d, x, y + ([LabelAt(next)] + (z + last)));
    KeepSplit(p, pc + 1 + Size(x), d, y, [LabelAt(next)] + (z + last));
    var pcN := pc + 1 + Size(x) + Size(y);
    LabelLay(p, pcN, d, next, z + last);
    KeepSplit(p, pcN + 1, d, z, last);
    JumpLabelLay(p, pcN + 1 + Size(z), d, start, end);
  }

  /** A loop with a test `x`, a body `y` and an update `z`, any of them optional. */
  ghost predicate ForCode(q: seq<nat>, ctrl: seq<ControlTarget>, t: Option<Expr>, u: Option<Expr>, body: Stmt,
                          labels: seq<string>,
                          next: Label, end: Label, ids: Ids, x: Lowered, y: Lowered, z: Lowered) {
    && x == LowerTest(q, t, end, ids)
    && y == LowerStmt(q, PushTargets(ctrl, labels, end, Some(next)), [], body, x.ids)
    && z == LowerUpdate(q, u, y.ids)
  }

  lemma {:induction false} ForSim(p: Program, pc: nat, d: nat, q: seq<nat>, ctrl: seq<ControlTarget>, t: Option<Expr>,
                                  u: Option<Expr>, body: Stmt,
                                  labels: seq<string>, j: Jumps, start: Label, next: Label, end: Label, ids: Ids,
                                      x: Lowered, y: Lowered, z: Lowered,
                                  regs: map<nat, Value>, env: seq<nat>, w: World, fuel: nat)
    requires LoopReady(p, d, ctrl, labels, j, body) && |env| == p.m.base + d
    requires ForCode(q, ctrl, t, u, body, labels, next, end, ids, x, y, z)
             && ForLaid(p, pc, d, start, next, end, x.code, y.code, z.code)
    ensures Answers(p, ctrl, labels, Run(pc, regs, env, w), pc + 1 + Size(x.code) + Size(y.code) + 1 + Size(z.code) + 2,
            env, fuel,
                    ExecFor(p.m, t, u, body, labels, env, w, fuel))
    decreases fuel, body, 3
  {
    hide Exec, LowerStmt, Linear, Depth, Covers, TargetsOk, WellFormed, Lands, Truthy, Arrives, Step;
    var stop := pc + 1 + Size(x.code) + Size(y.code) + 1 + Size(z.code) + 2;
    var c, c1 := Run(pc, regs, env, w), Run(pc + 1, regs, env, w);
    if fuel > 0 {
      var r := ExecFor(p.m, t, u, body, labels, env, w, fuel);
      Refl(p, c1);
      TestFrom(p, c1, pc + 1, d, q, t, end, stop - 1, ids, env, w);
      var (a, w1) := EvalOpt(p.m.host, t, env, w);
      if a.Ok? {
        if Truthy(a.v) { ForRound(p, pc, d, q, ctrl, t, u, body, labels, j, start, next, end, ids, x, y, z, c1, env, w1,
            fuel); }
        else { PassLabel(p, c1, stop - 1, env, w1); }
      }
      AnswersLabel(p, ctrl, labels, pc, regs, w, stop, env, fuel, r);
    }
  }

  function AfterBody(m: Setting, r: (Completion, World), t: Option<Expr>, u: Option<Expr>, body: Stmt,
                     labels: seq<string>,
                     env: seq<nat>, fuel: nat): (Completion, World) {
    if !LoopContinues(r.0, labels) then (LoopExit(r.0), r.1) else
    var (b, w3) := EvalOpt(m.host, u, env, r.1);
    if b.Throws? then (ThrowWith(b.v), w3) else ExecFor(m, t, u, body, labels, env, w3, fuel)
  }

  lemma {:induction false} ForRound(p: Program, pc: nat, d: nat, q: seq<nat>, ctrl: seq<ControlTarget>, t: Option<Expr>,
                                    u: Option<Expr>, body: Stmt,
                                    labels: seq<string>, j: Jumps, start: Label, next: Label, end: Label, ids: Ids,
                                        x: Lowered, y: Lowered, z: Lowered,
                                    c: Config, env: seq<nat>, w: World, fuel: nat)
    requires LoopReady(p, d, ctrl, labels, j, body) && |env| == p.m.base + d && fuel > 0
             && Arrives(p, c, pc + 1 + Size(x.code), env, w)
    requires ForCode(q, ctrl, t, u, body, labels, next, end, ids, x, y, z)
             && ForLaid(p, pc, d, start, next, end, x.code, y.code, z.code)
    ensures Answers(p, ctrl, labels, c, pc + 1 + Size(x.code) + Size(y.code) + 1 + Size(z.code) + 2, env, fuel - 1,
                    AfterBody(p.m, Exec(p.m, body, [], env, w, fuel - 1), t, u, body, labels, env, fuel - 1))
    decreases fuel, body, 1
  {
    hide Exec, LowerStmt, Linear, LinearOne, Depth, OpsAt, Eval, LowerExpr, WellFormed;
    var pcB := pc + 1 + Size(x.code);
    var pcN := pcB + Size(y.code);
    var pcJ := pcN + 1 + Size(z.code);
    var r := Exec(p.m, body, [], env, w, fuel - 1);
    BodyFrom(p, c, pcB, d, q, ctrl, labels, j, body, end, pcJ + 1, next, pcN, x.ids, y, env, w, fuel - 1, r);
    ForNext(p, pc, d, q, ctrl, t, u, body, labels, j, start, next, end, ids, x, y, z, c, env, r, fuel);
  }

  lemma {:induction false} ForNext(p: Program, pc: nat, d: nat, q: seq<nat>, ctrl: seq<ControlTarget>, t: Option<Expr>,
                                   u: Option<Expr>, body: Stmt,
                                   labels: seq<string>, j: Jumps, start: Label, next: Label, end: Label, ids: Ids,
                                       x: Lowered, y: Lowered, z: Lowered,
                                   c: Config, env: seq<nat>, r: (Completion, World), fuel: nat)
    requires LoopReady(p, d, ctrl, labels, j, body) && |env| == p.m.base + d && fuel > 0
    requires ForCode(q, ctrl, t, u, body, labels, next, end, ids, x, y, z)
             && ForLaid(p, pc, d, start, next, end, x.code, y.code, z.code)
    requires Answers(p, PushTargets(ctrl, labels, end, Some(next)), [], c, pc + 1 + Size(x.code) + Size(y.code), env,
             fuel - 1, r)
    ensures Answers(p, ctrl, labels, c, pc + 1 + Size(x.code) + Size(y.code) + 1 + Size(z.code) + 2, env, fuel - 1,
                    AfterBody(p.m, r, t, u, body, labels, env, fuel - 1))
    decreases fuel, body, 0
  {
    hide Exec, Linear, Depth, Eval, LowerExpr, Reaches, Lasts, StepOp, At, Find;
    var pcN := pc + 1 + Size(x.code) + Size(y.code);
    var pcJ := pcN + 1 + Size(z.code);
    LoopBody(p, ctrl, labels, end, next, c, pcN, pcN, pcJ + 1, d, env, fuel - 1, r);
    if LoopContinues(r.0, labels) {
      ForUpdate(p, pc, d, q, ctrl, t, u, body, labels, j, start, next, end, ids, x, y, z, c, env, r.1, fuel - 1);
    }
  }

  /** From the update's label: the update, and the next round. */
  lemma {:induction false} ForUpdate(p: Program, pc: nat, d: nat, q: seq<nat>, ctrl: seq<ControlTarget>,
                                     t: Option<Expr>, u: Option<Expr>, body: Stmt,
                                     labels: seq<string>, j: Jumps, start: Label, next: Label, end: Label, ids: Ids,
                                         x: Lowered, y: Lowered, z: Lowered,
                                     c: Config, env: seq<nat>, w: World, fuel: nat)
    requires LoopReady(p, d, ctrl, labels, j, body) && |env| == p.m.base + d
             && Arrives(p, c, pc + 1 + Size(x.code) + Size(y.code), env, w)
    requires ForCode(q, ctrl, t, u, body, labels, next, end, ids, x, y, z)
             && ForLaid(p, pc, d, start, next, end, x.code, y.code, z.code)
    ensures Answers(p, ctrl, labels, c, pc + 1 + Size(x.code) + Size(y.code) + 1 + Size(z.code) + 2, env, fuel,
                    AfterBody(p.m, (Normal, w), t, u, body, labels, env, fuel))
    decreases fuel, body, 5
  {
    hide Exec, LowerStmt, Linear, LinearOne, Depth, OpsAt, Covers, TargetsOk, WellFormed, PushTargets, LowerExpr, Named,
         Truthy, Arrives, EvalOpt;
    var pcN := pc + 1 + Size(x.code) + Size(y.code);
    PassLabel(p, c, pcN, env, w);
    DropFrom(p, c, pcN + 1, d, q, u, y.ids, env, w);
    var (b, w3) := EvalOpt(p.m.host, u, env, w);
    if b.Ok? {
      BackJump(p, c, pcN + 1 + Size(z.code), start, pc, d, env, w3);
      ForFrom(p, pc, d, q, ctrl, t, u, body, labels, j, start, next, end, ids, x, y, z, c, env, w3, fuel);
    }
  }

  lemma {:induction false} ForFrom(p: Program, pc: nat, d: nat, q: seq<nat>, ctrl: seq<ControlTarget>, t: Option<Expr>,
                                   u: Option<Expr>, body: Stmt,
                                   labels: seq<string>, j: Jumps, start: Label, next: Label, end: Label, ids: Ids,
                                       x: Lowered, y: Lowered, z: Lowered,
                                   c: Config, env: seq<nat>, w: World, fuel: nat)
    requires LoopReady(p, d, ctrl, labels, j, body) && |env| == p.m.base + d && Arrives(p, c, pc, env, w)
    requires ForCode(q, ctrl, t, u, body, labels, next, end, ids, x, y, z)
             && ForLaid(p, pc, d, start, next, end, x.code, y.code, z.code)
    ensures Answers(p, ctrl, labels, c, pc + 1 + Size(x.code) + Size(y.code) + 1 + Size(z.code) + 2, env, fuel,
                    ExecFor(p.m, t, u, body, labels, env, w, fuel))
    decreases fuel, body, 4
  {
    hide Exec, LowerStmt, Linear, LinearOne, Depth, OpsAt, Eval, LowerExpr, Reaches, Find;
    var regs :| Reaches(p, c, Run(pc, regs, env, w));
    ForSim(p, pc, d, q, ctrl, t, u, body, labels, j, start, next, end, ids, x, y, z, regs, env, w, fuel);
    AnswersVia(p, ctrl, labels, c, Run(pc, regs, env, w), pc + 1 + Size(x.code) + Size(y.code) + 1 + Size(z.code) + 2,
        env, fuel,
               ExecFor(p.m, t, u, body, labels, env, w, fuel));
  }

  // ---- scopes ---------------------------------------------------------------------

  lemma TargetsDeeper(p: Program, ctrl: seq<ControlTarget>, d: nat, d': nat)
    requires TargetsOk(p, ctrl, d) && d <= d'
    ensures TargetsOk(p, ctrl, d')
  {
  }

  predicate LeavesAt(p: Program, pc: nat) {
    pc < |p.ops| && p.ops[pc] == OpLeaveScope
  }

  /** Leaving a scope at the end of its code: jumps out of it have cut the frame off
      already. */
  lemma LeaveAnswers(p: Program, ctrl: seq<ControlTarget>, labels: seq<string>, c: Config, end: nat, env: seq<nat>,
                     f: nat, d: nat,
                     fuel: nat, r: (Completion, World))
    requires LeavesAt(p, end) && TargetsOk(p, ctrl, d) && |env| == p.m.base + d && p.m.base > 0
    requires Answers(p, ctrl, labels, c, end, env + [f], fuel, r)
    ensures Answers(p, ctrl, labels, c, end + 1, env, fuel, r)
  {
    assert (env + [f])[..|env|] == env;
    match r.0
    case Normal => ArrivesStep(p, c, end, env + [f], r.1, end + 1, env, r.1);
    case BreakTo(t) =>
      if t.Some? && t.value in labels { ArrivesStep(p, c, end, env + [f], r.1, end + 1, env, r.1); }
      else { LandsOutside(p, ctrl, c, env, f, d, t, r.1); }
    case ContinueTo(t) => LandsOutside(p, ctrl, c, env, f, d, t, r.1);
    case _ =>
  }

  lemma LandsOutside(p: Program, ctrl: seq<ControlTarget>, c: Config, env: seq<nat>, f: nat, d: nat, t: Option<string>,
                     w: World)
    requires TargetsOk(p, ctrl, d) && |env| == p.m.base + d
    ensures Lands(p, c, ResolveBreak(ctrl, t), env + [f], w) ==> Lands(p, c, ResolveBreak(ctrl, t), env, w)
    ensures Lands(p, c, ResolveContinue(ctrl, t), env + [f], w) ==> Lands(p, c, ResolveContinue(ctrl, t), env, w)
  {
    BreakReachable(p, ctrl, d, t);
    forall k: nat | k <= |env| ensures (env + [f])[..k] == env[..k] { }
  }

  /** A scope's body stands one deeper, between the operations that open and close it. */
  lemma ScopeLay(p: Program, pc: nat, d: nat, body: seq<Instr>)
    requires At(p, pc, d, [Scope(body)])
    ensures pc < |p.ops| && p.ops[pc] == OpEnterScope && At(p, pc + 1, d + 1, body) && LeavesAt(p, pc + 1 + Size(body))
    ensures Size([Scope(body)]) == Size(body) + 2
  {
    var f := Linear(body);
    var g := Linear([Scope(body)]);
    assert Linear([Scope(body)][1..]) == [];
    assert g == LinearOne(Scope(body)) + [];
    assert g == [OpEnterScope] + f + [OpLeaveScope];
    assert p.ops[pc + 0] == g[0];
    assert p.ops[pc + (|f| + 1)] == g[|f| + 1];
    forall i | 0 <= i < |f| ensures p.ops[pc + 1 + i] == f[i] {
      assert p.ops[pc + (i + 1)] == g[i + 1];
    }
  }

  lemma EnterStep(p: Program, pc: nat, regs: map<nat, Value>, env: seq<nat>, w: World)
    requires pc < |p.ops| && p.ops[pc] == OpEnterScope
    ensures Reaches(p, Run(pc, regs, env, w), Run(pc + 1, regs, env + [|w.heap|], PushFrame(w)))
  {
    One(p, Run(pc, regs, env, w), Run(pc + 1, regs, env + [|w.heap|], PushFrame(w)));
  }

  // ---- loops with a frame for each iteration ----------------------------------------

  predicate Holds(regs: map<nat, Value>, t: nat, vs: seq<Value>) {
    forall i :: 0 <= i < |vs| ==> Read(Register(t + i), regs) == vs[i]
  }

  lemma {:induction false} LoadsSim(p: Program, pc: nat, d: nat, names: seq<string>, t: nat, regs: map<nat, Value>,
                                    env: seq<nat>, w: World)
    returns (regs': map<nat, Value>)
    requires At(p, pc, d, CopyLoads(names, t))
    ensures var (vs, thrown, w1) := LoadAll(p.m.host, names, env, w);
            var c := Run(pc, regs, env, w);
            && (thrown.Some? ==> Reaches(p, c, Done(Thrown(thrown.value), w1)))
            && (thrown.None? ==> Reaches(p, c, Run(pc + |names|, regs', env, w1)) && Holds(regs', t, vs)
                                 && Same(regs, regs', t))
    decreases |names|
  {
    hide Load, Resolve, Read, OpsAt;
    var c := Run(pc, regs, env, w);
    regs' := regs;
    if names == [] {
      Refl(p, c);
    } else {
      LoadsPlain(names[1..], t + 1);
      PlainSplit(p, pc, d, [LoadName(t, names[0])], CopyLoads(names[1..], t + 1));
      var r := Load(p.m.host, env, names[0], w);
      var regs1 := FinishSim(p, pc, d, LoadName(t, names[0]), regs, env, w, t, t, r);
      if r.0.Ok? {
        regs' := LoadsSim(p, pc + 1, d, names[1..], t + 1, regs1, env, r.1);
        LoadsCons(p, c, pc, names, t, regs, regs1, regs', env, w, r);
      }
    }
  }

  lemma LoadsCons(p: Program, c: Config, pc: nat, names: seq<string>, t: nat, regs: map<nat, Value>, regs1: map<nat,
                  Value>, regs': map<nat, Value>,
                  env: seq<nat>, w: World, r: (Result, World))
    requires names != [] && r == Load(p.m.host, env, names[0], w) && r.0.Ok?
    requires Reaches(p, c, Run(pc + 1, regs1, env, r.1)) && Read(Register(t), regs1) == r.0.v && Same(regs, regs1, t)
    requires var (vs, thrown, w1) := LoadAll(p.m.host, names[1..], env, r.1);
             && (thrown.Some? ==> Reaches(p, Run(pc + 1, regs1, env, r.1), Done(Thrown(thrown.value), w1)))
             && (thrown.None? ==> Reaches(p, Run(pc + 1, regs1, env, r.1), Run(pc + |names|, regs', env, w1))
                                  && Holds(regs', t + 1, vs) && Same(regs1, regs', t + 1))
    ensures var (vs, thrown, w1) := LoadAll(p.m.host, names, env, w);
            && (thrown.Some? ==> Reaches(p, c, Done(Thrown(thrown.value), w1)))
            && (thrown.None? ==> Reaches(p, c, Run(pc + |names|, regs', env, w1)) && Holds(regs', t, vs)
                                 && Same(regs, regs', t))
  {
    var (vs, thrown, w1) := LoadAll(p.m.host, names[1..], env, r.1);
    if thrown.Some? {
      Trans(p, c, Run(pc + 1, regs1, env, r.1), Done(Thrown(thrown.value), w1));
    } else {
      Trans(p, c, Run(pc + 1, regs1, env, r.1), Run(pc + |names|, regs', env, w1));
      forall i | 0 <= i < |vs| + 1 ensures Read(Register(t + i), regs') == ([r.0.v] + vs)[i] {
        if i > 0 { assert Read(Register(t + 1 + (i - 1)), regs') == vs[i - 1]; }
      }
    }
  }

  /** The frame on top, holding `m`. */
  function Topped(h: seq<map<string, Value>>, m: map<string, Value>, log: seq<string>): World {
    World(h + [m], log)
  }

  /** Declaring and storing a copy binds it in the frame on top. */
  lemma CopyOne(base: nat, host: Host, env: seq<nat>, name: string, v: Value, h: seq<map<string, Value>>, m: map<string,
                Value>, log: seq<string>)
    requires env != [] && env[|env| - 1] == |h|
    ensures Store(host, env, name, v, Declare(base, env, LetKind, name, Topped(h, m, log)))
            == (Ok(Undefined), Topped(h, m[name := v], log))
  {
    var w1 := Declare(base, env, LetKind, name, Topped(h, m, log));
    var m1 := if name in m then m else m[name := Undefined];
    assert (h + [m])[|h| := m[name := Undefined]] == h + [m[name := Undefined]];
    assert w1.heap == h + [m1];
    assert Resolve(env, w1.heap, name) == Some(|h|);
    assert m1[name := v] == m[name := v];
    assert (h + [m1])[|h| := m1[name := v]] == h + [m1[name := v]];
  }

  lemma {:induction false} StoresSim(p: Program, pc: nat, d: nat, names: seq<string>, t: nat, vs: seq<Value>,
                                     regs: map<nat, Value>, env: seq<nat>,
                                     h: seq<map<string, Value>>, m: map<string, Value>, log: seq<string>)
    requires At(p, pc, d, CopyStores(names, t)) && |vs| == |names| && Holds(regs, t, vs) && env != []
             && env[|env| - 1] == |h|
    ensures Reaches(p, Run(pc, regs, env, Topped(h, m, log)),
            Run(pc + 2 * |names|, regs, env, Topped(h, BindAll(m, names, vs), log)))
    decreases |names|
  {
    hide Depth, Linear, OpsAt, RunN, Step;
    var c := Run(pc, regs, env, Topped(h, m, log));
    if names == [] {
      Refl(p, c);
    } else {
      var two := [DeclareName(LetKind, names[0]), StoreName(names[0], Register(t))];
      PlainSplit(p, pc, d, two, CopyStores(names[1..], t + 1));
      assert Read(Register(t + 0), regs) == vs[0];
      DeclareStoreSim(p, pc, d, LetKind, names[0], Register(t), regs, env, Topped(h, m, log));
      CopyOne(p.m.base, p.m.host, env, names[0], vs[0], h, m, log);
      assert Holds(regs, t + 1, vs[1..]) by {
        forall i | 0 <= i < |vs| - 1
          ensures Read(Register(t + 1 + i), regs)
                  == vs[1..][i] { assert Read(Register(t + (i + 1)), regs) == vs[i + 1]; }
      }
      StoresSim(p, pc + 2, d, names[1..], t + 1, vs[1..], regs, env, h, m[names[0] := vs[0]], log);
      Trans(p, c, Run(pc + 2, regs, env, Topped(h, m[names[0] := vs[0]], log)),
            Run(pc + 2 * |names|, regs, env, Topped(h, BindAll(m, names, vs), log)));
    }
  }

  predicate CopiesLaid(p: Program, pc: nat, d: nat, names: seq<string>, leave: bool, t: nat) {
    var n := pc + |names|;
    var k := if leave then n + 2 else n + 1;
    && At(p, pc, d, CopyLoads(names, t)) && k <= |p.ops|
    && (if leave then p.ops[n] == OpLeaveScope && p.ops[n + 1] == OpEnterScope else p.ops[n] == OpEnterScope)
    && At(p, k, if leave then d else d + 1, CopyStores(names, t))
  }

  lemma CopiesLay(p: Program, pc: nat, d: nat, names: seq<string>, leave: bool, ids: Ids)
    requires At(p, pc, d, PerIteration(names, leave, ids).code) && (leave ==> d > 0)
    ensures CopiesLaid(p, pc, d, names, leave, ids.temp)
    ensures Size(PerIteration(names, leave, ids).code) == 3 * |names| + (if leave then 2 else 1)
  {
    hide Linear, LinearOne, Depth, DepthFrom, OpsAt, At;
    var a, b := CopyLoads(names, ids.temp), CopyStores(names, ids.temp);
    var m := if leave then [LeaveScope, EnterScope] else [EnterScope];
    LoadsPlain(names, ids.temp);
    StoresPlain(names, ids.temp);
    PlainSplit(p, pc, d, a, m + b);
    PlainLinear(a);
    PlainLinear(b);
    LinearConcat(a, m + b);
    LinearConcat(m, b);
    AtSplit(p, pc + |names|, d, m, b);
    EnterDepth(leave, d);
    EnterLay(p, pc + |names|, d, leave);
  }

  /** The operations that open the iteration's frame, or replace it. */
  lemma EnterLay(p: Program, pc: nat, d: nat, leave: bool)
    requires At(p, pc, d, if leave then [LeaveScope, EnterScope] else [EnterScope])
    ensures Size(if leave then [LeaveScope, EnterScope] else [EnterScope]) == (if leave then 2 else 1)
    ensures pc + (if leave then 2 else 1) <= |p.ops|
    ensures if leave then p.ops[pc] == OpLeaveScope && p.ops[pc + 1] == OpEnterScope else p.ops[pc] == OpEnterScope
  {
    hide Depth, DepthFrom;
    EnterOps(leave);
    if leave {
      assert [OpLeaveScope, OpEnterScope] == [OpLeaveScope] + [OpEnterScope];
      HeadAt(p.ops, pc, OpLeaveScope, [OpEnterScope]);
      HeadAt(p.ops, pc + 1, OpEnterScope, []);
    } else {
      HeadAt(p.ops, pc, OpEnterScope, []);
    }
  }

  lemma EnterOps(leave: bool)
    ensures var m := if leave then [LeaveScope, EnterScope] else [EnterScope];
            Linear(m) == if leave then [OpLeaveScope, OpEnterScope] else [OpEnterScope]
  {
    if leave { assert Linear([LeaveScope, EnterScope]) == [OpLeaveScope] + [OpEnterScope]; }
  }

  /** The frame of the next iteration: a fresh one, on the loop's own frame, holding what
      was read through the frame before it. */
  lemma CopiesSim(p: Program, pc: nat, d: nat, names: seq<string>, leave: bool, t: nat, c: Config, loopEnv: seq<nat>,
                  from: seq<nat>, w: World)
    requires CopiesLaid(p, pc, d, names, leave, t) && Arrives(p, c, pc, from, w)
    requires loopEnv != [] && (if leave then |from| == |loopEnv| + 1 && from[..|loopEnv|] == loopEnv
                                             else from == loopEnv)
    ensures var (vs, thrown, w1) := LoadAll(p.m.host, names, from, w);
            && (thrown.Some? ==> Reaches(p, c, Done(Thrown(thrown.value), w1)))
            && (thrown.None? ==> Arrives(p, c, pc + 3 * |names| + (if leave then 2 else 1), loopEnv + [|w1.heap|],
                                         w1.(heap := w1.heap + [BindAll(map[], names, vs)])))
  {
    var regs :| Reaches(p, c, Run(pc, regs, from, w));
    var b := Run(pc, regs, from, w);
    var regs1 := LoadsSim(p, pc, d, names, t, regs, from, w);
    var (vs, thrown, w1) := LoadAll(p.m.host, names, from, w);
    if thrown.Some? {
      Trans(p, c, b, Done(Thrown(thrown.value), w1));
    } else {
      Trans(p, c, b, Run(pc + |names|, regs1, from, w1));
      CopiesBind(p, pc, d, names, leave, t, vs, c, regs1, loopEnv, from, w1);
    }
  }

  lemma CopiesBind(p: Program, pc: nat, d: nat, names: seq<string>, leave: bool, t: nat, vs: seq<Value>, c: Config,
                   regs: map<nat, Value>,
                   loopEnv: seq<nat>, from: seq<nat>, w: World)
    requires CopiesLaid(p, pc, d, names, leave, t) && Reaches(p, c, Run(pc + |names|, regs, from, w)) && |vs| == |names|
             && Holds(regs, t, vs)
    requires loopEnv != [] && (if leave then |from| == |loopEnv| + 1 && from[..|loopEnv|] == loopEnv
                                             else from == loopEnv)
    ensures Arrives(p, c, pc + 3 * |names| + (if leave then 2 else 1), loopEnv + [|w.heap|],
            w.(heap := w.heap + [BindAll(map[], names, vs)]))
  {
    hide Depth, At, BindAll, Reaches, CopyLoads, CopyStores;
    var n := pc + |names|;
    if leave {
      FrameReplaced(p, n, c, regs, loopEnv, from, w);
      StoresFrom(p, c, n + 2, d, names, t, vs, regs, loopEnv, w);
    } else {
      FrameOpened(p, n, c, regs, loopEnv, w);
      StoresFrom(p, c, n + 1, d + 1, names, t, vs, regs, loopEnv, w);
    }
  }

  lemma StoresFrom(p: Program, c: Config, pc: nat, d: nat, names: seq<string>, t: nat, vs: seq<Value>, regs: map<nat,
                   Value>, loopEnv: seq<nat>, w: World)
    requires At(p, pc, d, CopyStores(names, t)) && |vs| == |names| && Holds(regs, t, vs)
    requires Reaches(p, c, Run(pc, regs, loopEnv + [|w.heap|], PushFrame(w)))
    ensures Arrives(p, c, pc + 2 * |names|, loopEnv + [|w.heap|], w.(heap := w.heap + [BindAll(map[], names, vs)]))
  {
    var env := loopEnv + [|w.heap|];
    StoresSim(p, pc, d, names, t, vs, regs, env, w.heap, map[], w.log);
    Trans(p, c, Run(pc, regs, env, PushFrame(w)),
        Run(pc + 2 * |names|, regs, env, Topped(w.heap, BindAll(map[], names, vs), w.log)));
  }

  lemma FrameOpened(p: Program, n: nat, c: Config, regs: map<nat, Value>, env: seq<nat>, w: World)
    requires n < |p.ops| && p.ops[n] == OpEnterScope && Reaches(p, c, Run(n, regs, env, w))
    ensures Reaches(p, c, Run(n + 1, regs, env + [|w.heap|], PushFrame(w)))
  {
    EnterStep(p, n, regs, env, w);
    Trans(p, c, Run(n, regs, env, w), Run(n + 1, regs, env + [|w.heap|], PushFrame(w)));
  }

  lemma FrameReplaced(p: Program, n: nat, c: Config, regs: map<nat, Value>, env: seq<nat>, from: seq<nat>, w: World)
    requires n + 1 < |p.ops| && p.ops[n] == OpLeaveScope && p.ops[n + 1] == OpEnterScope
             && Reaches(p, c, Run(n, regs, from, w))
    requires env != [] && |from| == |env| + 1 && from[..|env|] == env
    ensures Reaches(p, c, Run(n + 2, regs, env + [|w.heap|], PushFrame(w)))
  {
    One(p, Run(n, regs, from, w), Run(n + 1, regs, env, w));
    Trans(p, c, Run(n, regs, from, w), Run(n + 1, regs, env, w));
    FrameOpened(p, n + 1, c, regs, env, w);
  }

  predicate RoundsLaid(p: Program, pc: nat, d: nat, start: Label, next: Label, end: Label, x: seq<Instr>, y: seq<Instr>,
                       e: seq<Instr>, z: seq<Instr>) {
    var pcB := pc + 1 + Size(x);
    var pcN := pcB + Size(y);
    var pcU := pcN + 1 + Size(e);
    var pcJ := pcU + Size(z);
    && Marks(p, pc, d, start) && At(p, pc + 1, d, x) && At(p, pcB, d, y) && Marks(p, pcN, d, next)
       && At(p, pcN + 1, d, e)
    && At(p, pcU, d, z) && JumpsTo(p, pcJ, d, start) && Marks(p, pcJ + 1, d, end) && LeavesAt(p, pcJ + 2)
  }

  function RoundsSize(x: seq<Instr>, y: seq<Instr>, e: seq<Instr>, z: seq<Instr>): nat {
    1 + Size(x) + Size(y) + 1 + Size(e) + Size(z) + 3
  }

  lemma RoundsLay(p: Program, pc: nat, d: nat, start: Label, next: Label, end: Label, x: seq<Instr>, y: seq<Instr>,
                  e: seq<Instr>, z: seq<Instr>)
    requires Keeps(x) && Keeps(y) && Keeps(z) && DepthFrom(d, Linear(e)) == d
    requires At(p, pc, d, Rounds(start, next, end, x, y, e, z))
    ensures RoundsLaid(p, pc, d, start, next, end, x, y, e, z)
    ensures Size(Rounds(start, next, end, x, y, e, z)) == RoundsSize(x, y, e, z)
  {
    hide Linear, LinearOne, DepthFrom, Depth, OpsAt;
    var last := [Jump(start), LabelAt(end), LeaveScope];
    LabelLay(p, pc, d, start, x + (y + ([LabelAt(next)] + (e + (z + last)))));
    KeepSplit(p, pc + 1, d, x, y + ([LabelAt(next)] + (e + (z + last))));
    KeepSplit(p, pc + 1 + Size(x), d, y, [LabelAt(next)] + (e + (z + last)));
    var pcN := pc + 1 + Size(x) + Size(y);
    LabelLay(p, pcN, d, next, e + (z + last));
    AtSplit(p, pcN + 1, d, e, z + last);
    KeepSplit(p, pcN + 1 + Size(e), d, z, last);
    LastLay(p, pcN + 1 + Size(e) + Size(z), d, start, end);
  }

  lemma LastLay(p: Program, pc: nat, d: nat, start: Label, end: Label)
    requires At(p, pc, d, [Jump(start), LabelAt(end), LeaveScope])
    ensures JumpsTo(p, pc, d, start) && Marks(p, pc + 1, d, end) && LeavesAt(p, pc + 2)
    ensures Size([Jump(start), LabelAt(end), LeaveScope]) == 3
  {
    hide DepthStep, JumpsTo;
    assert [Jump(start), LabelAt(end), LeaveScope] == [Jump(start)] + ([LabelAt(end)] + [LeaveScope]);
    JumpLay(p, pc, d, start, [LabelAt(end)] + [LeaveScope]);
    LabelLay(p, pc + 1, d, end, [LeaveScope]);
    assert Linear([LeaveScope]) == [OpLeaveScope];
    assert p.ops[pc + 2 + 0] == Linear([LeaveScope])[0];
  }

  /** A lexical `for` after its bindings are made: test `x`, body `y`, copies `e`, update `z`. */
  ghost predicate LexicalCode(q: seq<nat>, ctrl: seq<ControlTarget>, names: seq<string>, t: Option<Expr>,
                              u: Option<Expr>, body: Stmt, labels: seq<string>,
                              next: Label, end: Label, ids: Ids, x: Lowered, y: Lowered, e: Lowered, z: Lowered) {
    && x == LowerTest(q, t, end, ids)
    && y == LowerStmt(q, PushTargets(ctrl, labels, end, Some(next)), [], body, x.ids)
    && e == PerIteration(names, true, y.ids)
    && z == LowerUpdate(q, u, e.ids)
  }

  /** What an iteration is run against: the loop's own environment, one frame below. */
  ghost predicate IterationReady(p: Program, d: nat, ctrl: seq<ControlTarget>, labels: seq<string>, j: Jumps,
                                 body: Stmt, loopEnv: seq<nat>, env: seq<nat>) {
    && LoopReady(p, d, ctrl, labels, j, body) && |loopEnv| == p.m.base + d && |env| == |loopEnv| + 1
       && env[..|loopEnv|] == loopEnv
  }

  lemma {:induction false} RoundSim(p: Program, pc: nat, d: nat, q: seq<nat>, ctrl: seq<ControlTarget>,
                                    names: seq<string>, t: Option<Expr>, u: Option<Expr>, body: Stmt,
                                    labels: seq<string>, j: Jumps, start: Label, next: Label, end: Label, ids: Ids,
                                        x: Lowered, y: Lowered, e: Lowered, z: Lowered,
                                    c: Config, loopEnv: seq<nat>, env: seq<nat>, w: World, fuel: nat)
    requires IterationReady(p, d, ctrl, labels, j, body, loopEnv, env) && fuel > 0 && Arrives(p, c, pc, env, w)
    requires LexicalCode(q, ctrl, names, t, u, body, labels, next, end, ids, x, y, e, z)
    requires RoundsLaid(p, pc, d + 1, start, next, end, x.code, y.code, e.code, z.code)
    ensures Answers(p, ctrl, labels, c, pc + RoundsSize(x.code, y.code, e.code, z.code), loopEnv, fuel,
                    ExecRound(p.m, names, t, u, body, labels, loopEnv, env, w, fuel))
    decreases fuel, body, 6
  {
    hide Exec, LowerStmt, Linear, LinearOne, Depth, OpsAt, Covers, TargetsOk, WellFormed;
    var stop := pc + RoundsSize(x.code, y.code, e.code, z.code);
    var regs :| Reaches(p, c, Run(pc, regs, env, w));
    var a, b := Run(pc, regs, env, w), Run(pc + 1, regs, env, w);
    var r := ExecRound(p.m, names, t, u, body, labels, loopEnv, env, w, fuel);
    Refl(p, b);
    RoundTest(p, pc, d, q, ctrl, names, t, u, body, labels, j, start, next, end, ids, x, y, e, z, b, loopEnv, env, w,
        fuel);
    AnswersStep(p, ctrl, labels, a, b, stop, loopEnv, fuel, r);
    AnswersVia(p, ctrl, labels, c, a, stop, loopEnv, fuel, r);
  }

  lemma {:induction false} RoundTest(p: Program, pc: nat, d: nat, q: seq<nat>, ctrl: seq<ControlTarget>,
                                     names: seq<string>, t: Option<Expr>, u: Option<Expr>, body: Stmt,
                                     labels: seq<string>, j: Jumps, start: Label, next: Label, end: Label, ids: Ids,
                                         x: Lowered, y: Lowered, e: Lowered, z: Lowered,
                                     c: Config, loopEnv: seq<nat>, env: seq<nat>, w: World, fuel: nat)
    requires IterationReady(p, d, ctrl, labels, j, body, loopEnv, env) && fuel > 0 && Arrives(p, c, pc + 1, env, w)
    requires LexicalCode(q, ctrl, names, t, u, body, labels, next, end, ids, x, y, e, z)
    requires RoundsLaid(p, pc, d + 1, start, next, end, x.code, y.code, e.code, z.code)
    ensures Answers(p, ctrl, labels, c, pc + RoundsSize(x.code, y.code, e.code, z.code), loopEnv, fuel - 1,
                    ExecRound(p.m, names, t, u, body, labels, loopEnv, env, w, fuel))
    decreases fuel, body, 5
  {
    hide Exec, LowerStmt, Linear, Depth, OpsAt, EvalOpt, LowerTest, LowerUpdate, Covers, TargetsOk, WellFormed,
         ResolveContinue, Arrives;
    var stop := pc + RoundsSize(x.code, y.code, e.code, z.code);
    TestFrom(p, c, pc + 1, d + 1, q, t, end, stop - 2, ids, env, w);
    var (v, w1) := EvalOpt(p.m.host, t, env, w);
    if v.Ok? {
      if Truthy(v.v) {
        RoundBody(p, pc, d, q, ctrl, names, t, u, body, labels, j, start, next, end, ids, x, y, e, z, c, loopEnv, env,
            w1, fuel);
      } else {
        PassLabel(p, c, stop - 2, env, w1);
        LeaveRound(p, ctrl, labels, c, stop - 1, loopEnv, env, d, fuel - 1, (Normal, w1));
      }
    }
  }

  lemma LeaveRound(p: Program, ctrl: seq<ControlTarget>, labels: seq<string>, c: Config, end: nat, loopEnv: seq<nat>,
                   env: seq<nat>, d: nat,
                   fuel: nat, r: (Completion, World))
    requires LeavesAt(p, end) && TargetsOk(p, ctrl, d) && |loopEnv| == p.m.base + d && p.m.base > 0
    requires |env| == |loopEnv| + 1 && env[..|loopEnv|] == loopEnv
    requires Answers(p, ctrl, labels, c, end, env, fuel, r)
    ensures Answers(p, ctrl, labels, c, end + 1, loopEnv, fuel, r)
  {
    assert env == loopEnv + [env[|loopEnv|]];
    LeaveAnswers(p, ctrl, labels, c, end, loopEnv, env[|loopEnv|], d, fuel, r);
  }

  function AfterRound(m: Setting, r: (Completion, World), names: seq<string>, t: Option<Expr>, u: Option<Expr>,
                      body: Stmt, labels: seq<string>,
                      loopEnv: seq<nat>, env: seq<nat>, fuel: nat): (Completion, World) {
    if !LoopContinues(r.0, labels) then (LoopExit(r.0), r.1)
    else ExecPerIteration(m, names, t, u, body, labels, loopEnv, env, true, r.1, fuel)
  }

  lemma {:induction false} RoundBody(p: Program, pc: nat, d: nat, q: seq<nat>, ctrl: seq<ControlTarget>,
                                     names: seq<string>, t: Option<Expr>, u: Option<Expr>, body: Stmt,
                                     labels: seq<string>, j: Jumps, start: Label, next: Label, end: Label, ids: Ids,
                                         x: Lowered, y: Lowered, e: Lowered, z: Lowered,
                                     c: Config, loopEnv: seq<nat>, env: seq<nat>, w: World, fuel: nat)
    requires IterationReady(p, d, ctrl, labels, j, body, loopEnv, env) && fuel > 0
             && Arrives(p, c, pc + 1 + Size(x.code), env, w)
    requires LexicalCode(q, ctrl, names, t, u, body, labels, next, end, ids, x, y, e, z)
    requires RoundsLaid(p, pc, d + 1, start, next, end, x.code, y.code, e.code, z.code)
    ensures Answers(p, ctrl, labels, c, pc + RoundsSize(x.code, y.code, e.code, z.code), loopEnv, fuel - 1,
                    AfterRound(p.m, Exec(p.m, body, [], env, w, fuel - 1), names, t, u, body, labels, loopEnv, env,
                        fuel - 1))
    decreases fuel, body, 4
  {
    hide Exec, Linear, Depth, OpsAt, Eval, LowerExpr, Lasts, StepOp, At, Find;
    var pcB := pc + 1 + Size(x.code);
    var stop := pc + RoundsSize(x.code, y.code, e.code, z.code);
    var r := Exec(p.m, body, [], env, w, fuel - 1);
    TargetsDeeper(p, ctrl, d, d + 1);
    BodyFrom(p, c, pcB, d + 1, q, ctrl, labels, j, body, end, stop - 2, next, pcB + Size(y.code), x.ids, y, env, w,
        fuel - 1, r);
    RoundNext(p, pc, d, q, ctrl, names, t, u, body, labels, j, start, next, end, ids, x, y, e, z, c, loopEnv, env, r,
        fuel);
  }

  lemma {:induction false} RoundNext(p: Program, pc: nat, d: nat, q: seq<nat>, ctrl: seq<ControlTarget>,
                                     names: seq<string>, t: Option<Expr>, u: Option<Expr>, body: Stmt,
                                     labels: seq<string>, j: Jumps, start: Label, next: Label, end: Label, ids: Ids,
                                         x: Lowered, y: Lowered, e: Lowered, z: Lowered,
                                     c: Config, loopEnv: seq<nat>, env: seq<nat>, r: (Completion, World), fuel: nat)
    requires IterationReady(p, d, ctrl, labels, j, body, loopEnv, env) && fuel > 0
    requires LexicalCode(q, ctrl, names, t, u, body, labels, next, end, ids, x, y, e, z)
    requires RoundsLaid(p, pc, d + 1, start, next, end, x.code, y.code, e.code, z.code)
    requires Answers(p, PushTargets(ctrl, labels, end, Some(next)), [], c, pc + 1 + Size(x.code) + Size(y.code), env,
             fuel - 1, r)
    ensures Answers(p, ctrl, labels, c, pc + RoundsSize(x.code, y.code, e.code, z.code), loopEnv, fuel - 1,
                    AfterRound(p.m, r, names, t, u, body, labels, loopEnv, env, fuel - 1))
    decreases fuel, body, 3
  {
    hide Size, LexicalCode, Answers, BindAll, Covers, LoadAll, Named, Step, TargetsOk, WellFormed;
    var pcN := pc + 1 + Size(x.code) + Size(y.code);
    var stop := pc + RoundsSize(x.code, y.code, e.code, z.code);
    LoopBody(p, ctrl, labels, end, next, c, pcN, pcN, stop - 2, d + 1, env, fuel - 1, r);
    if LoopContinues(r.0, labels) {
      PassLabel(p, c, pcN, env, r.1);
      NextIteration(p, pc, d, q, ctrl, names, t, u, body, labels, j, start, next, end, ids, x, y, e, z, c, loopEnv, env,
          r.1, fuel - 1);
    } else {
      LeaveRound(p, ctrl, labels, c, stop - 1, loopEnv, env, d, fuel - 1, (LoopExit(r.0), r.1));
    }
  }

  /** From the copies after a round: the next frame, the update in it, the next round. */
  lemma {:induction false} NextIteration(p: Program, pc: nat, d: nat, q: seq<nat>, ctrl: seq<ControlTarget>,
                                         names: seq<string>, t: Option<Expr>, u: Option<Expr>, body: Stmt,
                                         labels: seq<string>, j: Jumps, start: Label, next: Label, end: Label, ids: Ids,
                                             x: Lowered, y: Lowered, e: Lowered, z: Lowered,
                                         c: Config, loopEnv: seq<nat>, from: seq<nat>, w: World, fuel: nat)
    requires IterationReady(p, d, ctrl, labels, j, body, loopEnv, from)
             && Arrives(p, c, pc + 1 + Size(x.code) + Size(y.code) + 1, from, w)
    requires LexicalCode(q, ctrl, names, t, u, body, labels, next, end, ids, x, y, e, z)
    requires RoundsLaid(p, pc, d + 1, start, next, end, x.code, y.code, e.code, z.code)
    ensures Answers(p, ctrl, labels, c, pc + RoundsSize(x.code, y.code, e.code, z.code), loopEnv, fuel,
                    ExecPerIteration(p.m, names, t, u, body, labels, loopEnv, from, true, w, fuel))
    decreases fuel, body, 8
  {
    hide Exec, LowerStmt, Depth, OpsAt, Find, UniqueLabels, EvalOpt, Reaches, Step, LowerTest, LowerUpdate, Size,
         CopyLoads, CopyStores, Covers, InLoop, LinearOne, LoopContinues, TargetsOk, Truthy, WellFormed, LoopExit,
             PendingTargets, LoadAll;
    var pcC := pc + 1 + Size(x.code) + Size(y.code) + 1;
    var stop := pc + RoundsSize(x.code, y.code, e.code, z.code);
    if fuel == 0 {
      var regs :| Reaches(p, c, Run(pcC, regs, from, w));
      LastsAfter(p, c, Run(pcC, regs, from, w), 0);
    } else {
      CopiesLay(p, pcC, d + 1, names, true, y.ids);
      CopiesSim(p, pcC, d + 1, names, true, y.ids.temp, c, loopEnv, from, w);
      var (vs, thrown, w1) := LoadAll(p.m.host, names, from, w);
      if thrown.None? {
        var env := loopEnv + [|w1.heap|];
        var w2 := w1.(heap := w1.heap + [BindAll(map[], names, vs)]);
        UpdateRound(p, pc, d, q, ctrl, names, t, u, body, labels, j, start, next, end, ids, x, y, e, z, c, loopEnv, env,
            w2, fuel);
      }
    }
  }

  /** From the update, with the iteration's frame in place. */
  lemma {:induction false} UpdateRound(p: Program, pc: nat, d: nat, q: seq<nat>, ctrl: seq<ControlTarget>,
                                       names: seq<string>, t: Option<Expr>, u: Option<Expr>, body: Stmt,
                                       labels: seq<string>, j: Jumps, start: Label, next: Label, end: Label, ids: Ids,
                                           x: Lowered, y: Lowered, e: Lowered, z: Lowered,
                                       c: Config, loopEnv: seq<nat>, env: seq<nat>, w: World, fuel: nat)
    requires IterationReady(p, d, ctrl, labels, j, body, loopEnv, env) && fuel > 0
    requires Arrives(p, c, pc + 1 + Size(x.code) + Size(y.code) + 1 + Size(e.code), env, w)
    requires LexicalCode(q, ctrl, names, t, u, body, labels, next, end, ids, x, y, e, z)
    requires RoundsLaid(p, pc, d + 1, start, next, end, x.code, y.code, e.code, z.code)
    ensures var (b, w3) := EvalOpt(p.m.host, u, env, w);
            Answers(p, ctrl, labels, c, pc + RoundsSize(x.code, y.code, e.code, z.code), loopEnv, fuel,
                    if b.Throws? then (ThrowWith(b.v), w3)
                                      else ExecRound(p.m, names, t, u, body, labels, loopEnv, env, w3, fuel))
    decreases fuel, body, 7
  {
    hide LowerStmt, Linear, Depth, At, RunN, TargetsOk, UniqueLabels, WellFormed, ExecRound, Arrives;
    var pcU := pc + 1 + Size(x.code) + Size(y.code) + 1 + Size(e.code);
    DropFrom(p, c, pcU, d + 1, q, u, e.ids, env, w);
    var (b, w3) := EvalOpt(p.m.host, u, env, w);
    if b.Ok? {
      BackJump(p, c, pcU + Size(z.code), start, pc, d + 1, env, w3);
      RoundSim(p, pc, d, q, ctrl, names, t, u, body, labels, j, start, next, end, ids, x, y, e, z, c, loopEnv, env, w3,
          fuel);
    }
  }

  predicate LexicalLaid(p: Program, pc: nat, d: nat, names: seq<string>, t0: nat, start: Label, next: Label, end: Label,
                        i: seq<Instr>, x: seq<Instr>, y: seq<Instr>, e: seq<Instr>, z: seq<Instr>) {
    var pcC := pc + 1 + Size(i);
    var pcS := pcC + 3 * |names| + 1;
    && pc < |p.ops| && p.ops[pc] == OpEnterScope && At(p, pc + 1, d + 1, i)
       && CopiesLaid(p, pcC, d + 1, names, false, t0)
    && RoundsLaid(p, pcS, d + 2, start, next, end, x, y, e, z) && LeavesAt(p, pcS + RoundsSize(x, y, e, z))
  }

  lemma LexicalLay(p: Program, pc: nat, d: nat, names: seq<string>, ids: Ids, start: Label, next: Label, end: Label,
                   i: seq<Instr>, x: seq<Instr>, y: seq<Instr>, e: seq<Instr>, z: seq<Instr>)
    requires Plain(i) && Plain(x) && Keeps(y) && Plain(z) && DepthFrom(d + 2, Linear(e)) == d + 2
    requires At(p, pc, d, [Scope(i + (PerIteration(names, false, ids).code + Rounds(start, next, end, x, y, e, z)))])
    ensures LexicalLaid(p, pc, d, names, ids.temp, start, next, end, i, x, y, e, z)
    ensures Size([Scope(i + (PerIteration(names, false, ids).code + Rounds(start, next, end, x, y, e, z)))])
         == 1 + Size(i) + 3 * |names| + 1 + RoundsSize(x, y, e, z) + 1
  {
    hide Linear, LinearOne, DepthFrom, Depth, OpsAt;
    var c := PerIteration(names, false, ids).code;
    var r := Rounds(start, next, end, x, y, e, z);
    PlainKeeps(i);
    PlainKeeps(x);
    PlainKeeps(z);
    ScopeLay(p, pc, d, i + (c + r));
    KeepSplit(p, pc + 1, d + 1, i, c + r);
    var pcC := pc + 1 + Size(i);
    AtSplit(p, pcC, d + 1, c, r);
    PerIterationDepth(names, false, ids, d + 1);
    CopiesLay(p, pcC, d + 1, names, false, ids);
    RoundsLay(p, pcC + Size(c), d + 2, start, next, end, x, y, e, z);
  }

  /** The first frame of a lexical `for`, and its rounds, inside the loop's own scope. */
  lemma {:induction false} FirstIteration(p: Program, pc: nat, d: nat, q: seq<nat>, ctrl: seq<ControlTarget>,
                                          names: seq<string>, t: Option<Expr>, u: Option<Expr>, body: Stmt,
                                          labels: seq<string>, j: Jumps, start: Label, next: Label, end: Label, t0: nat,
                                              ids: Ids, x: Lowered, y: Lowered, e: Lowered, z: Lowered,
                                          c: Config, loopEnv: seq<nat>, w: World, fuel: nat)
    requires LoopReady(p, d, ctrl, labels, j, body) && |loopEnv| == p.m.base + d
             && CopiesLaid(p, pc, d, names, false, t0) && Arrives(p, c, pc, loopEnv, w)
    requires LexicalCode(q, ctrl, names, t, u, body, labels, next, end, ids, x, y, e, z)
    requires RoundsLaid(p, pc + 3 * |names| + 1, d + 1, start, next, end, x.code, y.code, e.code, z.code)
    ensures Answers(p, ctrl, labels, c, pc + 3 * |names| + 1 + RoundsSize(x.code, y.code, e.code, z.code), loopEnv,
            fuel,
                    ExecPerIteration(p.m, names, t, u, body, labels, loopEnv, loopEnv, false, w, fuel))
    decreases fuel, body, 8
  {
    hide Exec, LowerStmt, Reaches, Step, LowerTest, LowerUpdate, RoundsLaid, CopiesLaid, WellFormed, Linear, Reachable,
         Truthy, LoadAll;
    if fuel == 0 {
      var regs :| Reaches(p, c, Run(pc, regs, loopEnv, w));
      LastsAfter(p, c, Run(pc, regs, loopEnv, w), 0);
    } else {
      CopiesSim(p, pc, d, names, false, t0, c, loopEnv, loopEnv, w);
      var (vs, thrown, w1) := LoadAll(p.m.host, names, loopEnv, w);
      if thrown.None? {
        var env := loopEnv + [|w1.heap|];
        var w2 := w1.(heap := w1.heap + [BindAll(map[], names, vs)]);
        RoundSim(p, pc + 3 * |names| + 1, d, q, ctrl, names, t, u, body, labels, j, start, next, end, ids, x, y, e, z,
            c, loopEnv, env, w2, fuel);
      }
    }
  }

  // ---- statements -----------------------------------------------------------------

  function Own(s: Stmt, labels: seq<string>): seq<string> {
    if IsControlTarget(s) then labels else []
  }

  /** The code of `s`, placed and ready to run. */
  ghost predicate StmtReady(p: Program, pc: nat, d: nat, q: seq<nat>, ctrl: seq<ControlTarget>, s: Stmt,
                            labels: seq<string>, j: Jumps, ids: Ids, env: seq<nat>) {
    && Ready(p, pc, d, ctrl, LowerStmt(q, ctrl, Own(s, labels), s, ids).code, j)
    && WellFormed(s, Own(s, labels), j) && |env| == p.m.base + d
  }

  ghost predicate StmtAnswers(p: Program, pc: nat, q: seq<nat>, ctrl: seq<ControlTarget>, s: Stmt, labels: seq<string>,
                              ids: Ids,
                              c: Config, env: seq<nat>, fuel: nat, r: (Completion, World)) {
    Answers(p, ctrl, Own(s, labels), c, pc + Size(LowerStmt(q, ctrl, Own(s, labels), s, ids).code), env, fuel, r)
  }

  /** The lowered statement answers every completion of the source statement. */
  lemma {:induction false} StmtSim(p: Program, pc: nat, d: nat, q: seq<nat>, ctrl: seq<ControlTarget>, s: Stmt,
                                   labels: seq<string>, j: Jumps,
                                   ids: Ids, regs: map<nat, Value>, env: seq<nat>, w: World, fuel: nat)
    requires StmtReady(p, pc, d, q, ctrl, s, labels, j, ids, env)
    ensures StmtAnswers(p, pc, q, ctrl, s, labels, ids, Run(pc, regs, env, w), env, fuel,
            Exec(p.m, s, labels, env, w, fuel))
    decreases fuel, s, 2
  {
    hide Exec, LowerStmt, Answers, Linear, OpsAt, Depth, Find;
    match s
    case Block(_) => BlockSim(p, pc, d, q, ctrl, s, labels, j, ids, regs, env, w, fuel);
    case If(_, _, _) => IfSim(p, pc, d, q, ctrl, s, labels, j, ids, regs, env, w, fuel);
    case While(_, _) => WhileStmtSim(p, pc, d, q, ctrl, s, labels, j, ids, regs, env, w, fuel);
    case DoWhile(_, _) => DoStmtSim(p, pc, d, q, ctrl, s, labels, j, ids, regs, env, w, fuel);
    case For(_, _, _, _) =>
      if IsLexicalFor(s) { LexicalStmtSim(p, pc, d, q, ctrl, s, labels, j, ids, regs, env, w, fuel); }
      else { ForStmtSim(p, pc, d, q, ctrl, s, labels, j, ids, regs, env, w, fuel); }
    case Switch(_, _) => SwitchSim(p, pc, d, q, ctrl, s, labels, j, ids, regs, env, w, fuel);
    case Labeled(_, _) => LabeledSim(p, pc, d, q, ctrl, s, labels, j, ids, regs, env, w, fuel);
    case Break(_) => JumpStmtSim(p, pc, d, q, ctrl, s, labels, j, ids, regs, env, w, fuel);
    case Continue(_) => JumpStmtSim(p, pc, d, q, ctrl, s, labels, j, ids, regs, env, w, fuel);
    case Empty => EmptySim(p, pc, d, q, ctrl, s, labels, j, ids, regs, env, w, fuel);
    case ExprStmt(_) => ExprLeafSim(p, pc, d, q, ctrl, s, labels, j, ids, regs, env, w, fuel);
    case Decl(_, _) => DeclSim(p, pc, d, q, ctrl, s, labels, j, ids, regs, env, w, fuel);
    case Return(_) | Throw(_) => EndLeafSim(p, pc, d, q, ctrl, s, labels, j, ids, regs, env, w, fuel);
    case Try(_, _, _) => assert false;
  }

  lemma ArrivesHere(p: Program, pc: nat, regs: map<nat, Value>, env: seq<nat>, w: World)
    ensures Arrives(p, Run(pc, regs, env, w), pc, env, w)
  {
    Refl(p, Run(pc, regs, env, w));
  }

  lemma ExprStmtAnswers(p: Program, pc: nat, q: seq<nat>, ctrl: seq<ControlTarget>, e: Expr, ids: Ids, c: Config,
                        env: seq<nat>, w: World, fuel: nat)
    requires var (a, w1) := Eval(p.m.host, e, env, w);
             && (a.Throws? ==> Reaches(p, c, Done(Thrown(a.v), w1)))
             && (a.Ok? ==> Arrives(p, c, pc + Size(LowerExprStmt(q, e, ids).code), env, w1))
    ensures Answers(p, ctrl, [], c, pc + Size(LowerExprStmt(q, e, ids).code), env, fuel, ExecExpr(p.m, e, env, w))
  {
    hide LowerExprStmt, Linear, Arrives, Reaches;
    var (a, w1) := Eval(p.m.host, e, env, w);
    assert ExecExpr(p.m, e, env, w) == if a.Throws? then (ThrowWith(a.v), w1) else (Normal, w1);
  }

  // Statements without statements inside them.

  lemma EmptySim(p: Program, pc: nat, d: nat, q: seq<nat>, ctrl: seq<ControlTarget>, s: Stmt, labels: seq<string>,
                 j: Jumps,
                ids: Ids, regs: map<nat, Value>, env: seq<nat>, w: World, fuel: nat)
    requires s.Empty? && StmtReady(p, pc, d, q, ctrl, s, labels, j, ids, env)
    ensures StmtAnswers(p, pc, q, ctrl, s, labels, ids, Run(pc, regs, env, w), env, fuel,
            Exec(p.m, s, labels, env, w, fuel))
  {
    hide LowerExpr, Eval, OpsAt, Depth, Find, Reaches;
    ArrivesHere(p, pc, regs, env, w);
    assert LowerStmt(q, ctrl, [], s, ids).code == [] && Linear([]) == [];
  }

  lemma ExprLeafSim(p: Program, pc: nat, d: nat, q: seq<nat>, ctrl: seq<ControlTarget>, s: Stmt, labels: seq<string>,
                    j: Jumps,
                ids: Ids, regs: map<nat, Value>, env: seq<nat>, w: World, fuel: nat)
    requires s.ExprStmt? && StmtReady(p, pc, d, q, ctrl, s, labels, j, ids, env)
    ensures StmtAnswers(p, pc, q, ctrl, s, labels, ids, Run(pc, regs, env, w), env, fuel,
            Exec(p.m, s, labels, env, w, fuel))
  {
    hide LowerExpr, Eval, OpsAt, Depth, Find, Reaches;
    ExprStmtSim(p, pc, d, q, s.expr, ids, regs, env, w);
    ExprStmtAnswers(p, pc, q, ctrl, s.expr, ids, Run(pc, regs, env, w), env, w, fuel);
  }

  lemma DeclSim(p: Program, pc: nat, d: nat, q: seq<nat>, ctrl: seq<ControlTarget>, s: Stmt, labels: seq<string>,
                j: Jumps,
                ids: Ids, regs: map<nat, Value>, env: seq<nat>, w: World, fuel: nat)
    requires s.Decl? && StmtReady(p, pc, d, q, ctrl, s, labels, j, ids, env)
    ensures StmtAnswers(p, pc, q, ctrl, s, labels, ids, Run(pc, regs, env, w), env, fuel,
            Exec(p.m, s, labels, env, w, fuel))
  {
    hide LowerExpr, Eval, OpsAt, Depth, Find, Reaches;
    DeclsSim(p, pc, d, q, s.kind, s.decls, ids, regs, env, w);
  }

  lemma EndLeafSim(p: Program, pc: nat, d: nat, q: seq<nat>, ctrl: seq<ControlTarget>, s: Stmt, labels: seq<string>,
                   j: Jumps,
                ids: Ids, regs: map<nat, Value>, env: seq<nat>, w: World, fuel: nat)
    requires (s.Return? || s.Throw?) && StmtReady(p, pc, d, q, ctrl, s, labels, j, ids, env)
    ensures StmtAnswers(p, pc, q, ctrl, s, labels, ids, Run(pc, regs, env, w), env, fuel,
            Exec(p.m, s, labels, env, w, fuel))
  {
    hide LowerExpr, Eval, OpsAt, Depth, Find, Reaches;
    if s.Return? { ReturnSim(p, pc, d, q, s.arg, ids, regs, env, w); }
        else { ThrowSim(p, pc, d, q, s.expr, ids, regs, env, w); }
  }

  /** A jump in its place takes the run to its label. */
  lemma JumpGoes(p: Program, pc: nat, d: nat, l: Label, regs: map<nat, Value>, env: seq<nat>, w: World)
    requires At(p, pc, d, [Jump(l)]) && p.m.base > 0 && |env| == p.m.base + d && Reachable(p, l, d)
    ensures Lands(p, Run(pc, regs, env, w), Some(l), env, w)
  {
    hide At, Reachable, Depth;
    OpOf(p, pc, d, [Jump(l)], 0);
    JumpLands(p, pc, l, regs, env, w);
  }

  lemma JumpStmtSim(p: Program, pc: nat, d: nat, q: seq<nat>, ctrl: seq<ControlTarget>, s: Stmt, labels: seq<string>,
                    j: Jumps,
                    ids: Ids, regs: map<nat, Value>, env: seq<nat>, w: World, fuel: nat)
    requires (s.Break? || s.Continue?) && StmtReady(p, pc, d, q, ctrl, s, labels, j, ids, env)
    ensures StmtAnswers(p, pc, q, ctrl, s, labels, ids, Run(pc, regs, env, w), env, fuel,
            Exec(p.m, s, labels, env, w, fuel))
  {
    hide At, Reachable, Lands, TargetsOk, UniqueLabels;
    var l := if s.Break? then ResolveBreak(ctrl, s.target) else ResolveContinue(ctrl, s.target);
    BreakReachable(p, ctrl, d, s.target);
    JumpGoes(p, pc, d, l.value, regs, env, w);
  }

  lemma ReturnSim(p: Program, pc: nat, d: nat, q: seq<nat>, arg: Option<Expr>, ids: Ids, regs: map<nat, Value>,
                  env: seq<nat>, w: World)
    requires UniqueLabels(p.ops) && At(p, pc, d, LowerReturn(q, arg, ids).code)
    ensures var (r, w1) := ExecReturn(p.m, arg, env, w);
            Reaches(p, Run(pc, regs, env, w), Done(if r.ReturnWith? then Returned(r.v) else Thrown(r.v), w1))
  {
    hide Eval, LowerExpr, Exec, LowerStmt, At, UniqueLabels;
    var c := Run(pc, regs, env, w);
    if arg.None? {
      OpOf(p, pc, d, [ReturnInstr(None)], 0);
      One(p, c, Done(Returned(Undefined), w));
    } else {
      var x := LowerExpr(q, arg.value, ids);
      ExprTail(p, pc, d, q, arg.value, ids, [ReturnInstr(Some(x.value))]);
      OpOf(p, pc + |x.code|, d, [ReturnInstr(Some(x.value))], 0);
      var regs1 := ExprSim(p, pc, d, q, arg.value, ids, regs, env, w);
      var (a, w1) := Eval(p.m.host, arg.value, env, w);
      if a.Ok? {
        One(p, Run(pc + |x.code|, regs1, env, w1), Done(Returned(a.v), w1));
        Trans(p, c, Run(pc + |x.code|, regs1, env, w1), Done(Returned(a.v), w1));
      }
    }
  }

  lemma ThrowSim(p: Program, pc: nat, d: nat, q: seq<nat>, e: Expr, ids: Ids, regs: map<nat, Value>, env: seq<nat>,
                 w: World)
    requires UniqueLabels(p.ops) && At(p, pc, d, LowerThrow(q, e, ids).code)
    ensures var (r, w1) := ExecThrow(p.m, e, env, w);
            Reaches(p, Run(pc, regs, env, w), Done(Thrown(r.v), w1))
  {
    hide Eval, LowerExpr, Reaches, UniqueLabels, At;
    var c := Run(pc, regs, env, w);
    var x := LowerExpr(q, e, ids);
    ExprTail(p, pc, d, q, e, ids, [ThrowInstr(x.value)]);
    OpOf(p, pc + |x.code|, d, [ThrowInstr(x.value)], 0);
    var regs1 := ExprSim(p, pc, d, q, e, ids, regs, env, w);
    var (a, w1) := Eval(p.m.host, e, env, w);
    if a.Ok? {
      One(p, Run(pc + |x.code|, regs1, env, w1), Done(Thrown(a.v), w1));
      Trans(p, c, Run(pc + |x.code|, regs1, env, w1), Done(Thrown(a.v), w1));
    }
  }

  // ---- lists and blocks -------------------------------------------------------------

  ghost predicate ListReady(p: Program, pc: nat, d: nat, q: seq<nat>, ctrl: seq<ControlTarget>, ss: seq<Stmt>, j: Jumps,
                            ids: Ids, env: seq<nat>) {
    && Ready(p, pc, d, ctrl, LowerList(q, ctrl, ss, ids).code, j) && ListWellFormed(ss, j) && |env| == p.m.base + d
  }

  lemma {:induction false} ListSim(p: Program, pc: nat, d: nat, q: seq<nat>, ctrl: seq<ControlTarget>, ss: seq<Stmt>,
                                   j: Jumps,
                                   ids: Ids, c: Config, env: seq<nat>, w: World, fuel: nat)
    requires ListReady(p, pc, d, q, ctrl, ss, j, ids, env) && Arrives(p, c, pc, env, w)
    ensures Answers(p, ctrl, [], c, pc + Size(LowerList(q, ctrl, ss, ids).code), env, fuel,
            ExecList(p.m, ss, env, w, fuel))
    decreases fuel, ss, 1
  {
    hide LowerStmt, At, Covers, LinearOne, RunN, Step, TargetsOk, UniqueLabels, WellFormed;
    if ss != [] {
      var a := LowerStmt(q, ctrl, [], ss[0], ids);
      var b := LowerList(q, ctrl, ss[1..], a.ids);
      StmtKeeps(q, ctrl, [], ss[0], ids);
      KeepSplit(p, pc, d, a.code, b.code);
      var r := Exec(p.m, ss[0], [], env, w, fuel);
      StmtFrom(p, pc, d, q, ctrl, ss[0], j, ids, c, env, w, fuel);
      if r.0.Normal? {
        ListSim(p, pc + Size(a.code), d, q, ctrl, ss[1..], j, a.ids, c, env, r.1, fuel);
      }
    }
  }

  /** A statement without labels of its own, from wherever a run arrives at it. */
  lemma {:induction false} StmtFrom(p: Program, pc: nat, d: nat, q: seq<nat>, ctrl: seq<ControlTarget>, s: Stmt,
                                    j: Jumps,
                                    ids: Ids, c: Config, env: seq<nat>, w: World, fuel: nat)
    requires StmtReady(p, pc, d, q, ctrl, s, [], j, ids, env) && Arrives(p, c, pc, env, w)
    ensures Answers(p, ctrl, [], c, pc + Size(LowerStmt(q, ctrl, [], s, ids).code), env, fuel,
            Exec(p.m, s, [], env, w, fuel))
    decreases fuel, s, 3
  {
    hide Eval, LowerExpr, Exec, LowerStmt;
    var regs :| Reaches(p, c, Run(pc, regs, env, w));
    StmtSim(p, pc, d, q, ctrl, s, [], j, ids, regs, env, w, fuel);
    AnswersVia(p, ctrl, [], c, Run(pc, regs, env, w), pc + Size(LowerStmt(q, ctrl, [], s, ids).code), env, fuel,
        Exec(p.m, s, [], env, w, fuel));
  }

  lemma {:induction false} BlockSim(p: Program, pc: nat, d: nat, q: seq<nat>, ctrl: seq<ControlTarget>, s: Stmt,
                                    labels: seq<string>, j: Jumps,
                                    ids: Ids, regs: map<nat, Value>, env: seq<nat>, w: World, fuel: nat)
    requires s.Block? && StmtReady(p, pc, d, q, ctrl, s, labels, j, ids, env)
    ensures StmtAnswers(p, pc, q, ctrl, s, labels, ids, Run(pc, regs, env, w), env, fuel,
            Exec(p.m, s, labels, env, w, fuel))
    decreases fuel, s, 1
  {
    hide Linear, LinearOne, Depth, OpsAt, Eval, LowerExpr, Reaches, Lasts, StepOp;
    assert LowerStmt(q, ctrl, [], s, ids) == LowerBlockScope(q, ctrl, s, ids);
    var b := LowerList(q, ctrl, s.body, ids);
    var c := Run(pc, regs, env, w);
    var env1, w1 := env + [|w.heap|], PushFrame(w);
    ScopeLay(p, pc, d, b.code);
    TargetsDeeper(p, ctrl, d, d + 1);
    EnterStep(p, pc, regs, env, w);
    ListSim(p, pc + 1, d + 1, q, ctrl, s.body, j, ids, c, env1, w1, fuel);
    LeaveAnswers(p, ctrl, [], c, pc + 1 + Size(b.code), env, |w.heap|, d, fuel, ExecList(p.m, s.body, env1, w1, fuel));
  }

  // ---- conditionals, labels -----------------------------------------------------------

  predicate IfLaid(p: Program, pc: nat, d: nat, els: Label, end: Label, x: seq<Instr>, y: seq<Instr>, z: seq<Instr>) {
    var pcJ := pc + Size(x) + Size(y);
    && At(p, pc, d, x) && At(p, pc + Size(x), d, y) && JumpsTo(p, pcJ, d, end) && Marks(p, pcJ + 1, d, els)
    && At(p, pcJ + 2, d, z) && Marks(p, pcJ + 2 + Size(z), d, end)
  }

  lemma IfLay(p: Program, pc: nat, d: nat, els: Label, end: Label, x: seq<Instr>, y: seq<Instr>, z: seq<Instr>)
    requires Keeps(x) && Keeps(y) && Keeps(z)
    requires At(p, pc, d, x + (y + ([Jump(end), LabelAt(els)] + (z + [LabelAt(end)]))))
    ensures IfLaid(p, pc, d, els, end, x, y, z)
    ensures Size(x + (y + ([Jump(end), LabelAt(els)] + (z + [LabelAt(end)])))) == Size(x) + Size(y) + 2 + Size(z) + 1
  {
    hide Depth, DepthFrom, OpsAt, At, Keeps;
    var mid := [Jump(end), LabelAt(els)];
    KeepSplit(p, pc, d, x, y + (mid + (z + [LabelAt(end)])));
    KeepSplit(p, pc + Size(x), d, y, mid + (z + [LabelAt(end)]));
    var pcJ := pc + Size(x) + Size(y);
    PlainKeeps(mid);
    KeepSplit(p, pcJ, d, mid, z + [LabelAt(end)]);
    JumpLabelLay(p, pcJ, d, end, els);
    KeepSplit(p, pcJ + 2, d, z, [LabelAt(end)]);
    assert [LabelAt(end)] == [LabelAt(end)] + [];
    LabelLay(p, pcJ + 2 + Size(z), d, end, []);
  }

  lemma {:induction false} IfSim(p: Program, pc: nat, d: nat, q: seq<nat>, ctrl: seq<ControlTarget>, s: Stmt,
                                 labels: seq<string>, j: Jumps,
                                 ids: Ids, regs: map<nat, Value>, env: seq<nat>, w: World, fuel: nat)
    requires s.If? && StmtReady(p, pc, d, q, ctrl, s, labels, j, ids, env)
    ensures StmtAnswers(p, pc, q, ctrl, s, labels, ids, Run(pc, regs, env, w), env, fuel,
            Exec(p.m, s, labels, env, w, fuel))
    decreases fuel, s, 1
  {
    hide Linear, LinearOne, DepthFrom, Depth, OpsAt, Eval, LowerExpr, Reaches, Lasts, StepOp, LowerTest;
    assert LowerStmt(q, ctrl, [], s, ids) == LowerIf(q, ctrl, s, ids);
    assert Exec(p.m, s, labels, env, w, fuel) == ExecIf(p.m, s, env, w, fuel);
    var els, end := L(q, "if_else", ids, 0), L(q, "if_end", ids, 1);
    var x := LowerTest(q, Some(s.test), els, Labels(ids, 2));
    var y := LowerStmt(q, ctrl, [], s.cons, x.ids);
    var z := match s.alt case Some(b) => LowerStmt(q, ctrl, [], b, y.ids) case None => Lowered([], y.ids);
    var c := Run(pc, regs, env, w);
    TestPlain(q, Some(s.test), els, Labels(ids, 2));
    PlainKeeps(x.code);
    StmtKeeps(q, ctrl, [], s.cons, x.ids);
    if s.alt.Some? { StmtKeeps(q, ctrl, [], s.alt.value, y.ids); } else { PlainKeeps([]); }
    IfLay(p, pc, d, els, end, x.code, y.code, z.code);
    Refl(p, c);
    TestFrom(p, c, pc, d, q, Some(s.test), els, pc + Size(x.code) + Size(y.code) + 1, Labels(ids, 2), env, w);
    var (a, w1) := Eval(p.m.host, s.test, env, w);
    if a.Ok? {
      if Truthy(a.v) { IfThen(p, pc, d, q, ctrl, s.cons, j, els, end, x, y, z.code, c, env, w1, fuel); }
      else { IfElse(p, pc, d, q, ctrl, s.alt, j, els, end, x.code, y, z, c, env, w1, fuel); }
    }
  }

  lemma {:induction false} IfThen(p: Program, pc: nat, d: nat, q: seq<nat>, ctrl: seq<ControlTarget>, s: Stmt, j: Jumps,
                                  els: Label, end: Label,
                                  x: Lowered, y: Lowered, z: seq<Instr>, c: Config, env: seq<nat>, w: World, fuel: nat)
    requires StmtReady(p, pc + Size(x.code), d, q, ctrl, s, [], j, x.ids, env) && y == LowerStmt(q, ctrl, [], s, x.ids)
    requires IfLaid(p, pc, d, els, end, x.code, y.code, z) && Arrives(p, c, pc + Size(x.code), env, w)
    ensures Answers(p, ctrl, [], c, pc + Size(x.code) + Size(y.code) + 2 + Size(z) + 1, env, fuel,
            Exec(p.m, s, [], env, w, fuel))
    decreases fuel, s, 4
  {
    hide Exec, LowerStmt, Linear, LinearOne, Depth, OpsAt;
    var pcJ := pc + Size(x.code) + Size(y.code);
    var r := Exec(p.m, s, [], env, w, fuel);
    StmtFrom(p, pc + Size(x.code), d, q, ctrl, s, j, x.ids, c, env, w, fuel);
    if r.0.Normal? {
      BackJump(p, c, pcJ, end, pcJ + 2 + Size(z), d, env, r.1);
      PassLabel(p, c, pcJ + 2 + Size(z), env, r.1);
    }
  }

  lemma {:induction false} IfElse(p: Program, pc: nat, d: nat, q: seq<nat>, ctrl: seq<ControlTarget>, alt: Option<Stmt>,
                                  j: Jumps, els: Label, end: Label,
                                  x: seq<Instr>, y: Lowered, z: Lowered, c: Config, env: seq<nat>, w: World, fuel: nat)
    requires UniqueLabels(p.ops) && p.m.base > 0 && TargetsOk(p, ctrl, d) && Covers(ctrl, j) && |env| == p.m.base + d
    requires alt.Some? ==> WellFormed(alt.value, [], j)
    requires z == match alt case Some(b) => LowerStmt(q, ctrl, [], b, y.ids) case None => Lowered([], y.ids)
    requires IfLaid(p, pc, d, els, end, x, y.code, z.code) && Arrives(p, c, pc + Size(x) + Size(y.code) + 1, env, w)
    ensures Answers(p, ctrl, [], c, pc + Size(x) + Size(y.code) + 2 + Size(z.code) + 1, env, fuel,
                    match alt case Some(b) => Exec(p.m, b, [], env, w, fuel) case None => (Normal, w))
    decreases fuel, alt, 4
  {
    hide Eval, LowerExpr, Exec, LowerStmt, WellFormed, Arrives;
    var pcZ := pc + Size(x) + Size(y.code) + 2;
    PassLabel(p, c, pcZ - 1, env, w);
    var w' := w;
    if alt.Some? {
      StmtFrom(p, pcZ, d, q, ctrl, alt.value, j, y.ids, c, env, w, fuel);
      w' := Exec(p.m, alt.value, [], env, w, fuel).1;
    }
    if alt.None? || Exec(p.m, alt.value, [], env, w, fuel).0.Normal? {
      PassLabel(p, c, pcZ + Size(z.code), env, w');
    }
  }

  lemma {:induction false} LabeledSim(p: Program, pc: nat, d: nat, q: seq<nat>, ctrl: seq<ControlTarget>, s: Stmt,
                                      labels: seq<string>, j: Jumps,
                                      ids: Ids, regs: map<nat, Value>, env: seq<nat>, w: World, fuel: nat)
    requires s.Labeled? && StmtReady(p, pc, d, q, ctrl, s, labels, j, ids, env)
    ensures StmtAnswers(p, pc, q, ctrl, s, labels, ids, Run(pc, regs, env, w), env, fuel,
            Exec(p.m, s, labels, env, w, fuel))
    decreases fuel, s, 1
  {
    hide Linear, LinearOne, Depth, OpsAt, Eval, LowerExpr, Reaches, Lasts, StepOp;
    assert LowerStmt(q, ctrl, Own(s, labels), s, ids) == LowerLabeled(q, ctrl, Own(s, labels), s, ids);
    assert Exec(p.m, s, labels, env, w, fuel) == ExecLabeled(p.m, s, labels, env, w, fuel);
    var c := Run(pc, regs, env, w);
    if IsControlTarget(s.stmt) {
      StmtSim(p, pc, d, q, ctrl, s.stmt, labels + [s.name], j, ids, regs, env, w, fuel);
    } else {
      LabelEndSim(p, pc, d, q, ctrl, s.name, s.stmt, labels, j, ids, regs, env, w, fuel);
    }
  }

  lemma {:induction false} LabelEndSim(p: Program, pc: nat, d: nat, q: seq<nat>, ctrl: seq<ControlTarget>, name: string,
                                       body: Stmt, labels: seq<string>, j: Jumps,
                                       ids: Ids, regs: map<nat, Value>, env: seq<nat>, w: World, fuel: nat)
    requires !IsControlTarget(body) && WellFormed(body, [], j.(breaks := j.breaks + {Some(name)}))
             && |env| == p.m.base + d
    requires var end := L(q, "label_end", ids, 0);
             var y := LowerStmt(q, ctrl + [ControlTarget(Some(name), end, None)], [], body, Labels(ids, 1));
             Ready(p, pc, d, ctrl, y.code + [LabelAt(end)], j)
    ensures var end := L(q, "label_end", ids, 0);
            var y := LowerStmt(q, ctrl + [ControlTarget(Some(name), end, None)], [], body, Labels(ids, 1));
            var r := Exec(p.m, body, labels + [name], env, w, fuel);
            Answers(p, ctrl, [], Run(pc, regs, env, w), pc + Size(y.code + [LabelAt(end)]), env, fuel,
                    (if r.0 == BreakTo(Some(name)) then Normal else r.0, r.1))
    decreases fuel, body, 3
  {
    hide Exec, LowerStmt, Depth, Declare, Find, LinearOne, Reachable, Step, WellFormed, Answers;
    var end := L(q, "label_end", ids, 0);
    var ctrl' := ctrl + [ControlTarget(Some(name), end, None)];
    var y := LowerStmt(q, ctrl', [], body, Labels(ids, 1));
    var j' := j.(breaks := j.breaks + {Some(name)});
    StmtKeeps(q, ctrl', [], body, Labels(ids, 1));
    KeepSplit(p, pc, d, y.code, [LabelAt(end)]);
    assert [LabelAt(end)] == [LabelAt(end)] + [];
    LabelLay(p, pc + Size(y.code), d, end, []);
    MarksReachable(p, pc + Size(y.code), d, end);
    LabelCovers(p, ctrl, name, end, d, j);
    StmtSim(p, pc, d, q, ctrl', body, labels + [name], j', Labels(ids, 1), regs, env, w, fuel);
    LabelEndAnswers(p, ctrl, name, end, pc + Size(y.code), d, Run(pc, regs, env, w), env, fuel,
        Exec(p.m, body, labels + [name], env, w, fuel));
  }

  lemma LabelCovers(p: Program, ctrl: seq<ControlTarget>, name: string, end: Label, d: nat, j: Jumps)
    requires TargetsOk(p, ctrl, d) && Covers(ctrl, j) && Reachable(p, end, d)
    ensures var ctrl' := ctrl + [ControlTarget(Some(name), end, None)];
            TargetsOk(p, ctrl', d) && Covers(ctrl', j.(breaks := j.breaks + {Some(name)}))
  {
    var ctrl' := ctrl + [ControlTarget(Some(name), end, None)];
    assert ctrl'[..|ctrl'| - 1] == ctrl;
  }

  lemma LabelEndAnswers(p: Program, ctrl: seq<ControlTarget>, name: string, end: Label, at: nat, d: nat, c: Config,
                        env: seq<nat>, fuel: nat, r: (Completion, World))
    requires UniqueLabels(p.ops) && |env| == p.m.base + d && Marks(p, at, d, end)
    requires Answers(p, ctrl + [ControlTarget(Some(name), end, None)], [], c, at, env, fuel, r)
    ensures Answers(p, ctrl, [], c, at + 1, env, fuel, (if r.0 == BreakTo(Some(name)) then Normal else r.0, r.1))
  {
    var ctrl' := ctrl + [ControlTarget(Some(name), end, None)];
    assert ctrl'[..|ctrl'| - 1] == ctrl;
    assert env[..p.m.base + d] == env;
    MarksReachable(p, at, d, end);
    if r.0.Normal? || r.0 == BreakTo(Some(name)) { PassLabel(p, c, at, env, r.1); }
  }

  // ---- loops, as statements -----------------------------------------------------------

  lemma {:induction false} WhileStmtSim(p: Program, pc: nat, d: nat, q: seq<nat>, ctrl: seq<ControlTarget>, s: Stmt,
                                        labels: seq<string>, j: Jumps,
                                        ids: Ids, regs: map<nat, Value>, env: seq<nat>, w: World, fuel: nat)
    requires s.While? && StmtReady(p, pc, d, q, ctrl, s, labels, j, ids, env)
    ensures StmtAnswers(p, pc, q, ctrl, s, labels, ids, Run(pc, regs, env, w), env, fuel,
            Exec(p.m, s, labels, env, w, fuel))
    decreases fuel, s, 1
  {
    hide Linear, LinearOne, DepthFrom, Depth, OpsAt, L;
    assert LowerStmt(q, ctrl, labels, s, ids) == LowerWhile(q, ctrl, labels, s, ids);
    var start, end := L(q, "while_start", ids, 0), L(q, "while_end", ids, 1);
    var x := LowerTest(q, Some(s.test), end, Labels(ids, 2));
    var ctrl' := PushTargets(ctrl, labels, end, Some(start));
    var y := LowerStmt(q, ctrl', [], s.stmt, x.ids);
    TestPlain(q, Some(s.test), end, Labels(ids, 2));
    PlainKeeps(x.code);
    StmtKeeps(q, ctrl', [], s.stmt, x.ids);
    WhileLay(p, pc, d, start, end, x.code, y.code);
    WhileSim(p, pc, d, q, ctrl, s.test, s.stmt, labels, j, start, end, Labels(ids, 2), x, y, regs, env, w, fuel);
  }

  lemma {:induction false} DoStmtSim(p: Program, pc: nat, d: nat, q: seq<nat>, ctrl: seq<ControlTarget>, s: Stmt,
                                     labels: seq<string>, j: Jumps,
                                     ids: Ids, regs: map<nat, Value>, env: seq<nat>, w: World, fuel: nat)
    requires s.DoWhile? && StmtReady(p, pc, d, q, ctrl, s, labels, j, ids, env)
    ensures StmtAnswers(p, pc, q, ctrl, s, labels, ids, Run(pc, regs, env, w), env, fuel,
            Exec(p.m, s, labels, env, w, fuel))
    decreases fuel, s, 1
  {
    hide Linear, LinearOne, DepthFrom, Depth, OpsAt, L;
    assert LowerStmt(q, ctrl, labels, s, ids) == LowerDoWhile(q, ctrl, labels, s, ids);
    var start, test, end := L(q, "do_start", ids, 0), L(q, "do_test", ids, 1), L(q, "do_end", ids, 2);
    var ctrl' := PushTargets(ctrl, labels, end, Some(test));
    var y := LowerStmt(q, ctrl', [], s.stmt, Labels(ids, 3));
    var x := LowerTest(q, Some(s.test), end, y.ids);
    StmtKeeps(q, ctrl', [], s.stmt, Labels(ids, 3));
    TestPlain(q, Some(s.test), end, y.ids);
    PlainKeeps(x.code);
    DoLay(p, pc, d, start, test, end, x.code, y.code);
    DoWhileSim(p, pc, d, q, ctrl, s.test, s.stmt, labels, j, start, test, end, Labels(ids, 3), x, y, regs, env, w,
        fuel);
  }

  lemma {:induction false} ForStmtSim(p: Program, pc: nat, d: nat, q: seq<nat>, ctrl: seq<ControlTarget>, s: Stmt,
                                      labels: seq<string>, j: Jumps,
                                      ids: Ids, regs: map<nat, Value>, env: seq<nat>, w: World, fuel: nat)
    requires s.For? && !IsLexicalFor(s) && StmtReady(p, pc, d, q, ctrl, s, labels, j, ids, env)
    ensures StmtAnswers(p, pc, q, ctrl, s, labels, ids, Run(pc, regs, env, w), env, fuel,
            Exec(p.m, s, labels, env, w, fuel))
    decreases fuel, s, 1
  {
    hide Linear, Depth, OpsAt, Eval, LowerExpr, Reaches, Lasts, StepOp, LowerInit, ExecForStmt;
    assert LowerStmt(q, ctrl, labels, s, ids) == LowerForUnscoped(q, ctrl, labels, s, ids);
    assert Exec(p.m, s, labels, env, w, fuel) == ExecForStmt(p.m, s, labels, env, w, fuel);
    var i := LowerInit(q, s.init, ids);
    var start, next, end := L(q, "for_start", i.ids, 0), L(q, "for_update", i.ids, 1), L(q, "for_end", i.ids, 2);
    var x := LowerTest(q, s.guard, end, Labels(i.ids, 3));
    var ctrl' := PushTargets(ctrl, labels, end, Some(next));
    var y := LowerStmt(q, ctrl', [], s.stmt, x.ids);
    var z := LowerUpdate(q, s.update, y.ids);
    InitPlain(q, s.init, ids);
    TestPlain(q, s.guard, end, Labels(i.ids, 3));
    StmtKeeps(q, ctrl', [], s.stmt, x.ids);
    UpdatePlain(q, s.update, y.ids);
    ForStmtLay(p, pc, d, start, next, end, i.code, x.code, y.code, z.code);
    ForRun(p, pc, d, q, ctrl, s, labels, j, start, next, end, ids, i, x, y, z, regs, env, w, fuel);
  }

  lemma ForStmtLay(p: Program, pc: nat, d: nat, start: Label, next: Label, end: Label, i: seq<Instr>, x: seq<Instr>,
                   y: seq<Instr>, z: seq<Instr>)
    requires Plain(i) && Plain(x) && Keeps(y) && Plain(z)
    requires At(p, pc, d, i + ([LabelAt(start)] + (x + (y + ([LabelAt(next)] + (z + [Jump(start), LabelAt(end)]))))))
    ensures At(p, pc, d, i) && ForLaid(p, pc + Size(i), d, start, next, end, x, y, z)
    ensures Size(i + ([LabelAt(start)] + (x + (y + ([LabelAt(next)] + (z + [Jump(start), LabelAt(end)]))))))
         == Size(i) + 1 + Size(x) + Size(y) + 1 + Size(z) + 2
  {
    PlainKeeps(i);
    PlainKeeps(x);
    PlainKeeps(z);
    KeepSplit(p, pc, d, i, [LabelAt(start)] + (x + (y + ([LabelAt(next)] + (z + [Jump(start), LabelAt(end)])))));
    ForLay(p, pc + Size(i), d, start, next, end, x, y, z);
  }

  lemma {:induction false} ForRun(p: Program, pc: nat, d: nat, q: seq<nat>, ctrl: seq<ControlTarget>, s: Stmt,
                                  labels: seq<string>, j: Jumps,
                                  start: Label, next: Label, end: Label, ids: Ids, i: Lowered, x: Lowered, y: Lowered,
                                      z: Lowered,
                                  regs: map<nat, Value>, env: seq<nat>, w: World, fuel: nat)
    requires s.For? && !IsLexicalFor(s) && LoopReady(p, d, ctrl, labels, j, s.stmt) && |env| == p.m.base + d
    requires i == LowerInit(q, s.init, ids)
             && ForCode(q, ctrl, s.guard, s.update, s.stmt, labels, next, end, Labels(i.ids, 3), x, y, z)
    requires At(p, pc, d, i.code) && ForLaid(p, pc + Size(i.code), d, start, next, end, x.code, y.code, z.code)
    ensures Answers(p, ctrl, labels, Run(pc, regs, env, w),
            pc + Size(i.code) + 1 + Size(x.code) + Size(y.code) + 1 + Size(z.code) + 2, env, fuel,
                    ExecForStmt(p.m, s, labels, env, w, fuel))
    decreases fuel, s, 0
  {
    hide ExecFor, ExecPerIteration, InLoop, JumpsTo, Lands, Lasts, Linear, LowerDecls, LowerStmt, ResolveContinue;
    var pc1 := pc + Size(i.code);
    var c := Run(pc, regs, env, w);
    InitSim(p, pc, d, q, s.init, ids, regs, env, w);
    var (r, w1) := ExecInit(p.m, s.init, env, w);
    if r.Normal? {
      ForFrom(p, pc1, d, q, ctrl, s.guard, s.update, s.stmt, labels, j, start, next, end, Labels(i.ids, 3), x, y, z, c,
          env, w1, fuel);
    }
  }

  /** The code of `for (let ...)`, part by part. */
  lemma LexicalIs(q: seq<nat>, ctrl: seq<ControlTarget>, labels: seq<string>, s: Stmt, ids: Ids,
                  i: Lowered, k: Lowered, x: Lowered, y: Lowered, e: Lowered, z: Lowered)
    requires IsLexicalFor(s) && i == LowerInit(q, s.init, ids)
             && k == PerIteration(BoundNames(s.init.decls), false, i.ids)
    requires x == LowerTest(q, s.guard, L(q, "for_end", k.ids, 2), Labels(k.ids, 3))
    requires y == LowerStmt(q, PushTargets(ctrl, labels, L(q, "for_end", k.ids, 2), Some(L(q, "for_update", k.ids, 1))),
                            [], s.stmt, x.ids)
    requires e == PerIteration(BoundNames(s.init.decls), true, y.ids) && z == LowerUpdate(q, s.update, e.ids)
    ensures LowerStmt(q, ctrl, labels, s, ids)
         == Lowered([Scope(i.code + (k.code + Rounds(L(q, "for_start", k.ids, 0), L(q, "for_update", k.ids, 1),
                                                     L(q, "for_end", k.ids, 2), x.code, y.code, e.code, z.code)))],
                                                         z.ids)
  {
    hide LowerInit, PerIteration, LowerTest, LowerUpdate, PushTargets, BoundNames;
    assert LowerStmt(q, ctrl, labels, s, ids) == LowerForLexical(q, ctrl, labels, s, ids);
  }

  lemma ForIs(m: Setting, s: Stmt, labels: seq<string>, env: seq<nat>, w: World, fuel: nat)
    requires s.For?
    ensures Exec(m, s, labels, env, w, fuel) == ExecForStmt(m, s, labels, env, w, fuel)
  {
  }

  lemma {:induction false} LexicalStmtSim(p: Program, pc: nat, d: nat, q: seq<nat>, ctrl: seq<ControlTarget>, s: Stmt,
                                          labels: seq<string>, j: Jumps,
                                          ids: Ids, regs: map<nat, Value>, env: seq<nat>, w: World, fuel: nat)
    requires IsLexicalFor(s) && StmtReady(p, pc, d, q, ctrl, s, labels, j, ids, env)
    ensures StmtAnswers(p, pc, q, ctrl, s, labels, ids, Run(pc, regs, env, w), env, fuel,
            Exec(p.m, s, labels, env, w, fuel))
    decreases fuel, s, 1
  {
    hide Linear, DepthFrom, Depth, OpsAt, Plain, LowerTest, LowerUpdate, LowerInit, Eval, L, LowerStmt, PerIteration,
         Exec, ExecForStmt;
    ForIs(p.m, s, labels, env, w, fuel);
    var names := BoundNames(s.init.decls);
    var i := LowerInit(q, s.init, ids);
    var k := PerIteration(names, false, i.ids);
    var start, next, end := L(q, "for_start", k.ids, 0), L(q, "for_update", k.ids, 1), L(q, "for_end", k.ids, 2);
    var x := LowerTest(q, s.guard, end, Labels(k.ids, 3));
    var ctrl' := PushTargets(ctrl, labels, end, Some(next));
    var y := LowerStmt(q, ctrl', [], s.stmt, x.ids);
    var e := PerIteration(names, true, y.ids);
    var z := LowerUpdate(q, s.update, e.ids);
    LexicalIs(q, ctrl, labels, s, ids, i, k, x, y, e, z);
    InitPlain(q, s.init, ids);
    TestPlain(q, s.guard, end, Labels(k.ids, 3));
    StmtKeeps(q, ctrl', [], s.stmt, x.ids);
    UpdatePlain(q, s.update, e.ids);
    PerIterationDepth(names, true, y.ids, d + 2);
    LexicalLay(p, pc, d, names, i.ids, start, next, end, i.code, x.code, y.code, e.code, z.code);
    LexicalRun(p, pc, d, q, ctrl, s, labels, j, start, next, end, ids, i, Labels(k.ids, 3), x, y, e, z, regs, env, w,
        fuel);
  }

  lemma {:induction false} LexicalRun(p: Program, pc: nat, d: nat, q: seq<nat>, ctrl: seq<ControlTarget>, s: Stmt,
                                      labels: seq<string>, j: Jumps,
                                      start: Label, next: Label, end: Label, ids: Ids, i: Lowered, ids1: Ids,
                                          x: Lowered, y: Lowered, e: Lowered, z: Lowered,
                                      regs: map<nat, Value>, env: seq<nat>, w: World, fuel: nat)
    requires IsLexicalFor(s) && LoopReady(p, d, ctrl, labels, j, s.stmt) && |env| == p.m.base + d
             && i == LowerInit(q, s.init, ids)
    requires LexicalCode(q, ctrl, BoundNames(s.init.decls), s.guard, s.update, s.stmt, labels, next, end, ids1, x, y, e,
             z)
    requires LexicalLaid(p, pc, d, BoundNames(s.init.decls), i.ids.temp, start, next, end, i.code, x.code, y.code,
             e.code, z.code)
    ensures Answers(p, ctrl, labels, Run(pc, regs, env, w),
                    pc + 1 + Size(i.code) + 3 * |s.init.decls| + 1 + RoundsSize(x.code, y.code, e.code, z.code) + 1,
                        env, fuel,
                    ExecForStmt(p.m, s, labels, env, w, fuel))
    decreases fuel, s, 0
  {
    hide Exec, Linear, LinearOne, Depth, LowerUpdate, Eval, LexicalCode, Bind, LowerOpt, Marks, Named, Reachable;
    var names := BoundNames(s.init.decls);
    var c := Run(pc, regs, env, w);
    var env1, w1 := env + [|w.heap|], PushFrame(w);
    var pcC := pc + 1 + Size(i.code);
    EnterStep(p, pc, regs, env, w);
    InitSim(p, pc + 1, d + 1, q, s.init, ids, regs, env1, w1);
    var r := ExecDecls(p.m, s.init.kind, s.init.decls, env1, w1);
    AnswersVia(p, [], [], c, Run(pc + 1, regs, env1, w1), pcC, env1, 0, r);
    if r.0.Normal? { LexicalRounds(p, pc, d, q, ctrl, s, labels, j, start, next, end, i, ids1, x, y, e, z, c, env,
        |w.heap|, r.1, fuel); }
  }

  /** After the bindings of a lexical `for` are made, in its own frame `f`. */
  lemma {:induction false} LexicalRounds(p: Program, pc: nat, d: nat, q: seq<nat>, ctrl: seq<ControlTarget>, s: Stmt,
                                         labels: seq<string>, j: Jumps,
                                         start: Label, next: Label, end: Label, i: Lowered, ids1: Ids, x: Lowered,
                                             y: Lowered, e: Lowered, z: Lowered,
                                         c: Config, env: seq<nat>, f: nat, w: World, fuel: nat)
    requires IsLexicalFor(s) && LoopReady(p, d, ctrl, labels, j, s.stmt) && |env| == p.m.base + d
    requires LexicalCode(q, ctrl, BoundNames(s.init.decls), s.guard, s.update, s.stmt, labels, next, end, ids1, x, y, e,
             z)
    requires LexicalLaid(p, pc, d, BoundNames(s.init.decls), i.ids.temp, start, next, end, i.code, x.code, y.code,
             e.code, z.code)
    requires Arrives(p, c, pc + 1 + Size(i.code), env + [f], w)
    ensures Answers(p, ctrl, labels, c,
            pc + 1 + Size(i.code) + 3 * |s.init.decls| + 1 + RoundsSize(x.code, y.code, e.code, z.code) + 1, env, fuel,
                    ExecPerIteration(p.m, BoundNames(s.init.decls), s.guard, s.update, s.stmt, labels, env + [f],
                        env + [f], false, w, fuel))
    decreases fuel, s.stmt, 9
  {
    hide ExecRound, InLoop, PushTargets, ResolveBreak, ResolveContinue, RoundsLaid, TargetsOk, UniqueLabels, WellFormed,
         Step;
    var names := BoundNames(s.init.decls);
    var pcC := pc + 1 + Size(i.code);
    TargetsDeeper(p, ctrl, d, d + 1);
    FirstIteration(p, pcC, d + 1, q, ctrl, names, s.guard, s.update, s.stmt, labels, j, start, next, end, i.ids.temp,
        ids1, x, y, e, z, c, env + [f], w, fuel);
    LeaveAnswers(p, ctrl, labels, c, pcC + 3 * |names| + 1 + RoundsSize(x.code, y.code, e.code, z.code), env, f, d,
        fuel,
                 ExecPerIteration(p.m, names, s.guard, s.update, s.stmt, labels, env + [f], env + [f], false, w, fuel));
  }

  // ---- switch ---------------------------------------------------------------------

  /** The label stands in the code at depth `d`. */
  predicate Stands(p: Program, l: Label, d: nat) {
    Find(p.ops, l, 0).Some? && Depth(p.ops, Find(p.ops, l, 0).value) == d
  }

  ghost predicate ArrivesLabel(p: Program, c: Config, l: Label, env: seq<nat>, w: World) {
    Find(p.ops, l, 0).Some? && Arrives(p, c, Find(p.ops, l, 0).value, env, w)
  }

  /** The comparison of one clause: a match goes to the clause, anything else on. */
  lemma CompareSim(p: Program, pc: nat, d: nat, disc: Operand, test: Operand, cmp: nat, next: Label, to: Label,
                   regs: map<nat, Value>, env: seq<nat>, w: World) returns (regs': map<nat, Value>)
    requires UniqueLabels(p.ops) && Stands(p, to, d) && Below(disc, cmp)
    requires At(p, pc, d, [BinaryInstr(cmp, "===", disc, test), JumpIfFalse(Register(cmp), next), Jump(to),
             LabelAt(next)])
    ensures var (b, w1) := BinaryOp(p.m.host, "===", Read(disc, regs), Read(test, regs), w);
            var c := Run(pc, regs, env, w);
            && (b.Throws? ==> Reaches(p, c, Done(Thrown(b.v), w1)))
            && (b.Ok? && Truthy(b.v) ==> Reaches(p, c, Run(Find(p.ops, to, 0).value, regs', env, w1)))
            && (b.Ok? && !Truthy(b.v) ==> Reaches(p, c, Run(pc + 4, regs', env, w1)))
            && Same(regs, regs', cmp)
  {
    hide Truthy, Stands, Depth, Linear;
    var code := [BinaryInstr(cmp, "===", disc, test), JumpIfFalse(Register(cmp), next), Jump(to), LabelAt(next)];
    var r := BinaryOp(p.m.host, "===", Read(disc, regs), Read(test, regs), w);
    var c := Run(pc, regs, env, w);
    AtPlain(p, pc, d, code);
    assert LinearOne(code[pc - pc]) == [p.ops[pc]];
    assert LinearOne(code[pc + 1 - pc]) == [p.ops[pc + 1]];
    assert LinearOne(code[pc + 2 - pc]) == [p.ops[pc + 2]];
    assert LinearOne(code[pc + 3 - pc]) == [p.ops[pc + 3]];
    regs' := if r.0.Ok? then regs[cmp := r.0.v] else regs;
    One(p, c, Finish(cmp, r, pc, regs, env));
    if r.0.Ok? { CompareBranch(p, pc, d, cmp, next, to, c, regs', env, r.1); }
  }

  lemma CompareBranch(p: Program, pc: nat, d: nat, cmp: nat, next: Label, to: Label, c: Config, regs: map<nat, Value>,
                      env: seq<nat>, w: World)
    requires UniqueLabels(p.ops) && Stands(p, to, d) && pc + 3 < |p.ops|
    requires p.ops[pc + 1] == OpJumpIfFalse(Register(cmp), next) && p.ops[pc + 2] == OpJump(to)
             && Marks(p, pc + 3, d, next)
    requires Depth(p.ops, pc + 1) == d == Depth(p.ops, pc + 2) && Reaches(p, c, Run(pc + 1, regs, env, w))
    ensures Reaches(p, c, Run(if Truthy(Read(Register(cmp), regs))
            then Find(p.ops, to, 0).value else pc + 4, regs, env, w))
  {
    BranchSim(p, pc + 1, d, Register(cmp), next, pc + 3, regs, env, w);
    if Truthy(Read(Register(cmp), regs)) {
      var t := Find(p.ops, to, 0).value;
      Trans(p, c, Run(pc + 1, regs, env, w), Run(pc + 2, regs, env, w));
      LocalJump(p, pc + 2, to, t, regs, env, w);
      One(p, Run(pc + 2, regs, env, w), Run(t, regs, env, w));
      Trans(p, c, Run(pc + 2, regs, env, w), Run(t, regs, env, w));
    } else {
      Trans(p, c, Run(pc + 1, regs, env, w), Run(pc + 3, regs, env, w));
      One(p, Run(pc + 3, regs, env, w), Run(pc + 4, regs, env, w));
      Trans(p, c, Run(pc + 3, regs, env, w), Run(pc + 4, regs, env, w));
    }
  }

  /** How the tests of a `switch`, from clause `k` on, answer the selection of a clause. */
  ghost predicate Selects(p: Program, c: Config, end: nat, labels: seq<Label>, env: seq<nat>, r: (Selected, World)) {
    match r.0
    case Failed(v) => Reaches(p, c, Done(Thrown(v), r.1))
    case Chosen(k) => k < |labels| && ArrivesLabel(p, c, labels[k], env, r.1)
    case NoCase => Arrives(p, c, end, env, r.1)
  }

  lemma SelectsVia(p: Program, a: Config, b: Config, end: nat, labels: seq<Label>, env: seq<nat>, r: (Selected, World))
    requires Reaches(p, a, b) && Selects(p, b, end, labels, env, r)
    ensures Selects(p, a, end, labels, env, r)
  {
    match r.0
    case Failed(v) => Trans(p, a, b, Done(Thrown(v), r.1));
    case Chosen(k) => ArrivesVia(p, a, b, Find(p.ops, labels[k], 0).value, env, r.1);
    case NoCase => ArrivesVia(p, a, b, end, env, r.1);
  }

  lemma {:induction false} TestsSim(p: Program, pc: nat, d: nat, q: seq<nat>, disc: Operand, v: Value, cases: seq<Case>,
                                    labels: seq<Label>, k: nat, ids: Ids,
                                    regs: map<nat, Value>, env: seq<nat>, w: World)
    requires UniqueLabels(p.ops) && k <= |cases| == |labels|
             && (forall i :: 0 <= i < |labels| ==> Stands(p, labels[i], d))
    requires At(p, pc, d, LowerTests(q, disc, cases[k..], labels[k..], ids).code) && Below(disc, ids.temp)
             && Read(disc, regs) == v
    ensures Selects(p, Run(pc, regs, env, w), pc + Size(LowerTests(q, disc, cases[k..], labels[k..], ids).code), labels,
            env,
                    MatchCase(p.m.host, v, cases, k, env, w))
    decreases |cases| - k, 2
  {
    hide EvalCond, EvalIncDec, EvalName, EvalSeq, EvalShortCircuit, EvalUnary, RunN, Step, Below;
    var c := Run(pc, regs, env, w);
    if k == |cases| {
      Refl(p, c);
      assert Arrives(p, c, pc, env, w);
    } else {
      assert cases[k..][1..] == cases[k + 1..] && labels[k..][1..] == labels[k + 1..];
      if cases[k].test.None? {
        TestsSim(p, pc, d, q, disc, v, cases, labels, k + 1, ids, regs, env, w);
      } else {
        OneTestSim(p, pc, d, q, disc, v, cases, labels, k, ids, regs, env, w);
      }
    }
  }

  lemma OneTestPlaced(p: Program, pc: nat, d: nat, q: seq<nat>, disc: Operand, cases: seq<Case>, labels: seq<Label>,
                      k: nat, ids: Ids)
    requires k < |cases| == |labels| && cases[k].test.Some?
             && At(p, pc, d, LowerTests(q, disc, cases[k..], labels[k..], ids).code)
    ensures var a := LowerExpr(q, cases[k].test.value, ids);
            var ids1 := Labels(Temp(a.ids), 1);
            var next := L(q, "switch_next", a.ids, 0);
            var b := LowerTests(q, disc, cases[k + 1..], labels[k + 1..], ids1);
            && ids.temp <= a.ids.temp && At(p, pc, d, a.code) && At(p, pc + |a.code| + 4, d, b.code)
            && At(p, pc + |a.code|, d,
               [BinaryInstr(a.ids.temp, "===", disc, a.value), JumpIfFalse(Register(a.ids.temp), next), Jump(labels[k]),
                   LabelAt(next)])
            && Size(LowerTests(q, disc, cases[k..], labels[k..], ids).code) == |a.code| + 4 + Size(b.code)
  {
    hide Eval, LowerExpr, Exec, LowerStmt;
    var a := LowerExpr(q, cases[k].test.value, ids);
    var cmp, next := a.ids.temp, L(q, "switch_next", a.ids, 0);
    var ids1 := Labels(Temp(a.ids), 1);
    assert cases[k..][1..] == cases[k + 1..] && labels[k..][1..] == labels[k + 1..];
    var b := LowerTests(q, disc, cases[k + 1..], labels[k + 1..], ids1);
    var m := [BinaryInstr(cmp, "===", disc, a.value), JumpIfFalse(Register(cmp), next), Jump(labels[k]), LabelAt(next)];
    ExprShape(q, cases[k].test.value, ids);
    TestsPlain(q, disc, cases[k + 1..], labels[k + 1..], ids1);
    OneTestLay(p, pc, d, a.code, m, b.code);
  }

  lemma {:induction false} OneTestSim(p: Program, pc: nat, d: nat, q: seq<nat>, disc: Operand, v: Value,
                                      cases: seq<Case>, labels: seq<Label>, k: nat, ids: Ids,
                                      regs: map<nat, Value>, env: seq<nat>, w: World)
    requires UniqueLabels(p.ops) && k < |cases| == |labels|
             && (forall i :: 0 <= i < |labels| ==> Stands(p, labels[i], d)) && cases[k].test.Some?
    requires At(p, pc, d, LowerTests(q, disc, cases[k..], labels[k..], ids).code) && Below(disc, ids.temp)
             && Read(disc, regs) == v
    ensures Selects(p, Run(pc, regs, env, w), pc + Size(LowerTests(q, disc, cases[k..], labels[k..], ids).code), labels,
            env,
                    MatchCase(p.m.host, v, cases, k, env, w))
    decreases |cases| - k, 1
  {
    hide Linear, Depth, OpsAt, Eval, LowerExpr, Reaches, StepOp;
    var a := LowerExpr(q, cases[k].test.value, ids);
    var end := pc + Size(LowerTests(q, disc, cases[k..], labels[k..], ids).code);
    var pc1 := pc + |a.code|;
    OneTestPlaced(p, pc, d, q, disc, cases, labels, k, ids);
    var regs1 := ExprSim(p, pc, d, q, cases[k].test.value, ids, regs, env, w);
    var (r, w1) := Eval(p.m.host, cases[k].test.value, env, w);
    if r.Ok? {
      assert Read(disc, regs1) == v;
      TestRest(p, pc1, d, q, disc, v, a.value, L(q, "switch_next", a.ids, 0), cases, labels, k, Labels(Temp(a.ids), 1),
          regs1, env, w1);
      SelectsVia(p, Run(pc, regs, env, w), Run(pc1, regs1, env, w1), end, labels, env,
          AfterTest(p.m.host, v, r.v, cases, k, env, w1));
    }
  }

  function AfterTest(h: Host, v: Value, r: Value, cases: seq<Case>, k: nat, env: seq<nat>, w: World): (Selected,
                     World) {
    var (b, w2) := BinaryOp(h, "===", v, r, w);
    if b.Throws? then (Failed(b.v), w2)
    else if Truthy(b.v) then (Chosen(k), w2)
    else MatchCase(h, v, cases, k + 1, env, w2)
  }

  /** The comparison of clause `k`, its test value in `test`, and the tests after it. */
  lemma {:induction false} TestRest(p: Program, pc: nat, d: nat, q: seq<nat>, disc: Operand, v: Value, test: Operand,
                                    next: Label, cases: seq<Case>, labels: seq<Label>, k: nat, ids: Ids,
                                    regs: map<nat, Value>, env: seq<nat>, w: World)
    requires UniqueLabels(p.ops) && k < |cases| == |labels|
             && (forall i :: 0 <= i < |labels| ==> Stands(p, labels[i], d)) && ids.temp > 0
    requires At(p, pc, d, [BinaryInstr(ids.temp - 1, "===", disc, test), JumpIfFalse(Register(ids.temp - 1), next),
             Jump(labels[k]), LabelAt(next)])
    requires At(p, pc + 4, d, LowerTests(q, disc, cases[k + 1..], labels[k + 1..], ids).code)
             && Below(disc, ids.temp - 1) && Read(disc, regs) == v
    ensures Selects(p, Run(pc, regs, env, w),
            pc + 4 + Size(LowerTests(q, disc, cases[k + 1..], labels[k + 1..], ids).code), labels, env,
                    AfterTest(p.m.host, v, Read(test, regs), cases, k, env, w))
    decreases |cases| - k, 0
  {
    hide Linear, Depth, OpsAt, Eval, LowerExpr, UniqueLabels;
    var c := Run(pc, regs, env, w);
    var regs2 := CompareSim(p, pc, d, disc, test, ids.temp - 1, next, labels[k], regs, env, w);
    var (eq, w2) := BinaryOp(p.m.host, "===", v, Read(test, regs), w);
    if eq.Ok? {
      if Truthy(eq.v) {
        assert Arrives(p, c, Find(p.ops, labels[k], 0).value, env, w2);
      } else {
        assert Read(disc, regs2) == v;
        TestsSim(p, pc + 4, d, q, disc, v, cases, labels, k + 1, ids, regs2, env, w2);
        SelectsVia(p, c, Run(pc + 4, regs2, env, w2),
            pc + 4 + Size(LowerTests(q, disc, cases[k + 1..], labels[k + 1..], ids).code), labels, env,
                   MatchCase(p.m.host, v, cases, k + 1, env, w2));
      }
    }
  }

  lemma OneTestLay(p: Program, pc: nat, d: nat, a: seq<Instr>, m: seq<Instr>, b: seq<Instr>)
    requires At(p, pc, d, a + (m + b)) && Plain(a) && Plain(m) && Plain(b) && |m| == 4
    ensures At(p, pc, d, a) && At(p, pc + |a|, d, m) && At(p, pc + |a| + 4, d, b)
            && Size(a + (m + b)) == |a| + 4 + Size(b)
  {
    TwoHeads(p, pc, d, a, m, b);
    PlainConcat(m, b);
    PlainConcat(a, m + b);
    PlainLinear(a + (m + b));
    PlainLinear(b);
  }

  ghost predicate CasesReady(p: Program, pc: nat, d: nat, q: seq<nat>, ctrl: seq<ControlTarget>, cases: seq<Case>,
                             labels: seq<Label>, j: Jumps, ids: Ids, env: seq<nat>) {
    && |labels| == |cases| && Ready(p, pc, d, ctrl, LowerCases(q, ctrl, cases, labels, ids).code, j)
    && CasesWellFormed(cases, j) && |env| == p.m.base + d
  }

  /** Where clause `k` stands. */
  lemma {:induction false} CaseAt(p: Program, pc: nat, d: nat, q: seq<nat>, ctrl: seq<ControlTarget>, cases: seq<Case>,
                                  labels: seq<Label>, j: Jumps, ids: Ids, env: seq<nat>, k: nat)
    returns (at: nat, ids1: Ids)
    requires CasesReady(p, pc, d, q, ctrl, cases, labels, j, ids, env) && k < |cases|
    ensures Marks(p, at, d, labels[k]) && CasesReady(p, at, d, q, ctrl, cases[k..], labels[k..], j, ids1, env)
    ensures at + Size(LowerCases(q, ctrl, cases[k..], labels[k..], ids1).code) == pc
            + Size(LowerCases(q, ctrl, cases, labels, ids).code)
    decreases k
  {
    hide LowerStmt, Linear, DepthFrom, Depth, OpsAt;
    var a := LowerList(q, ctrl, cases[0].body, ids);
    var b := LowerCases(q, ctrl, cases[1..], labels[1..], a.ids);
    LabelLay(p, pc, d, labels[0], a.code + b.code);
    if k == 0 {
      at, ids1 := pc, ids;
      assert cases[0..] == cases && labels[0..] == labels;
    } else {
      ListKeeps(q, ctrl, cases[0].body, ids);
      KeepSplit(p, pc + 1, d, a.code, b.code);
      at, ids1 := CaseAt(p, pc + 1 + Size(a.code), d, q, ctrl, cases[1..], labels[1..], j, a.ids, env, k - 1);
      assert cases[1..][k - 1..] == cases[k..] && labels[1..][k - 1..] == labels[k..];
    }
  }

  /** The clauses from `k` on, falling through. */
  lemma {:induction false} CasesSim(p: Program, pc: nat, d: nat, q: seq<nat>, ctrl: seq<ControlTarget>,
                                    cases: seq<Case>, k: nat, labels: seq<Label>, j: Jumps, ids: Ids,
                                    c: Config, env: seq<nat>, w: World, fuel: nat)
    requires k <= |cases| == |labels| && CasesReady(p, pc, d, q, ctrl, cases[k..], labels[k..], j, ids, env)
             && Arrives(p, c, pc, env, w)
    ensures Answers(p, ctrl, [], c, pc + Size(LowerCases(q, ctrl, cases[k..], labels[k..], ids).code), env, fuel,
            ExecCases(p.m, cases[k..], env, w, fuel))
    decreases fuel, cases, 0, |cases| - k
  {
    hide LowerList, ExecList, Arrives, Reaches;
    if k < |cases| {
      var a := LowerList(q, ctrl, cases[k].body, ids);
      assert cases[k..][1..] == cases[k + 1..] && labels[k..][1..] == labels[k + 1..];
      var b := LowerCases(q, ctrl, cases[k + 1..], labels[k + 1..], a.ids);
      CaseSplit(p, pc, d, q, ctrl, cases[k].body, labels[k], ids, b.code);
      ArrivesStep(p, c, pc, env, w, pc + 1, env, w);
      ListSim(p, pc + 1, d, q, ctrl, cases[k].body, j, ids, c, env, w, fuel);
      var r := ExecList(p.m, cases[k].body, env, w, fuel);
      if r.0.Normal? {
        CasesSim(p, pc + 1 + Size(a.code), d, q, ctrl, cases, k + 1, labels, j, a.ids, c, env, r.1, fuel);
      }
    }
  }

  lemma CaseSplit(p: Program, pc: nat, d: nat, q: seq<nat>, ctrl: seq<ControlTarget>, body: seq<Stmt>, l: Label,
                  ids: Ids, rest: seq<Instr>)
    requires At(p, pc, d, [LabelAt(l)] + (LowerList(q, ctrl, body, ids).code + rest))
    ensures var a := LowerList(q, ctrl, body, ids).code;
            && Marks(p, pc, d, l) && At(p, pc + 1, d, a) && At(p, pc + 1 + Size(a), d, rest)
            && Size([LabelAt(l)] + (a + rest)) == 1 + Size(a) + Size(rest)
  {
    hide Eval, LowerExpr, Exec, LowerStmt;
    var a := LowerList(q, ctrl, body, ids).code;
    LabelLay(p, pc, d, l, a + rest);
    ListKeeps(q, ctrl, body, ids);
    KeepSplit(p, pc + 1, d, a, rest);
  }

  lemma {:induction false} CaseLabelsOf(q: seq<nat>, cases: seq<Case>, from: nat, dflt: Label, ids: Ids, k: nat)
    requires k < |cases| && cases[k].test.None?
    ensures CaseLabels(q, cases, from, dflt, ids).0[k] == dflt
    decreases k
  {
    if k > 0 { CaseLabelsOf(q, cases[1..], from + 1, dflt, if cases[0].test.Some? then Labels(ids, 1) else ids, k - 1);
        }
  }

  lemma {:induction false} DefaultFound(cases: seq<Case>, from: nat)
    ensures match DefaultIndex(cases, from)
            case Chosen(k) => from <= k < |cases| && cases[k].test.None?
            case NoCase => forall i :: from <= i < |cases| ==> cases[i].test.Some?
            case Failed(_) => false
    decreases |cases| - from
  {
    if from < |cases| && cases[from].test.Some? { DefaultFound(cases, from + 1); }
  }

  /** A `switch`, in place: discriminant `x`, tests `t`, the jump past them, clauses `y`. */
  predicate SwitchLaid(p: Program, pc: nat, d: nat, target: Label, end: Label, x: seq<Instr>, t: seq<Instr>,
                       y: seq<Instr>) {
    var pcT := pc + Size(x);
    var pcJ := pcT + Size(t);
    && At(p, pc, d, x) && At(p, pcT, d, t) && JumpsTo(p, pcJ, d, target) && At(p, pcJ + 1, d, y)
       && Marks(p, pcJ + 1 + Size(y), d, end)
  }

  lemma SwitchLay(p: Program, pc: nat, d: nat, target: Label, end: Label, x: seq<Instr>, t: seq<Instr>, y: seq<Instr>)
    requires Keeps(x) && Keeps(t) && Keeps(y) && At(p, pc, d, x + (t + ([Jump(target)] + (y + [LabelAt(end)]))))
    ensures SwitchLaid(p, pc, d, target, end, x, t, y)
    ensures Size(x + (t + ([Jump(target)] + (y + [LabelAt(end)])))) == Size(x) + Size(t) + 1 + Size(y) + 1
  {
    hide OpsAt;
    KeepSplit(p, pc, d, x, t + ([Jump(target)] + (y + [LabelAt(end)])));
    KeepSplit(p, pc + Size(x), d, t, [Jump(target)] + (y + [LabelAt(end)]));
    var pcJ := pc + Size(x) + Size(t);
    JumpLay(p, pcJ, d, target, y + [LabelAt(end)]);
    KeepSplit(p, pcJ + 1, d, y, [LabelAt(end)]);
    assert [LabelAt(end)] == [LabelAt(end)] + [];
    LabelLay(p, pcJ + 1 + Size(y), d, end, []);
  }

  /** What the clauses of a `switch` answer, the whole statement does. */
  lemma SwitchAnswers(p: Program, ctrl: seq<ControlTarget>, labels: seq<string>, end: Label, at: nat, d: nat, c: Config,
                      env: seq<nat>, fuel: nat, r: (Completion, World))
    requires UniqueLabels(p.ops) && |env| == p.m.base + d && Marks(p, at, d, end)
    requires Answers(p, PushTargets(ctrl, labels, end, None), [], c, at, env, fuel, r)
    ensures Answers(p, ctrl, labels, c, at + 1, env, fuel, (LoopExit(r.0), r.1))
  {
    MarksReachable(p, at, d, end);
    assert env[..p.m.base + d] == env;
    match r.0
    case Normal => PassLabel(p, c, at, env, r.1);
    case BreakTo(t) =>
      ResolvePush(ctrl, labels, end, None, t);
      if t.None? || t.value in labels { PassLabel(p, c, at, env, r.1); }
    case ContinueTo(t) => ResolvePush(ctrl, labels, end, None, t);
    case _ =>
  }

  /** A `switch` as it is lowered, and the facts its parts rely on. */
  ghost predicate SwitchCode(p: Program, d: nat, q: seq<nat>, ctrl: seq<ControlTarget>, s: Stmt, labels: seq<string>,
                             j: Jumps,
                             end: Label, dflt: Label, ids: Ids, x: LoweredExpr, ls: seq<Label>, ids1: Ids, t: Lowered,
                                 y: Lowered, env: seq<nat>)
    requires s.Switch?
  {
    && UniqueLabels(p.ops) && p.m.base > 0 && TargetsOk(p, ctrl, d) && Covers(ctrl, j) && |env| == p.m.base + d
    && CasesWellFormed(s.cases, InSwitch(j, labels)) && |ls| == |s.cases|
    && x == LowerExpr(q, s.disc, ids) && Below(x.value, ids1.temp)
    && (forall k :: 0 <= k < |s.cases| && s.cases[k].test.None? ==> ls[k] == dflt)
    && t == LowerTests(q, x.value, s.cases, ls, ids1)
    && y == LowerCases(q, PushTargets(ctrl, labels, end, None), s.cases, ls, t.ids)
  }

  lemma SwitchCasesReady(p: Program, pc: nat, d: nat, q: seq<nat>, ctrl: seq<ControlTarget>, s: Stmt,
                         labels: seq<string>, j: Jumps,
                         end: Label, dflt: Label, target: Label, ids: Ids, x: LoweredExpr, ls: seq<Label>, ids1: Ids,
                             t: Lowered, y: Lowered, env: seq<nat>)
    requires s.Switch? && SwitchCode(p, d, q, ctrl, s, labels, j, end, dflt, ids, x, ls, ids1, t, y, env)
    requires SwitchLaid(p, pc, d, target, end, x.code, t.code, y.code)
    ensures CasesReady(p, pc + Size(x.code) + Size(t.code) + 1, d, q, PushTargets(ctrl, labels, end, None), s.cases, ls,
            InSwitch(j, labels), t.ids, env)
  {
    MarksReachable(p, pc + Size(x.code) + Size(t.code) + 1 + Size(y.code), d, end);
    PushOk(p, ctrl, labels, end, None, d);
    LoopCovers(ctrl, labels, end, None, j);
  }

  /** From the label of clause `k`. */
  lemma {:induction false} SwitchFrom(p: Program, pc: nat, d: nat, q: seq<nat>, ctrl: seq<ControlTarget>, s: Stmt,
                                      labels: seq<string>, j: Jumps,
                                      end: Label, dflt: Label, target: Label, ids: Ids, x: LoweredExpr, ls: seq<Label>,
                                          ids1: Ids, t: Lowered, y: Lowered,
                                      k: nat, c: Config, env: seq<nat>, w: World, fuel: nat)
    requires s.Switch? && SwitchCode(p, d, q, ctrl, s, labels, j, end, dflt, ids, x, ls, ids1, t, y, env)
    requires SwitchLaid(p, pc, d, target, end, x.code, t.code, y.code) && k < |s.cases|
             && ArrivesLabel(p, c, ls[k], env, w)
    ensures var r := ExecCases(p.m, s.cases[k..], env, w, fuel);
            Answers(p, ctrl, labels, c, pc + Size(x.code) + Size(t.code) + 1 + Size(y.code) + 1, env, fuel,
                (LoopExit(r.0), r.1))
    decreases fuel, s.cases, 2
  {
    hide Exec, LowerStmt, Linear, LowerExpr, Reaches, Lasts, StepOp, At, Find;
    var pcY := pc + Size(x.code) + Size(t.code) + 1;
    var ctrl' := PushTargets(ctrl, labels, end, None);
    SwitchCasesReady(p, pc, d, q, ctrl, s, labels, j, end, dflt, target, ids, x, ls, ids1, t, y, env);
    var at, ids2 := CaseAt(p, pcY, d, q, ctrl', s.cases, ls, InSwitch(j, labels), t.ids, env, k);
    MarksReachable(p, at, d, ls[k]);
    CasesSim(p, at, d, q, ctrl', s.cases, k, ls, InSwitch(j, labels), ids2, c, env, w, fuel);
    SwitchAnswers(p, ctrl, labels, end, pcY + Size(y.code), d, c, env, fuel,
        ExecCases(p.m, s.cases[k..], env, w, fuel));
  }

  lemma SwitchStands(p: Program, pc: nat, d: nat, q: seq<nat>, ctrl: seq<ControlTarget>, s: Stmt, labels: seq<string>,
                     j: Jumps,
                     end: Label, dflt: Label, target: Label, ids: Ids, x: LoweredExpr, ls: seq<Label>, ids1: Ids,
                         t: Lowered, y: Lowered, env: seq<nat>)
    requires s.Switch? && SwitchCode(p, d, q, ctrl, s, labels, j, end, dflt, ids, x, ls, ids1, t, y, env)
    requires SwitchLaid(p, pc, d, target, end, x.code, t.code, y.code)
    ensures forall i :: 0 <= i < |ls| ==> Stands(p, ls[i], d)
  {
    hide LowerStmt, Linear, Depth, OpsAt;
    SwitchCasesReady(p, pc, d, q, ctrl, s, labels, j, end, dflt, target, ids, x, ls, ids1, t, y, env);
    forall i | 0 <= i < |ls| ensures Stands(p, ls[i], d) {
      var at, ids2 := CaseAt(p, pc + Size(x.code) + Size(t.code) + 1, d, q, PushTargets(ctrl, labels, end, None),
          s.cases, ls, InSwitch(j, labels), t.ids, env, i);
      MarksReachable(p, at, d, ls[i]);
    }
  }

  function AfterSelect(m: Setting, cases: seq<Case>, sel: (Selected, World), env: seq<nat>, fuel: nat): (Completion,
                       World) {
    match sel.0
    case Failed(v) => (ThrowWith(v), sel.1)
    case NoCase => (Normal, sel.1)
    case Chosen(k) =>
      if k < |cases| then
        var (c, w3) := ExecCases(m, cases[k..], env, sel.1, fuel);
        (LoopExit(c), w3)
      else (Normal, sel.1)
  }

  /** After the tests: the chosen clause, the default one, or the end. */
  lemma {:induction false} SwitchSelected(p: Program, pc: nat, d: nat, q: seq<nat>, ctrl: seq<ControlTarget>, s: Stmt,
                                          labels: seq<string>, j: Jumps,
                                          end: Label, dflt: Label, target: Label, ids: Ids, x: LoweredExpr,
                                              ls: seq<Label>, ids1: Ids, t: Lowered, y: Lowered,
                                          c: Config, sel: (Selected, World), env: seq<nat>, fuel: nat)
    requires s.Switch? && SwitchCode(p, d, q, ctrl, s, labels, j, end, dflt, ids, x, ls, ids1, t, y, env)
    requires SwitchLaid(p, pc, d, target, end, x.code, t.code, y.code)
             && target == (if HasDefault(s.cases) then dflt else end)
    requires Selects(p, c, pc + Size(x.code) + Size(t.code), ls, env, sel)
    ensures Answers(p, ctrl, labels, c, pc + Size(x.code) + Size(t.code) + 1 + Size(y.code) + 1, env, fuel,
                    AfterSelect(p.m, s.cases, (if sel.0.NoCase? then DefaultIndex(s.cases, 0) else sel.0, sel.1), env,
                        fuel))
    decreases fuel, s.cases, 3
  {
    hide Linear, LinearOne, Depth, OpsAt, Child, ExecList, L, LowerOr, Named, PendingTargets, Reachable, RunN, Step,
         Temp, DefaultIndex;
    var pcJ := pc + Size(x.code) + Size(t.code);
    match sel.0
    case Failed(v) =>
    case Chosen(k) => SwitchFrom(p, pc, d, q, ctrl, s, labels, j, end, dflt, target, ids, x, ls, ids1, t, y, k, c, env,
        sel.1, fuel);
    case NoCase =>
      DefaultFound(s.cases, 0);
      if DefaultIndex(s.cases, 0).Chosen? {
        var k := DefaultIndex(s.cases, 0).k;
        SwitchStands(p, pc, d, q, ctrl, s, labels, j, end, dflt, target, ids, x, ls, ids1, t, y, env);
        BackJump(p, c, pcJ, dflt, Find(p.ops, dflt, 0).value, d, env, sel.1);
        SwitchFrom(p, pc, d, q, ctrl, s, labels, j, end, dflt, target, ids, x, ls, ids1, t, y, k, c, env, sel.1, fuel);
      } else {
        var stop := pcJ + 1 + Size(y.code);
        BackJump(p, c, pcJ, end, stop, d, env, sel.1);
        PassLabel(p, c, stop, env, sel.1);
      }
  }

  lemma {:induction false} SwitchSim(p: Program, pc: nat, d: nat, q: seq<nat>, ctrl: seq<ControlTarget>, s: Stmt,
                                     labels: seq<string>, j: Jumps,
                                     ids: Ids, regs: map<nat, Value>, env: seq<nat>, w: World, fuel: nat)
    requires s.Switch? && StmtReady(p, pc, d, q, ctrl, s, labels, j, ids, env)
    ensures StmtAnswers(p, pc, q, ctrl, s, labels, ids, Run(pc, regs, env, w), env, fuel,
            Exec(p.m, s, labels, env, w, fuel))
    decreases fuel, s, 1
  {
    hide Linear, Depth, Eval, LowerExpr, Reaches, Lasts, StepOp, LowerCases, LowerTests, CaseLabels;
    assert LowerStmt(q, ctrl, labels, s, ids) == LowerSwitch(q, ctrl, labels, s, ids);
    assert Exec(p.m, s, labels, env, w, fuel) == ExecSwitch(p.m, s, env, w, fuel);
    var x := LowerExpr(q, s.disc, ids);
    var end, dflt := L(q, "switch_end", x.ids, 0), L(q, "switch_default", x.ids, 1);
    var ls := CaseLabels(q, s.cases, 0, dflt, Labels(x.ids, 2));
    var t := LowerTests(q, x.value, s.cases, ls.0, ls.1);
    var target := if HasDefault(s.cases) then dflt else end;
    var y := LowerCases(q, PushTargets(ctrl, labels, end, None), s.cases, ls.0, t.ids);
    SwitchPlaced(p, pc, d, q, ctrl, s, labels, j, ids, env);
    SwitchRun(p, pc, d, q, ctrl, s, labels, j, end, dflt, target, ids, x, ls.0, ls.1, t, y, regs, env, w, fuel);
  }

  lemma SwitchPlaced(p: Program, pc: nat, d: nat, q: seq<nat>, ctrl: seq<ControlTarget>, s: Stmt, labels: seq<string>,
                     j: Jumps, ids: Ids, env: seq<nat>)
    requires s.Switch? && Ready(p, pc, d, ctrl, LowerSwitch(q, ctrl, labels, s, ids).code, j)
             && CasesWellFormed(s.cases, InSwitch(j, labels))
    requires |env| == p.m.base + d
    ensures var x := LowerExpr(q, s.disc, ids);
            var end, dflt := L(q, "switch_end", x.ids, 0), L(q, "switch_default", x.ids, 1);
            var ls := CaseLabels(q, s.cases, 0, dflt, Labels(x.ids, 2));
            var t := LowerTests(q, x.value, s.cases, ls.0, ls.1);
            var target := if HasDefault(s.cases) then dflt else end;
            var y := LowerCases(q, PushTargets(ctrl, labels, end, None), s.cases, ls.0, t.ids);
            && SwitchCode(p, d, q, ctrl, s, labels, j, end, dflt, ids, x, ls.0, ls.1, t, y, env)
            && SwitchLaid(p, pc, d, target, end, x.code, t.code, y.code) && Size(x.code) == |x.code|
            && Size(LowerSwitch(q, ctrl, labels, s, ids).code) == Size(x.code) + Size(t.code) + 1 + Size(y.code) + 1
  {
    var x := LowerExpr(q, s.disc, ids);
    var end, dflt := L(q, "switch_end", x.ids, 0), L(q, "switch_default", x.ids, 1);
    var ls := CaseLabels(q, s.cases, 0, dflt, Labels(x.ids, 2));
    var t := LowerTests(q, x.value, s.cases, ls.0, ls.1);
    var target := if HasDefault(s.cases) then dflt else end;
    var ctrl' := PushTargets(ctrl, labels, end, None);
    var y := LowerCases(q, ctrl', s.cases, ls.0, t.ids);
    ExprKeeps(q, s.disc, ids);
    ExprShape(q, s.disc, ids);
    PlainLinear(x.code);
    TestsPlain(q, x.value, s.cases, ls.0, ls.1); PlainKeeps(t.code);
    CasesKeep(q, ctrl', s.cases, ls.0, t.ids);
    SwitchLay(p, pc, d, target, end, x.code, t.code, y.code);
    CaseLabelsTemp(q, s.cases, 0, dflt, Labels(x.ids, 2));
    forall k | 0 <= k < |s.cases| && s.cases[k].test.None? ensures ls.0[k] == dflt {
      CaseLabelsOf(q, s.cases, 0, dflt, Labels(x.ids, 2), k);
    }
  }

  lemma {:induction false} CaseLabelsTemp(q: seq<nat>, cases: seq<Case>, from: nat, dflt: Label, ids: Ids)
    ensures var r := CaseLabels(q, cases, from, dflt, ids).1; r.temp == ids.temp && Later(ids, r)
    decreases cases
  {
    if cases != [] { CaseLabelsTemp(q, cases[1..], from + 1, dflt, if cases[0].test.Some? then Labels(ids, 1) else ids);
        }
  }

  lemma AllTests(p: Program, pc: nat, d: nat, q: seq<nat>, disc: Operand, v: Value, cases: seq<Case>,
                 labels: seq<Label>, ids: Ids, t: Lowered,
                 regs: map<nat, Value>, env: seq<nat>, w: World)
    requires UniqueLabels(p.ops) && |cases| == |labels| && (forall i :: 0 <= i < |labels| ==> Stands(p, labels[i], d))
    requires t == LowerTests(q, disc, cases, labels, ids) && At(p, pc, d, t.code) && Below(disc, ids.temp)
             && Read(disc, regs) == v
    ensures Selects(p, Run(pc, regs, env, w), pc + Size(t.code), labels, env, MatchCase(p.m.host, v, cases, 0, env, w))
  {
    assert cases[0..] == cases && labels[0..] == labels;
    TestsSim(p, pc, d, q, disc, v, cases, labels, 0, ids, regs, env, w);
  }

  lemma {:induction false} SwitchRun(p: Program, pc: nat, d: nat, q: seq<nat>, ctrl: seq<ControlTarget>, s: Stmt,
                                     labels: seq<string>, j: Jumps,
                                     end: Label, dflt: Label, target: Label, ids: Ids, x: LoweredExpr, ls: seq<Label>,
                                         ids1: Ids, t: Lowered, y: Lowered,
                                     regs: map<nat, Value>, env: seq<nat>, w: World, fuel: nat)
    requires s.Switch? && SwitchCode(p, d, q, ctrl, s, labels, j, end, dflt, ids, x, ls, ids1, t, y, env)
    requires SwitchLaid(p, pc, d, target, end, x.code, t.code, y.code)
             && target == (if HasDefault(s.cases) then dflt else end)
    requires Size(x.code) == |x.code|
    ensures Answers(p, ctrl, labels, Run(pc, regs, env, w), pc + Size(x.code) + Size(t.code) + 1 + Size(y.code) + 1,
            env, fuel, ExecSwitch(p.m, s, env, w, fuel))
    decreases fuel, s.cases, 5
  {
    hide LinearOne, Depth, OpsAt, Eval, LowerExpr, Reaches, Lasts, StepOp, At, Find;
    var c := Run(pc, regs, env, w);
    var pcT := pc + Size(x.code);
    var regs1 := ExprSim(p, pc, d, q, s.disc, ids, regs, env, w);
    var (a, w1) := Eval(p.m.host, s.disc, env, w);
    if a.Ok? {
      SwitchTests(p, pc, d, q, ctrl, s, labels, j, end, dflt, target, ids, x, ls, ids1, t, y, c, a.v, regs1, env, w1,
          fuel);
    }
  }

  /** From the tests on, the discriminant in its operand. */
  lemma {:induction false} SwitchTests(p: Program, pc: nat, d: nat, q: seq<nat>, ctrl: seq<ControlTarget>, s: Stmt,
                                       labels: seq<string>, j: Jumps,
                                       end: Label, dflt: Label, target: Label, ids: Ids, x: LoweredExpr, ls: seq<Label>,
                                           ids1: Ids, t: Lowered, y: Lowered,
                                       c: Config, v: Value, regs: map<nat, Value>, env: seq<nat>, w: World, fuel: nat)
    requires s.Switch? && SwitchCode(p, d, q, ctrl, s, labels, j, end, dflt, ids, x, ls, ids1, t, y, env)
    requires SwitchLaid(p, pc, d, target, end, x.code, t.code, y.code)
             && target == (if HasDefault(s.cases) then dflt else end)
    requires Reaches(p, c, Run(pc + Size(x.code), regs, env, w)) && Read(x.value, regs) == v
    ensures Answers(p, ctrl, labels, c, pc + Size(x.code) + Size(t.code) + 1 + Size(y.code) + 1, env, fuel,
                    AfterSelect(p.m, s.cases, SelectCase(p.m.host, v, s.cases, env, w), env, fuel))
    decreases fuel, s.cases, 4
  {
    hide Exec, LowerStmt, Linear, Eval, LowerExpr, Reaches, Lasts, StepOp, At, Find;
    var pcT := pc + Size(x.code);
    SwitchStands(p, pc, d, q, ctrl, s, labels, j, end, dflt, target, ids, x, ls, ids1, t, y, env);
    var sel := MatchCase(p.m.host, v, s.cases, 0, env, w);
    AllTests(p, pcT, d, q, x.value, v, s.cases, ls, ids1, t, regs, env, w);
    SelectsVia(p, c, Run(pcT, regs, env, w), pcT + Size(t.code), ls, env, sel);
    SwitchSelected(p, pc, d, q, ctrl, s, labels, j, end, dflt, target, ids, x, ls, ids1, t, y, c, sel, env, fuel);
  }
}
