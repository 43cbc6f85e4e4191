/** The six places where the compiler reads a program other than ECMA-262 does, the dead
    zone and `const` apart: what either reading gives, exactly when they agree, and an input
    on which they do not. */
module Departures {
  import opened Syntax
  import opened Semantics
  import opened Readings

  // ---- the value of a postfix operator ----------------------------------------------------

  /** Section 13.4.2: `x++` yields the old value as a numeric one; the code yields it as it
      is. For a name that reads alike, effects and exceptions agree; when nothing throws, the
      values agree exactly when the old value is its own conversion. */
  lemma PostfixValue(h: Host, op: StepSign, x: string, env: seq<nat>, w: World)
    requires !h.standard && Bumps(h) && EvalName(h, x, env, w) == EvalName(StandardHost(h), x, env, w)
    ensures var (a, w1) := EvalName(h, x, env, w);
            var (n, w2) := h.numeric(a.v, w1);
            var code, std := EvalIncDec(h, op, false, x, env, w), EvalIncDec(StandardHost(h), op, false, x, env, w);
            && code.1 == std.1
            && (if a.Ok? && n.Ok? && Store(h, env, x, h.bump(op, n.v), w2).0.Ok?
               then code.0 == std.0 <==> n == a else code == std)
  {
    var (a, w1) := EvalName(h, x, env, w);
    assert h.unary(op, a.v, w1) == Bumped(h, op, h.numeric(a.v, w1));
  }

  /** A host with no names of its own, whose strings convert to five and whose calls leave
      a line in the log. */
  function SmallHost(): Host {
    Host(false,
         (v, w) => (Ok(ToFive(v)), w),
         (_, v) => PlusOne(v),
         (_, _, _, w) => (Ok(Undefined), w),
         (_, v, w) => (Ok(PlusOne(ToFive(v))), w),
         (_, _, w) => (Ok(Undefined), Logged(w)),
         (_, w) => (Ok(Undefined), w),
         (_, _, w) => (Ok(Undefined), w))
  }

  function Logged(w: World): World { w.(log := w.log + ["called"]) }

  function ToFive(v: Value): Value {
    if v.Str? then Number(Finite(5.0)) else v
  }

  function PlusOne(v: Value): Value {
    if v.Number? && v.n.Finite? then Number(Finite(v.n.r + 1.0)) else v
  }

  /** With `x` holding the string "5", the code answers "5" and the standard 5. */
  lemma PostfixOfString()
    ensures var w := World([map["x" := Str("5")]], []);
            && EvalIncDec(SmallHost(), "++", false, "x", [0], w).0 == Ok(Str("5"))
            && EvalIncDec(StandardHost(SmallHost()), "++", false, "x", [0], w).0 == Ok(Number(Finite(5.0)))
  {
    var w := World([map["x" := Str("5")]], []);
    assert Resolve([0], w.heap, "x") == Some(0);
  }

  // ---- the names of constants --------------------------------------------------------------

  /** Frame `i` is the innermost one that binds `x`. */
  predicate Innermost(env: seq<nat>, heap: seq<map<string, Value>>, x: string, i: nat) {
    i < |env| && Binds(env, heap, x, i) && forall j :: i < j < |env| ==> !Binds(env, heap, x, j)
  }

  predicate Binds(env: seq<nat>, heap: seq<map<string, Value>>, x: string, i: nat)
    requires i < |env|
  {
    env[i] < |heap| && x in heap[env[i]]
  }

  lemma {:induction false} ResolvesInnermost(env: seq<nat>, heap: seq<map<string, Value>>, x: string)
    ensures var f := Resolve(env, heap, x);
            if f.Some? then exists i: nat :: Innermost(env, heap, x, i) && env[i] == f.value
            else forall i :: 0 <= i < |env| ==> !Binds(env, heap, x, i)
    decreases |env|
  {
    if env != [] {
      var last := |env| - 1;
      var outer := env[..last];
      ResolvesInnermost(outer, heap, x);
      if Binds(env, heap, x, last) {
        assert Innermost(env, heap, x, last);
      } else if Resolve(outer, heap, x).Some? {
        var i: nat :| Innermost(outer, heap, x, i) && outer[i] == Resolve(outer, heap, x).value;
        assert Innermost(env, heap, x, i) by {
          assert forall j :: 0 <= j < last ==> Binds(env, heap, x, j) == Binds(outer, heap, x, j);
        }
      } else {
        assert forall j :: 0 <= j < last ==> Binds(env, heap, x, j) == Binds(outer, heap, x, j);
      }
    }
  }

  /** `undefined`, `NaN` and `Infinity` may be bound like any other name; the code does not
      look. The readings agree exactly when no frame binds the name, or the innermost one that
      does holds that very constant under it. */
  lemma ConstantNames(h: Host, x: string, env: seq<nat>, w: World)
    requires !h.standard && ConstantName(x).Some?
    ensures EvalName(h, x, env, w) == EvalName(StandardHost(h), x, env, w)
            <==> (forall i :: 0 <= i < |env| ==> !Binds(env, w.heap, x, i))
                 || exists i: nat :: Innermost(env, w.heap, x, i)
                                && w.heap[env[i]][x] == ConstantName(x).value
  {
    ResolvesInnermost(env, w.heap, x);
    if Resolve(env, w.heap, x).Some? {
      var i: nat :| Innermost(env, w.heap, x, i) && env[i] == Resolve(env, w.heap, x).value;
      forall k: nat | Innermost(env, w.heap, x, k) ensures k == i {}
    }
  }

  /** `let undefined = 1; return undefined;` returns `undefined`, where the standard says 1. */
  lemma ConstantShadowed(m: CodeSetting, fuel: nat)
    ensures var w := World([map[]], []);
            var one := Number(Finite(1.0));
            var body := [Decl(LetKind, [Declarator("undefined", Some(Lit(one)))]), Return(Some(Name("undefined")))];
            var w' := World([map["undefined" := one]], []);
            && ExecList(m, body, [0], w, fuel) == (ReturnWith(Undefined), w')
            && ExecList(Standard(m), body, [0], w, fuel) == (ReturnWith(one), w')
  {
    var w, one := World([map[]], []), Number(Finite(1.0));
    ConstantSteps(m, w, one, fuel);
    ConstantSteps(Standard(m), w, one, fuel);
  }

  lemma ConstantSteps(m: Setting, w: World, v: Value, fuel: nat)
    requires w == World([map[]], [])
    ensures var body := [Decl(LetKind, [Declarator("undefined", Some(Lit(v)))]), Return(Some(Name("undefined")))];
            ExecList(m, body, [0], w, fuel)
            == (ReturnWith(if m.host.standard then v else Undefined), World([map["undefined" := v]], []))
  {
    var x := "undefined";
    var decl, ret := Decl(LetKind, [Declarator(x, Some(Lit(v)))]), Return(Some(Name(x)));
    var w1 := Declare(m.base, [0], LetKind, x, w);
    assert w1 == World([map[x := Undefined]], []);
    var w2 := World([map[x := v]], []);
    assert Resolve([0], w1.heap, x) == Some(0) == Resolve([0], w2.heap, x);
    assert w1.heap[0][x := v] == map[x := v];
    assert w1.heap[0 := map[x := v]] == [map[x := v]];
    assert Store(m.host, [0], x, v, w1) == (Ok(Undefined), w2);
    assert decl.decls[1..] == [];
    assert ExecDecls(m, LetKind, [], [0], w2) == (Normal, w2);
    assert ExecDecls(m, LetKind, decl.decls, [0], w) == (Normal, w2);
    assert Exec(m, decl, [], [0], w, fuel) == (Normal, w2);
    assert [decl, ret][1..] == [ret];
    assert Exec(m, ret, [], [0], w2, fuel) == (ReturnWith(if m.host.standard then v else Undefined), w2);
    assert ExecList(m, [ret], [0], w2, fuel) == Exec(m, ret, [], [0], w2, fuel);
  }

  // ---- `var` without an initialiser ----------------------------------------------------------

  lemma {:induction false} Resolved(env: seq<nat>, heap: seq<map<string, Value>>, x: string, i: nat)
    requires i < |env| && env[i] < |heap| && x in heap[env[i]]
    ensures var f := Resolve(env, heap, x); f.Some? && f.value < |heap| && x in heap[f.value]
    decreases |env|
  {
    if i < |env| - 1 { Resolved(env[..|env| - 1], heap, x, i); }
  }

  function VarOnly(x: string): seq<Declarator> { [Declarator(x, None)] }

  lemma VarSteps(m: Setting, x: string, env: seq<nat>, w: World)
    ensures var w1 := Declare(m.base, env, VarKind, x, w);
            && (m.host.standard ==> ExecDecls(m, VarKind, VarOnly(x), env, w) == (Normal, w1))
            && (!m.host.standard ==> ExecDecls(m, VarKind, VarOnly(x), env, w)
                                     == var (s, w2) := Store(m.host, env, x, Undefined, w1);
                                         (if s.Throws? then ThrowWith(s.v) else Normal, w2))
  {
    hide Store, Declare;
    var w1 := Declare(m.base, env, VarKind, x, w);
    assert VarOnly(x)[1..] == [];
    assert ExecDecls(m, VarKind, [], env, w1) == (Normal, w1);
    var w2 := Store(m.host, env, x, Undefined, w1).1;
    assert ExecDecls(m, VarKind, [], env, w2) == (Normal, w2);
  }

  /** The code writes `undefined` instead, which changes nothing exactly when the name
      already reads as `undefined`. */
  lemma VarWithoutInitialiser(m: CodeSetting, x: string, env: seq<nat>, w: World)
    requires 0 < m.base <= |env| && env[m.base - 1] < |w.heap|
    ensures var w1 := Declare(m.base, env, VarKind, x, w);
            ExecDecls(m, VarKind, VarOnly(x), env, w) == ExecDecls(Standard(m), VarKind, VarOnly(x), env, w)
            <==> Load(m.host, env, x, w1) == (Ok(Undefined), w1)
  {
    hide ExecDecls, Resolve;
    var w1 := Declare(m.base, env, VarKind, x, w);
    VarSteps(m, x, env, w);
    VarSteps(Standard(m), x, env, w);
    Resolved(env, w1.heap, x, m.base - 1);
    var f := Resolve(env, w1.heap, x).value;
    var w2 := Store(m.host, env, x, Undefined, w1).1;
    assert w2.heap[f] == w1.heap[f][x := Undefined];
    if w1.heap[f][x] == Undefined {
      assert w1.heap[f][x := Undefined] == w1.heap[f];
      assert w2.heap == w1.heap;
    }
  }

  /** `x = 1; var x;` leaves `x` undefined. */
  lemma VarForgets(m: CodeSetting)
    requires m.base == 1
    ensures var w := World([map["x" := Number(Finite(1.0))]], []);
            && ExecDecls(Standard(m), VarKind, VarOnly("x"), [0], w) == (Normal, w)
            && ExecDecls(m, VarKind, VarOnly("x"), [0], w) == (Normal, World([map["x" := Undefined]], []))
  {
    hide ExecDecls;
    var w := World([map["x" := Number(Finite(1.0))]], []);
    VarSteps(m, "x", [0], w);
    VarSteps(Standard(m), "x", [0], w);
    assert Declare(m.base, [0], VarKind, "x", w) == w;
    assert Resolve([0], w.heap, "x") == Some(0);
    assert w.heap[0]["x" := Undefined] == map["x" := Undefined];
    assert w.heap[0 := map["x" := Undefined]] == [map["x" := Undefined]];
  }

  // ---- `var` on entry ---------------------------------------------------------------------------

  /** The code binds the name of a `var` when its declaration runs, not when the body is
      entered: both start from the same world exactly when the names are bound already. */
  lemma VarsOnEntry(m: CodeSetting, body: seq<Stmt>, env: seq<nat>, w: World)
    requires 0 < m.base <= |env| && env[m.base - 1] < |w.heap|
    ensures Entered(Standard(m), body, env, w) == Entered(m, body, env, w) <==> VarsBound(m.base, body, env, w)
  {
    hide VarsOf;
    var f := env[m.base - 1];
    var frame := w.heap[f];
    var more := WithUnset(VarsOf(body), frame);
    assert Entered(Standard(m), body, env, w).heap[f] == more;
    if VarsOf(body) <= frame.Keys {
      BoundEntered(Standard(m), body, env, w);
    } else {
      var x :| x in VarsOf(body) && x !in frame;
      assert x in more;
    }
  }

  /** `s` stands in the statements: among them, or inside one of them. */
  predicate StandsIn(ss: seq<Stmt>, s: Stmt)
    decreases ss, 0
  {
    ss != [] && (ss[0] == s || Encloses(ss[0], s) || StandsIn(ss[1..], s))
  }

  predicate Encloses(t: Stmt, s: Stmt)
    decreases t, 1
  {
    match t
    case Block(body) => StandsIn(body, s)
    case If(_, c, alt) => c == s || Encloses(c, s) || (alt.Some? && (alt.value == s || Encloses(alt.value, s)))
    case While(_, body) => body == s || Encloses(body, s)
    case DoWhile(body, _) => body == s || Encloses(body, s)
    case For(_, _, _, body) => body == s || Encloses(body, s)
    case Switch(_, cases) => StandsInCases(cases, s)
    case Labeled(_, body) => body == s || Encloses(body, s)
    case Try(block, handler, finalizer) => StandsIn(block, s) || (handler.Some? && StandsIn(handler.value.body, s))
        || (finalizer.Finally? && StandsIn(finalizer.body, s))
    case _ => false
  }

  predicate StandsInCases(cases: seq<Case>, s: Stmt)
    decreases cases, 0
  {
    cases != [] && (StandsIn(cases[0].body, s) || StandsInCases(cases[1..], s))
  }

  /** A `var` statement, or the head of a loop, declares `x`. */
  predicate DeclaresVar(s: Stmt, x: string) {
    || (s.Decl? && s.kind.VarKind? && x in BoundNames(s.decls))
    || (s.For? && s.init.InitDecl? && s.init.kind.VarKind? && x in BoundNames(s.init.decls))
  }

  lemma {:induction false} VarHasDeclaration(ss: seq<Stmt>, x: string) returns (s: Stmt)
    requires x in VarsOf(ss)
    ensures StandsIn(ss, s) && DeclaresVar(s, x)
    decreases ss, 0
  {
    hide DeclaresVar;
    if x in VarsIn(ss[0]) { s := VarHasDeclarationIn(ss[0], x); } else { s := VarHasDeclaration(ss[1..], x); }
  }

  lemma {:induction false} VarHasDeclarationIn(t: Stmt, x: string) returns (s: Stmt)
    requires x in VarsIn(t)
    ensures (s == t || Encloses(t, s)) && DeclaresVar(s, x)
    decreases t, 1
  {
    match t
    case Decl(_, _) => s := t;
    case Block(body) => s := VarHasDeclaration(body, x);
    case If(_, c, alt) =>
      if x in VarsIn(c) { s := VarHasDeclarationIn(c, x); } else { s := VarHasDeclarationIn(alt.value, x); }
    case While(_, body) => s := VarHasDeclarationIn(body, x);
    case DoWhile(body, _) => s := VarHasDeclarationIn(body, x);
    case For(_, _, _, body) => if x in VarsIn(body) { s := VarHasDeclarationIn(body, x); } else { s := t; }
    case Switch(_, cases) => s := VarHasDeclarationInCases(cases, x);
    case Labeled(_, body) => s := VarHasDeclarationIn(body, x);
    case Try(block, handler, finalizer) =>
      if x in VarsOf(block) { s := VarHasDeclaration(block, x); }
      else if handler.Some? && x in VarsOf(handler.value.body) { s := VarHasDeclaration(handler.value.body, x); }
      else { s := VarHasDeclaration(finalizer.body, x); }
  }

  lemma {:induction false} VarHasDeclarationInCases(cases: seq<Case>, x: string) returns (s: Stmt)
    requires x in VarsOfCases(cases)
    ensures StandsInCases(cases, s) && DeclaresVar(s, x)
    decreases cases, 0
  {
    hide DeclaresVar;
    if x in VarsOf(cases[0].body) { s := VarHasDeclaration(cases[0].body, x); }
    else { s := VarHasDeclarationInCases(cases[1..], x); }
  }

  lemma {:induction false} DeclarationIsVar(ss: seq<Stmt>, s: Stmt, x: string)
    requires StandsIn(ss, s) && DeclaresVar(s, x)
    ensures x in VarsOf(ss)
    decreases ss, 0
  {
    hide DeclaresVar;
    if ss[0] == s || Encloses(ss[0], s) { DeclarationIsVarIn(ss[0], s, x); } else { DeclarationIsVar(ss[1..], s, x); }
  }

  lemma {:induction false} DeclarationIsVarIn(t: Stmt, s: Stmt, x: string)
    requires (s == t || Encloses(t, s)) && DeclaresVar(s, x)
    ensures x in VarsIn(t)
    decreases t, 1
  {
    if s != t {
      match t
      case Block(body) => DeclarationIsVar(body, s, x);
      case If(_, c, alt) =>
        if c == s || Encloses(c, s) { DeclarationIsVarIn(c, s, x); } else { DeclarationIsVarIn(alt.value, s, x); }
      case While(_, body) => DeclarationIsVarIn(body, s, x);
      case DoWhile(body, _) => DeclarationIsVarIn(body, s, x);
      case For(_, _, _, body) => DeclarationIsVarIn(body, s, x);
      case Switch(_, cases) => DeclarationIsVarInCases(cases, s, x);
      case Labeled(_, body) => DeclarationIsVarIn(body, s, x);
      case Try(block, handler, finalizer) =>
        if StandsIn(block, s) { DeclarationIsVar(block, s, x); }
        else if handler.Some? && StandsIn(handler.value.body, s) { DeclarationIsVar(handler.value.body, s, x); }
        else { DeclarationIsVar(finalizer.body, s, x); }
    }
  }

  lemma {:induction false} DeclarationIsVarInCases(cases: seq<Case>, s: Stmt, x: string)
    requires StandsInCases(cases, s) && DeclaresVar(s, x)
    ensures x in VarsOfCases(cases)
    decreases cases, 0
  {
    hide DeclaresVar;
    if StandsIn(cases[0].body, s) { DeclarationIsVar(cases[0].body, s, x); }
    else { DeclarationIsVarInCases(cases[1..], s, x); }
  }

  /** The names bound on entry are exactly those that some `var` declares, however deep. */
  lemma VarsAreDeclared(body: seq<Stmt>, x: string)
    ensures x in VarsOf(body) <==> exists s :: StandsIn(body, s) && DeclaresVar(s, x)
  {
    hide DeclaresVar;
    if x in VarsOf(body) { var s := VarHasDeclaration(body, x); }
    if s :| StandsIn(body, s) && DeclaresVar(s, x) { DeclarationIsVar(body, s, x); }
  }

  /** With an `x` of 1 in the function around, `return x; var x = null;` returns 1, where the
      standard says `undefined`. */
  lemma OuterVarRead(m: CodeSetting, fuel: nat)
    requires m.base == 2
    ensures var one := Number(Finite(1.0));
            var w := World([map["x" := one], map[]], []);
            var body := [Return(Some(Name("x"))), Decl(VarKind, [Declarator("x", Some(Lit(Null)))])];
            && ExecBody(m, body, [0, 1], w, fuel) == (ReturnWith(one), w)
            && ExecBody(Standard(m), body, [0, 1], w, fuel)
               == (ReturnWith(Undefined), World([map["x" := one], map["x" := Undefined]], []))
  {
    var one, x := Number(Finite(1.0)), "x";
    var w := World([map[x := one], map[]], []);
    var ret, decl := Return(Some(Name(x))), Decl(VarKind, [Declarator(x, Some(Lit(Null)))]);
    var body := [ret, decl];
    assert BoundNames(decl.decls)[0] == x;
    assert VarsIn(ret) == {} && VarsIn(decl) == {x};
    assert body[1..] == [decl] && [decl][1..] == [];
    assert VarsOf([decl]) == {x} && VarsOf(body) == {x};
    assert WithUnset({x}, map[]) == map[x := Undefined];
    var w1 := World([map[x := one], map[x := Undefined]], []);
    assert w.heap[1 := map[x := Undefined]] == w1.heap;
    assert Entered(Standard(m), body, [0, 1], w) == w1;
    assert [0, 1][..1] == [0];
    assert Resolve([0, 1], w.heap, x) == Resolve([0], w.heap, x) == Some(0);
    assert Resolve([0, 1], w1.heap, x) == Some(1);
    assert Exec(m, ret, [], [0, 1], w, fuel) == (ReturnWith(one), w);
    assert Exec(Standard(m), ret, [], [0, 1], w1, fuel) == (ReturnWith(Undefined), w1);
  }

  // ---- logical assignment ----------------------------------------------------------------------

  /** Evaluating the right side after all, and writing back what the name holds, ends in
      the world before. */
  predicate Undone(h: Host, e: Expr, a: Value, env: seq<nat>, w: World)
    requires e.AssignOp?
  {
    var (b, w1) := Eval(h, e.right, env, w);
    b.Ok? && Store(h, env, e.name, a, w1).0.Ok? && Store(h, env, e.name, a, w1).1 == w
  }

  /** Section 13.15.2: `x ||= e` evaluates `e` only if `x` does not decide; the code always
      does, and stores. They agree exactly when the name cannot be read, its value does not
      decide, or the needless evaluation and store leave no trace. */
  lemma LogicalAssignment(h: Host, e: Expr, env: seq<nat>, w: World)
    requires !h.standard && Bumps(h) && e.AssignOp? && IsLogical(e.op) && Alike(e.right)
    ensures var (a, w1) := Load(h, env, e.name, w);
            EvalAssignOp(h, e, env, w) == EvalAssignOp(StandardHost(h), e, env, w)
            <==> a.Throws? || !Decides(e.op, a.v) || Undone(h, e, a.v, env, w1)
  {
    hide Alike, Eval;
    var (a, w1) := Load(h, env, e.name, w);
    EvalAgrees(h, e.right, env, w1);
  }

  /** With `x` true, `x ||= f()` calls `f` all the same. */
  lemma LogicalAssignmentCalls()
    ensures var w := World([map["x" := Bool(true)]], []);
            var e := AssignOp("||", "x", Call(Name("f"), []));
            && EvalAssignOp(StandardHost(SmallHost()), e, [0], w) == (Ok(Bool(true)), w)
            && EvalAssignOp(SmallHost(), e, [0], w).1.log == ["called"]
  {
    var w := World([map["x" := Bool(true)]], []);
    assert Resolve([0], w.heap, "x") == Some(0);
    assert Resolve([], w.heap, "f") == None && Resolve([0], w.heap, "f") == Resolve([0][..0], w.heap, "f");
    var f := Call(Name("f"), []);
    assert EvalArgs(SmallHost(), [], [0], w) == ([], None, w);
    assert EvalName(SmallHost(), "f", [0], w) == (Ok(Undefined), w);
    assert Eval(SmallHost(), Name("f"), [0], w) == (Ok(Undefined), w);
    assert w.log + ["called"] == ["called"];
    assert EvalCall(SmallHost(), f, [0], w) == (Ok(Undefined), w.(log := ["called"]));
    assert Eval(SmallHost(), f, [0], w) == (Ok(Undefined), w.(log := ["called"]));
  }

  // ---- the scope of a `switch` -------------------------------------------------------------------

  /** An environment without bindings on top of another one makes no difference to what a
      name reads as, nor to what writing it does. */
  lemma EmptyScope(h: Host, env: seq<nat>, name: string, v: Value, w: World)
    requires forall i :: 0 <= i < |env| ==> env[i] < |w.heap|
    ensures var env1 := env + [|w.heap|];
            && Resolve(env1, PushFrame(w).heap, name) == Resolve(env, w.heap, name)
            && (Resolve(env, w.heap, name).Some? ==>
                  && Load(h, env1, name, PushFrame(w)).0 == Load(h, env, name, w).0
                  && Store(h, env1, name, v, PushFrame(w)).1 == PushFrame(Store(h, env, name, v, w).1))
  {
    var env1 := env + [|w.heap|];
    assert env1[..|env|] == env;
    SameFrames(env, w.heap, w.heap + [map[]], name);
    var f := Resolve(env, w.heap, name);
    if f.Some? {
      Present(env, w.heap, name);
      var more := PushFrame(w).heap;
      assert more[f.value := more[f.value][name := v]] == w.heap[f.value := w.heap[f.value][name := v]] + [map[]];
    }
  }

  lemma {:induction false} SameFrames(env: seq<nat>, heap: seq<map<string, Value>>, more: seq<map<string, Value>>,
                                      name: string)
    requires heap <= more && forall i :: 0 <= i < |env| ==> env[i] < |heap|
    ensures Resolve(env, more, name) == Resolve(env, heap, name)
    decreases |env|
  {
    if env != [] { SameFrames(env[..|env| - 1], heap, more, name); }
  }

  lemma {:induction false} Present(env: seq<nat>, heap: seq<map<string, Value>>, name: string)
    ensures var f := Resolve(env, heap, name); f.Some? ==> f.value < |heap| && name in heap[f.value]
    decreases |env|
  {
    if env != [] { Present(env[..|env| - 1], heap, name); }
  }

  /** A clause that declares `x` with a value and leaves. */
  predicate Declaring(c: Case, x: string, v: Value) {
    c.body == [Decl(LetKind, [Declarator(x, Some(Lit(v)))]), Break(None)]
    || c.body == [Decl(ConstKind, [Declarator(x, Some(Lit(v)))]), Break(None)]
  }

  /** The tests choose clause `k` and leave no trace. */
  predicate Picks(h: Host, d: Value, cases: seq<Case>, env: seq<nat>, w: World, k: nat) {
    SelectCase(h, d, cases, env, w) == (Chosen(k), w)
  }

  lemma DeclaringRuns(m: Setting, s: Stmt, d: Value, env: seq<nat>, w: World, fuel: nat, k: nat, x: string, v: Value)
    requires s.Switch? && k < |s.cases| && Declaring(s.cases[k], x, v) && Picks(m.host, d, s.cases, env, w, k)
    requires env != [] && env[|env| - 1] < |w.heap|
    ensures ExecCaseBlock(m, s, d, env, w, fuel) == (Normal, Bind(w, env[|env| - 1], x, v))
  {
    hide SelectCase;
    var f := env[|env| - 1];
    var decl, brk := s.cases[k].body[0], s.cases[k].body[1];
    assert s.cases[k..][0] == s.cases[k] && decl.decls[1..] == [];
    var w1 := Declare(m.base, env, decl.kind, x, w);
    var w2 := Bind(w, f, x, v);
    assert w1.heap[f][x := v] == w.heap[f][x := v];
    assert w1.heap[f := w.heap[f][x := v]] == w.heap[f := w.heap[f][x := v]];
    assert Store(m.host, env, x, v, w1) == (Ok(Undefined), w2);
    assert ExecDecls(m, decl.kind, [], env, w2) == (Normal, w2);
    assert ExecDecls(m, decl.kind, decl.decls, env, w) == (Normal, w2);
    assert Exec(m, decl, [], env, w, fuel) == (Normal, w2);
    assert s.cases[k].body[1..] == [brk];
    assert ExecList(m, [brk], env, w2, fuel) == (BreakTo(None), w2);
    assert ExecList(m, s.cases[k].body, env, w, fuel) == (BreakTo(None), w2);
    assert ExecCases(m, s.cases[k..], env, w, fuel) == (BreakTo(None), w2);
  }

  /** Section 14.12.4: the declarations of a case block belong to it alone. The code lets
      them into the scope around: when the chosen clause declares `x`, the frames that were
      there before end up as the standard says exactly when the innermost one already held
      that very value under `x`. */
  lemma SwitchScope(m: CodeSetting, s: Stmt, env: seq<nat>, w: World, fuel: nat, k: nat, x: string, v: Value)
    requires Bumps(m.host) && s.Switch? && Alike(s.disc) && k < |s.cases| && Declaring(s.cases[k], x, v)
    requires env != [] && Eval(m.host, s.disc, env, w).0.Ok?
    requires var (a, w1) := Eval(m.host, s.disc, env, w);
             && env[|env| - 1] < |w1.heap| && Picks(m.host, a.v, s.cases, env, w1, k)
             && Picks(StandardHost(m.host), a.v, s.cases, env + [|w1.heap|], PushFrame(w1), k)
    ensures var w1 := Eval(m.host, s.disc, env, w).1;
            var code, std := ExecSwitch(m, s, env, w, fuel), ExecSwitch(Standard(m), s, env, w, fuel);
            var inner := w1.heap[env[|env| - 1]];
            && code.0 == std.0 == Normal && |std.1.heap| == |w1.heap| + 1 && std.1.heap[..|w1.heap|] == w1.heap
            && (code.1.heap == std.1.heap[..|w1.heap|] <==> x in inner && inner[x] == v)
  {
    hide Eval, Alike, Bumps, SelectCase, ExecCaseBlock;
    EvalAgrees(m.host, s.disc, env, w);
    var (a, w1) := Eval(m.host, s.disc, env, w);
    var f := env[|env| - 1];
    assert IsLexicalDecl(s.cases[k].body[0]);
    DeclaringRuns(m, s, a.v, env, w1, fuel, k, x, v);
    DeclaringRuns(Standard(m), s, a.v, env + [|w1.heap|], PushFrame(w1), fuel, k, x, v);
    var inner := w1.heap[f];
    var code := Bind(w1, f, x, v);
    assert code.heap[f] == inner[x := v];
    if x in inner && inner[x] == v {
      assert inner[x := v] == inner;
      assert code.heap == w1.heap;
    }
  }

  /** With an `x` of 1 around it, `switch (null) { default: let x = true; break; }` leaves
      `x` true, where the standard leaves 1. */
  lemma SwitchLeaks(m: CodeSetting)
    requires Bumps(m.host)
    ensures var w := World([map["x" := Number(Finite(1.0))]], []);
            var s := Switch(Lit(Null),
                [Case(None, [Decl(LetKind, [Declarator("x", Some(Lit(Bool(true))))]), Break(None)])]);
            && ExecSwitch(m, s, [0], w, 0) == (Normal, World([map["x" := Bool(true)]], []))
            && ExecSwitch(Standard(m), s, [0], w, 0)
               == (Normal, World([map["x" := Number(Finite(1.0))], map["x" := Bool(true)]], []))
  {
    hide Bumps, ExecCaseBlock;
    var w := World([map["x" := Number(Finite(1.0))]], []);
    var c := Case(None, [Decl(LetKind, [Declarator("x", Some(Lit(Bool(true))))]), Break(None)]);
    var s := Switch(Lit(Null), [c]);
    assert s.cases[0].test.None? && IsLexicalDecl(s.cases[0].body[0]);
    var env1, w1 := [0] + [|w.heap|], PushFrame(w);
    DefaultPicks(m.host, Null, s.cases, [0], w);
    DefaultPicks(Standard(m).host, Null, s.cases, env1, w1);
    DeclaringRuns(m, s, Null, [0], w, 0, 0, "x", Bool(true));
    assert w.heap[0]["x" := Bool(true)] == map["x" := Bool(true)];
    assert w.heap[0 := map["x" := Bool(true)]] == [map["x" := Bool(true)]];
    DeclaringRuns(Standard(m), s, Null, env1, w1, 0, 0, "x", Bool(true));
    assert w1.heap[1]["x" := Bool(true)] == map["x" := Bool(true)];
    assert w1.heap[1 := map["x" := Bool(true)]] == [w.heap[0], map["x" := Bool(true)]];
  }

  lemma DefaultPicks(h: Host, d: Value, cases: seq<Case>, env: seq<nat>, w: World)
    requires |cases| == 1 && cases[0].test.None?
    ensures Picks(h, d, cases, env, w, 0)
  {
    assert MatchCase(h, d, cases, 1, env, w) == (NoCase, w);
  }
}
