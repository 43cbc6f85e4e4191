/** Where the names of a function are kept at run time. The machine keeps every binding under
    its name; the runtime keeps some in slots, which end at the function's own frame. Step by
    step the two see the same bindings. */
module Placement {
  import opened Syntax
  import opened Semantics
  import opened Ir
  import opened Machine
  import opened Env
  import opened EnvRuns
  import Capture
  import Externs

  /** Own names in numbered slots, own names kept under their names, and names of the functions
      around. */
  datatype Places = Places(slots: map<string, nat>, own: set<string>, outer: set<string>)

  ghost predicate Apart(p: Places) {
    && p.slots.Keys !! p.own && p.slots.Keys !! p.outer && p.own !! p.outer
    && (forall x :: x in p.slots ==> p.slots[x] < SLOT_LIMIT)
    && forall x, y :: x in p.slots && y in p.slots && p.slots[x] == p.slots[y] ==> x == y
  }

  function InHeap(env: seq<nat>, heap: seq<map<string, Value>>, k: nat, x: string): Option<Value>
    requires k < |env|
  {
    if env[k] < |heap| && x in heap[env[k]] then Some(heap[env[k]][x]) else None
  }

  function ByName(f: Frame, x: string): Option<Value> { if x in f.names then Some(f.names[x]) else None }

  function BySlot(f: Frame, slot: nat): Option<Value> { if slot in f.slots then Some(f.slots[slot]) else None }

  /** How the runtime keeps `x` in one frame. */
  function Kept(p: Places, f: Frame, x: string): Option<Value> {
    if x in p.slots then BySlot(f, p.slots[x]) else ByName(f, x)
  }

  /** The first frame where the code looks for `x`: its function's own, unless the name comes
      from around it. */
  function Outermost(p: Places, fs: seq<Frame>, x: string): nat
    requires Rooted(fs)
  {
    RootedHasVarFrame(fs);
    if x in p.outer then 0 else VarFrame(fs).value
  }

  predicate Known(p: Places, x: string) { x in p.slots || x in p.own || x in p.outer }

  /** In every frame where the code may look for a name, the runtime keeps what the machine has. */
  ghost predicate Mirrors(p: Places, env: seq<nat>, heap: seq<map<string, Value>>, fs: seq<Frame>) {
    && Apart(p) && Rooted(fs) && |env| == |fs| && (forall k :: 0 <= k < |env| ==> env[k] < |heap|)
    && (forall j, k :: 0 <= j < k < |env| ==> env[j] != env[k])
    && forall k, x :: 0 <= k < |env| && Known(p, x) && k >= Outermost(p, fs, x) ==>
      InHeap(env, heap, k, x) == Kept(p, fs[k], x)
  }

  /** Frame `k` is the innermost one that binds `x`, and one where the code looks. */
  predicate BoundAt(p: Places, env: seq<nat>, heap: seq<map<string, Value>>, fs: seq<Frame>, x: string, k: nat)
    requires Rooted(fs) && |env| == |fs|
  {
    Outermost(p, fs, x) <= k < |env| && InHeap(env, heap, k, x).Some?
    && forall j :: k < j < |env| ==> InHeap(env, heap, j, x).None?
  }

  // ---- where searches end --------------------------------------------------------------------

  lemma {:induction false} ResolvesAt(env: seq<nat>, heap: seq<map<string, Value>>, x: string, k: nat)
    requires k < |env| && InHeap(env, heap, k, x).Some?
             && forall j :: k < j < |env| ==> InHeap(env, heap, j, x).None?
    ensures Resolve(env, heap, x) == Some(env[k])
    decreases |env|
  {
    if k < |env| - 1 {
      var less := env[..|env| - 1];
      assert InHeap(env, heap, |env| - 1, x).None?;
      assert forall j :: 0 <= j < |less| ==> InHeap(less, heap, j, x) == InHeap(env, heap, j, x);
      ResolvesAt(less, heap, x, k);
    }
  }

  lemma NameFoundAt(fs: seq<Frame>, x: string, k: nat)
    requires k < |fs| && x in fs[k].names && forall j :: k < j < |fs| ==> x !in fs[j].names
    ensures FindName(fs, x) == Some(k)
  {
  }

  lemma {:induction false} SlotFoundAt(fs: seq<Frame>, slot: nat, k: nat)
    requires k < |fs| && slot in fs[k].slots
             && forall j :: k < j < |fs| ==> slot !in fs[j].slots && !Boundary(fs[j].kind)
    ensures FindSlot(fs, slot) == Some(k)
    decreases |fs|
  {
    if k < |fs| - 1 {
      SlotFoundAt(fs[..|fs| - 1], slot, k);
    }
  }

  /** Both searches end at the same frame. */
  lemma SameFrame(p: Places, env: seq<nat>, heap: seq<map<string, Value>>, fs: seq<Frame>, x: string, k: nat)
    requires Mirrors(p, env, heap, fs) && Known(p, x) && BoundAt(p, env, heap, fs, x, k)
    ensures Resolve(env, heap, x) == Some(env[k])
    ensures if x in p.slots then FindSlot(fs, p.slots[x]) == Some(k) else FindName(fs, x) == Some(k)
  {
    hide FindName, FindSlot, Resolve;
    ResolvesAt(env, heap, x, k);
    forall j | k <= j < |fs| ensures InHeap(env, heap, j, x) == Kept(p, fs[j], x) {}
    if x in p.slots { SlotFoundAt(fs, p.slots[x], k); } else { NameFoundAt(fs, x, k); }
  }

  // ---- one step --------------------------------------------------------------------------------

  predicate OnNames(op: Op) {
    op.OpLoad? || op.OpStore? || op.OpDeclare? || op.OpEnterScope? || op.OpLeaveScope?
  }

  /** What the runtime does for an operation of the machine. */
  function Placed(p: Places, op: Op, regs: map<nat, Value>): EnvOp
    requires OnNames(op)
  {
    match op
    case OpLoad(_, x) => if x in p.slots then ReadSlot(p.slots[x]) else ReadName(x)
    case OpStore(x, src) =>
      if x in p.slots then WriteLocal(p.slots[x], Read(src, regs)) else WriteOrDefine(x, Read(src, regs))
    case OpDeclare(kind, x) =>
      if x in p.slots then
        if kind.VarKind? then HoistSlot(p.slots[x], Undefined) else DefineLocalIfAbsent(p.slots[x], Undefined)
      else if kind.VarKind? then HoistName(x, Undefined)
      else DefineNameIfAbsent(x, Undefined)
    case OpEnterScope => Push(BlockScope)
    case OpLeaveScope => EnvOp.Pop
  }

  /** A name is read and written where it is bound and declared only by its own function;
      a scope that is left was entered by it. */
  ghost predicate InPlace(p: Places, op: Op, env: seq<nat>, heap: seq<map<string, Value>>, fs: seq<Frame>)
    requires Rooted(fs) && |env| == |fs| && OnNames(op)
  {
    match op
    case OpLoad(_, x) => Known(p, x) && exists k :: BoundAt(p, env, heap, fs, x, k)
    case OpStore(x, _) => Known(p, x) && exists k :: BoundAt(p, env, heap, fs, x, k)
    case OpDeclare(_, x) => x in p.slots || x in p.own
    case OpEnterScope => true
    case OpLeaveScope => RootedHasVarFrame(fs); VarFrame(fs).value < |env| - 1
  }

  lemma MirrorsBasics(p: Places, env: seq<nat>, heap: seq<map<string, Value>>, fs: seq<Frame>)
    requires Mirrors(p, env, heap, fs)
    ensures Apart(p) && Rooted(fs) && |env| == |fs| && forall k :: 0 <= k < |env| ==> env[k] < |heap|
  {
  }

  lemma KeptAt(p: Places, env: seq<nat>, heap: seq<map<string, Value>>, fs: seq<Frame>, k: nat, x: string)
    requires Mirrors(p, env, heap, fs) && k < |env| && Known(p, x) && k >= Outermost(p, fs, x)
    ensures InHeap(env, heap, k, x) == Kept(p, fs[k], x)
  {
  }

  /** One more binding in the same frame of both. */
  lemma BoundMirrors(p: Places, env: seq<nat>, heap: seq<map<string, Value>>, fs: seq<Frame>, k: nat, x: string,
                     v: Value)
    requires Mirrors(p, env, heap, fs) && k < |env| && Known(p, x) && (x in p.slots ==> Outermost(p, fs, x) <= k)
    ensures var more := heap[env[k] := heap[env[k]][x := v]];
            var gs := if x in p.slots then PutSlot(fs, k, p.slots[x], v) else PutName(fs, k, x, v);
            Mirrors(p, env, more, gs) && VarFrame(gs) == VarFrame(fs)
  {
    hide VarFrame;
    var more := heap[env[k] := heap[env[k]][x := v]];
    var gs := if x in p.slots then PutSlot(fs, k, p.slots[x], v) else PutName(fs, k, x, v);
    SameKinds(fs, gs);
    forall j, y | 0 <= j < |env| && Known(p, y) && j >= Outermost(p, gs, y)
      ensures InHeap(env, more, j, y) == Kept(p, gs[j], y)
    {
      assert InHeap(env, heap, j, y) == Kept(p, fs[j], y);
    }
  }

  lemma {:induction false} SameKinds(fs: seq<Frame>, gs: seq<Frame>)
    requires |fs| == |gs| && forall k :: 0 <= k < |fs| ==> fs[k].kind == gs[k].kind
    ensures VarFrame(fs) == VarFrame(gs)
    decreases |fs|
  {
    if fs != [] { SameKinds(fs[..|fs| - 1], gs[..|gs| - 1]); }
  }

  lemma LoadMirrors(p: Places, h: Host, x: string, env: seq<nat>, w: World, fs: seq<Frame>, k: nat)
    requires Mirrors(p, env, w.heap, fs) && Known(p, x) && BoundAt(p, env, w.heap, fs, x, k)
    ensures x !in p.slots ==> LookupName(fs, x).Some?
    ensures Load(h, env, x, w)
         == (Ok(if x in p.slots then LookupSlot(fs, p.slots[x]) else LookupName(fs, x).value), w)
  {
    hide Resolve, FindName, FindSlot;
    SameFrame(p, env, w.heap, fs, x, k);
    assert InHeap(env, w.heap, k, x) == Kept(p, fs[k], x);
  }

  lemma StoreMirrors(p: Places, h: Host, x: string, v: Value, env: seq<nat>, w: World, fs: seq<Frame>, k: nat)
    requires Mirrors(p, env, w.heap, fs) && Known(p, x) && BoundAt(p, env, w.heap, fs, x, k)
    ensures Store(h, env, x, v, w).0.Ok?
    ensures var op := if x in p.slots then WriteLocal(p.slots[x], v) else WriteOrDefine(x, v);
            Mirrors(p, env, Store(h, env, x, v, w).1.heap, Apply(fs, op).0)
            && VarFrame(Apply(fs, op).0) == VarFrame(fs)
  {
    hide Resolve, FindName, FindSlot, Mirrors, PutName, PutSlot, VarFrame, Outermost, InHeap, Kept, Rooted;
    MirrorsBasics(p, env, w.heap, fs);
    SameFrame(p, env, w.heap, fs, x, k);
    BoundMirrors(p, env, w.heap, fs, k, x, v);
  }

  lemma DeclareMirrors(p: Places, base: nat, kind: DeclKind, x: string, env: seq<nat>, w: World, fs: seq<Frame>)
    requires Mirrors(p, env, w.heap, fs) && (x in p.slots || x in p.own) && VarFrame(fs) == Some(base - 1)
    ensures var gs := Apply(fs, Placed(p, OpDeclare(kind, x), map[])).0;
            Mirrors(p, env, Declare(base, env, kind, x, w).heap, gs) && VarFrame(gs) == VarFrame(fs)
  {
    hide VarFrame, PutName, PutSlot, Mirrors, Outermost, Rooted;
    MirrorsBasics(p, env, w.heap, fs);
    var k := if kind.VarKind? then base - 1 else |env| - 1;
    OwnLevel(p, fs, x);
    KeptAt(p, env, w.heap, fs, k, x);
    if InHeap(env, w.heap, k, x).None? { BoundMirrors(p, env, w.heap, fs, k, x, Undefined); }
  }

  lemma OwnLevel(p: Places, fs: seq<Frame>, x: string)
    requires Apart(p) && Rooted(fs) && (x in p.slots || x in p.own)
    ensures VarFrame(fs).Some? && Outermost(p, fs, x) == VarFrame(fs).value < |fs|
  {
    RootedHasVarFrame(fs);
  }

  lemma EnterMirrors(p: Places, env: seq<nat>, w: World, fs: seq<Frame>)
    requires Mirrors(p, env, w.heap, fs)
    ensures var gs := fs + [Frame(BlockScope, map[], map[])];
            Mirrors(p, env + [|w.heap|], PushFrame(w).heap, gs) && VarFrame(gs) == VarFrame(fs)
  {
    var gs := fs + [Frame(BlockScope, map[], map[])];
    assert gs[..|fs|] == fs;
    assert VarFrame(gs) == VarFrame(fs);
  }

  lemma LeaveMirrors(p: Places, env: seq<nat>, heap: seq<map<string, Value>>, fs: seq<Frame>)
    requires Mirrors(p, env, heap, fs) && VarFrame(fs).Some? && VarFrame(fs).value < |env| - 1
    ensures Mirrors(p, env[..|env| - 1], heap, fs[..|fs| - 1]) && VarFrame(fs[..|fs| - 1]) == VarFrame(fs)
  {
    var less := fs[..|fs| - 1];
    assert VarFrame(less) == VarFrame(fs);
    assert Rooted(less);
    forall k, x | 0 <= k < |env| - 1 && Known(p, x) && k >= Outermost(p, less, x)
      ensures InHeap(env[..|env| - 1], heap, k, x) == Kept(p, less[k], x)
    {
      assert InHeap(env, heap, k, x) == Kept(p, fs[k], x);
    }
  }

  /** A step of the machine on names is the runtime's operation on slots and names: it reads
      the same value, and afterwards the two see the same bindings again. */
  lemma StepMirrors(p: Places, m: Program, op: Op, pc: nat, regs: map<nat, Value>, env: seq<nat>, w: World,
                    fs: seq<Frame>)
    requires Mirrors(p, env, w.heap, fs) && OnNames(op) && InPlace(p, op, env, w.heap, fs) && pc < |m.ops|
    requires VarFrame(fs) == Some(m.m.base - 1)
    ensures Fits(Placed(p, op, regs))
    ensures var c := StepOp(m, op, pc, regs, env, w);
            var (gs, r) := Apply(fs, Placed(p, op, regs));
            && c.Run? && Mirrors(p, c.env, c.w.heap, gs) && VarFrame(gs) == VarFrame(fs)
            && (op.OpLoad? ==> r.Some? && c.regs == regs[op.dst := r.value])
  {
    hide Mirrors, VarFrame, FindName, FindSlot, PutName, PutSlot, Resolve, LookupName, LookupSlot, Load, Store, Declare,
         BoundAt, Outermost, ScannedTarget, NameTarget, Rooted, PutSlotIfAbsent, PutNameIfAbsent;
    MirrorsBasics(p, env, w.heap, fs);
    match op
    case OpLoad(_, x) =>
      var k :| BoundAt(p, env, w.heap, fs, x, k);
      LoadMirrors(p, m.m.host, x, env, w, fs, k);
    case OpStore(x, src) =>
      var k :| BoundAt(p, env, w.heap, fs, x, k);
      StoreMirrors(p, m.m.host, x, Read(src, regs), env, w, fs, k);
    case OpDeclare(kind, x) => DeclareMirrors(p, m.m.base, kind, x, env, w, fs);
    case OpEnterScope => EnterMirrors(p, env, w, fs);
    case OpLeaveScope => LeaveMirrors(p, env, w.heap, fs);
  }

  /** The names that never need a place: those that are lowered to constants, and three that
      are not names of bindings. */
  lemma NeverPlaced(n: string)
    ensures Externs.ImplicitGlobal(n) <==> ConstantName(n).Some? || n == "this" || n == "super" || n == "import"
  {
  }

  // ---- the places that the compiler gives -------------------------------------------------------

  /** A function's own names and those it captures, each kept somewhere. */
  ghost predicate PlacesOf(p: Places, g: Capture.Inner, visible: set<string>) {
    p.slots.Keys + p.own == Capture.Own(g) && p.outer == Capture.Captured(g, visible) - Capture.Own(g)
  }

  /** A name that the compiler takes for a local one and that is bound: the machine's load is
      the runtime's lookup, in the slot if it has one and under the name if not. */
  lemma LocalLoads(p: Places, g: Capture.Inner, visible: set<string>, m: Program, dst: nat, x: string, pc: nat,
                   regs: map<nat, Value>, env: seq<nat>, w: World, fs: seq<Frame>, k: nat)
    requires PlacesOf(p, g, visible) && Capture.NamePlace(Capture.Slots(g, visible), x) == Capture.Local(x)
    requires Mirrors(p, env, w.heap, fs) && BoundAt(p, env, w.heap, fs, x, k) && pc < |m.ops|
    ensures Known(p, x) && (x !in p.slots ==> LookupName(fs, x).Some?)
    ensures StepOp(m, OpLoad(dst, x), pc, regs, env, w)
         == Run(pc + 1, regs[dst := if x in p.slots then LookupSlot(fs, p.slots[x]) else LookupName(fs, x).value], env,
             w)
  {
    hide Mirrors, Capture.Own, Capture.Captured;
    LoadMirrors(p, m.m.host, x, env, w, fs, k);
  }
}
