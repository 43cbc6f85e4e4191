/** Whole runs of one environment, and two environments that share records. */
module EnvRuns {
  import opened Syntax
  import opened Env

  datatype EnvOp =
    | Push(kind: ScopeKind)
    | Pop
    | Truncate(depth: nat)
    | ReadName(name: string)
    | ReadSlot(slot: nat)
    | DefineName(name: string, v: Value)
    | DefineNameIfAbsent(name: string, v: Value)
    | DefineLocal(slot: nat, v: Value)
    | DefineLocalIfAbsent(slot: nat, v: Value)
    | HoistSlot(slot: nat, v: Value)
    | WriteLocal(slot: nat, v: Value)
    | DefineGlobal(name: string, v: Value)
    | HoistName(name: string, v: Value)
    | WriteExisting(name: string, v: Value)
    | WriteOrDefine(name: string, v: Value)

  /** What callers owe: slots are 32-bit and only the first frame is global. */
  predicate Fits(op: EnvOp) {
    match op
    case Push(kind) => !kind.Global?
    case ReadSlot(slot) => slot < SLOT_LIMIT
    case DefineLocal(slot, _) => slot < SLOT_LIMIT
    case DefineLocalIfAbsent(slot, _) => slot < SLOT_LIMIT
    case HoistSlot(slot, _) => slot < SLOT_LIMIT
    case WriteLocal(slot, _) => slot < SLOT_LIMIT
    case _ => true
  }

  /** What the caches need on top: a slot that is cached is not hoisted past a frame that
      binds it. */
  predicate Harmless(fs: seq<Frame>, op: EnvOp) {
    op.HoistSlot? ==> op.slot >= FAST_SLOT_LIMIT || Unshadowed(fs, op.slot)
  }

  predicate Admits(fs: seq<Frame>, op: EnvOp) { Fits(op) && Harmless(fs, op) }

  // ---- without caches ---------------------------------------------------------------------

  /** How many frames stay. */
  function Remaining(n: nat, op: EnvOp): nat {
    match op
    case Pop => if n > 1 then n - 1 else n
    case Truncate(depth) =>
      var keep := if depth > 1 then depth else 1;
      if keep < n then keep else n
    case _ => n
  }

  function Cut<T>(s: seq<T>, n: nat): seq<T> { if n < |s| then s[..n] else s }

  lemma RootedHasVarFrame(fs: seq<Frame>)
    requires Rooted(fs)
    ensures VarFrame(fs).Some?
  {
  }

  /** The operations on plain frames, every lookup a scan from the inside out. */
  function Apply(fs: seq<Frame>, op: EnvOp): (r: (seq<Frame>, Option<Value>))
    requires Rooted(fs) && Fits(op)
    ensures Rooted(r.0)
  {
    var last := |fs| - 1;
    match op
    case Push(kind) => (fs + [Frame(kind, map[], map[])], None)
    case Pop => (Cut(fs, Remaining(|fs|, op)), None)
    case Truncate(_) => (Cut(fs, Remaining(|fs|, op)), None)
    case ReadName(name) => (fs, LookupName(fs, name))
    case ReadSlot(slot) => (fs, Some(LookupSlot(fs, slot)))
    case DefineName(name, v) => (PutName(fs, last, name, v), None)
    case DefineNameIfAbsent(name, v) => (PutNameIfAbsent(fs, last, name, v), None)
    case DefineLocal(slot, v) => (PutSlot(fs, last, slot, v), None)
    case DefineLocalIfAbsent(slot, v) => (PutSlotIfAbsent(fs, last, slot, v), None)
    case HoistSlot(slot, v) => RootedHasVarFrame(fs); (PutSlotIfAbsent(fs, VarFrame(fs).value, slot, v), None)
    case WriteLocal(slot, v) => (PutSlot(fs, ScannedTarget(fs, slot), slot, v), None)
    case DefineGlobal(name, v) => (PutNameIfAbsent(fs, 0, name, v), None)
    case HoistName(name, v) => RootedHasVarFrame(fs); (PutNameIfAbsent(fs, VarFrame(fs).value, name, v), None)
    case WriteExisting(name, v) =>
      if FindName(fs, name).Some? then (PutName(fs, FindName(fs, name).value, name, v), Some(Bool(true)))
                                       else (fs, Some(Bool(false)))
    case WriteOrDefine(name, v) => (PutName(fs, NameTarget(fs, name), name, v), None)
  }

  // ---- with caches ------------------------------------------------------------------------

  /** The one record that an operation writes, if any, by its place in the environment. */
  datatype Write = NoWrite | NameAt(at: nat, name: string, v: Value) | SlotAt(at: nat, slot: nat, v: Value)

  function NewName(fs: seq<Frame>, at: nat, name: string, v: Value): Write
    requires at < |fs|
  {
    if name in fs[at].names then NoWrite else NameAt(at, name, v)
  }

  function NewSlot(fs: seq<Frame>, at: nat, slot: nat, v: Value): Write
    requires at < |fs|
  {
    if slot in fs[at].slots then NoWrite else SlotAt(at, slot, v)
  }

  function WriteOf(fs: seq<Frame>, slots: seq<Option<nat>>, op: EnvOp): (w: Write)
    requires Rooted(fs)
    ensures !w.NoWrite? ==> w.at < |fs| && !Moves(op)
  {
    var last := |fs| - 1;
    match op
    case DefineName(name, v) => NameAt(last, name, v)
    case DefineNameIfAbsent(name, v) => NewName(fs, last, name, v)
    case DefineLocal(slot, v) => SlotAt(last, slot, v)
    case DefineLocalIfAbsent(slot, v) => NewSlot(fs, last, slot, v)
    case HoistSlot(slot, v) => RootedHasVarFrame(fs); NewSlot(fs, VarFrame(fs).value, slot, v)
    case WriteLocal(slot, v) => SlotAt(SlotTarget(fs, slots, slot), slot, v)
    case DefineGlobal(name, v) => NewName(fs, 0, name, v)
    case HoistName(name, v) => RootedHasVarFrame(fs); NewName(fs, VarFrame(fs).value, name, v)
    case WriteExisting(name, v) => if FindName(fs, name).Some? then NameAt(FindName(fs, name).value, name, v)
                                                                    else NoWrite
    case WriteOrDefine(name, v) => NameAt(NameTarget(fs, name), name, v)
    case _ => NoWrite
  }

  function Written(fs: seq<Frame>, w: Write): (r: seq<Frame>)
    requires !w.NoWrite? ==> w.at < |fs|
    ensures |r| == |fs|
  {
    match w
    case NoWrite => fs
    case NameAt(at, name, v) => PutName(fs, at, name, v)
    case SlotAt(at, slot, v) => PutSlot(fs, at, slot, v)
  }

  /** What an operation remembers of names. */
  function NamesAfter(fs: seq<Frame>, names: map<string, nat>, op: EnvOp): map<string, nat>
    requires Rooted(fs)
  {
    match op
    case Push(_) => map[]
    case Pop => if Remaining(|fs|, op) < |fs| then map[] else names
    case Truncate(_) => if Remaining(|fs|, op) < |fs| then map[] else names
    case ReadName(name) => NamesRead(fs, names, name)
    case DefineName(name, _) => names[name := |fs| - 1]
    case DefineNameIfAbsent(name, _) => names[name := |fs| - 1]
    case DefineGlobal(_, _) => map[]
    case HoistName(_, _) => map[]
    case WriteExisting(name, _) => if FindName(fs, name).Some? then names[name := FindName(fs, name).value] else names
    case WriteOrDefine(name, _) => names[name := NameTarget(fs, name)]
    case _ => names
  }

  /** What it remembers of slots. */
  function SlotsAfter(fs: seq<Frame>, slots: seq<Option<nat>>, op: EnvOp): seq<Option<nat>>
    requires Rooted(fs)
  {
    match op
    case Push(_) => []
    case Pop => if Remaining(|fs|, op) < |fs| then [] else slots
    case Truncate(_) => if Remaining(|fs|, op) < |fs| then [] else slots
    case ReadSlot(slot) => SlotsRead(fs, slots, slot)
    case DefineLocal(slot, _) => CacheSlot(slots, slot, |fs| - 1)
    case DefineLocalIfAbsent(slot, _) => CacheSlot(slots, slot, |fs| - 1)
    case HoistSlot(slot, _) => RootedHasVarFrame(fs); CacheSlot(slots, slot, VarFrame(fs).value)
    case WriteLocal(slot, _) => SlotsSet(fs, slots, slot)
    case _ => slots
  }

  function Answer(h: Holding, op: EnvOp): Option<Value> {
    match op
    case ReadName(name) => CachedName(h.frames, h.names, name)
    case ReadSlot(slot) => Some(CachedSlot(h.frames, h.slots, slot))
    case WriteExisting(name, _) => Some(Bool(FindName(h.frames, name).Some?))
    case _ => None
  }

  function FramesAfter(h: Holding, op: EnvOp): (fs: seq<Frame>)
    requires Rooted(h.frames) && Fits(op)
    ensures Rooted(fs)
  {
    if op.Push? then h.frames + [Frame(op.kind, map[], map[])]
    else Cut(Written(h.frames, WriteOf(h.frames, h.slots, op)), Remaining(|h.frames|, op))
  }

  /** One operation as the code does it, through the caches whether they are right or not. */
  function Turn(h: Holding, op: EnvOp): (r: (Holding, Option<Value>))
    requires Rooted(h.frames) && Fits(op)
    ensures Rooted(r.0.frames)
  {
    (Holding(FramesAfter(h, op), NamesAfter(h.frames, h.names, op), SlotsAfter(h.frames, h.slots, op)), Answer(h, op))
  }

  ghost predicate Right(h: Holding) {
    NamesAgree(h.frames, h.names) && SlotsAgree(h.frames, h.slots) && |h.slots| <= FAST_SLOT_LIMIT
  }

  /** With right caches every operation is the one without caches, and exactly the harmless
      ones leave the caches right. */
  lemma TurnAgrees(h: Holding, op: EnvOp)
    requires Rooted(h.frames) && Fits(op) && Right(h)
    ensures (Turn(h, op).0.frames, Turn(h, op).1) == Apply(h.frames, op)
    ensures Right(Turn(h, op).0) <==> Harmless(h.frames, op)
  {
    hide FindName, FindSlot, VarFrame, NamesAgree, SlotsAgree, LookupName, LookupSlot, PutName, PutSlot;
    if Moves(op) {
      MoveAgrees(h, op);
    } else if OnName(op) {
      NameTurnAgrees(h, op);
    } else {
      SlotTurnAgrees(h, op);
    }
  }

  lemma MoveAgrees(h: Holding, op: EnvOp)
    requires Rooted(h.frames) && Fits(op) && Right(h) && Moves(op)
    ensures (Turn(h, op).0.frames, Turn(h, op).1) == Apply(h.frames, op)
    ensures Right(Turn(h, op).0)
  {
    hide FindName, FindSlot, VarFrame, NamesAgree, SlotsAgree, LookupName, LookupSlot, PutName, PutSlot, CachedName,
         CachedSlot;
    NothingCached(FramesAfter(h, op));
    if op.ReadName? { CachedNameRight(h.frames, h.names, op.name); }
    if op.ReadSlot? { CachedSlotRight(h.frames, h.slots, op.slot); }
  }

  lemma NameTurnAgrees(h: Holding, op: EnvOp)
    requires Rooted(h.frames) && Fits(op) && Right(h) && OnName(op)
    ensures (Turn(h, op).0.frames, Turn(h, op).1) == Apply(h.frames, op)
    ensures Right(Turn(h, op).0)
  {
    hide FindName, FindSlot, VarFrame, NamesAgree, SlotsAgree, PutName, PutSlot;
    var fs, last := h.frames, |h.frames| - 1;
    RootedHasVarFrame(fs);
    match op
    case DefineName(name, v) => DefinedAgrees(fs, last, name, v, h.names, h.slots);
    case DefineNameIfAbsent(name, v) => DefinedAgrees(fs, last, name, v, h.names, h.slots);
    case DefineGlobal(name, v) => ForgottenAgrees(fs, 0, name, v, h.names, h.slots);
    case HoistName(name, v) => ForgottenAgrees(fs, VarFrame(fs).value, name, v, h.names, h.slots);
    case WriteExisting(name, v) =>
      if FindName(fs, name).Some? { DefinedAgrees(fs, FindName(fs, name).value, name, v, h.names, h.slots); }
    case WriteOrDefine(name, v) => DefinedAgrees(fs, NameTarget(fs, name), name, v, h.names, h.slots);
  }

  lemma SlotTurnAgrees(h: Holding, op: EnvOp)
    requires Rooted(h.frames) && Fits(op) && Right(h) && !Moves(op) && !OnName(op)
    ensures (Turn(h, op).0.frames, Turn(h, op).1) == Apply(h.frames, op)
    ensures Right(Turn(h, op).0) <==> Harmless(h.frames, op)
  {
    hide FindName, FindSlot, VarFrame, NamesAgree, SlotsAgree, PutName, PutSlot, Unshadowed;
    var fs, last := h.frames, |h.frames| - 1;
    RootedHasVarFrame(fs);
    match op
    case DefineLocal(slot, v) => DefinedSlotAgrees(fs, last, slot, v, h.names, h.slots);
    case DefineLocalIfAbsent(slot, v) => DefinedSlotAgrees(fs, last, slot, v, h.names, h.slots);
    case HoistSlot(slot, v) => HoistedAgrees(fs, VarFrame(fs).value, slot, v, h.names, h.slots);
    case WriteLocal(slot, v) => SetSlotAgrees(fs, slot, v, h.names, h.slots);
  }

  // ---- whole runs ---------------------------------------------------------------------------

  /** Every operation is one its caller may make where it stands. */
  predicate AdmitsAll(fs: seq<Frame>, ops: seq<EnvOp>)
    requires Rooted(fs)
    decreases ops
  {
    ops == [] || (Admits(fs, ops[0]) && AdmitsAll(Apply(fs, ops[0]).0, ops[1..]))
  }

  function Replay(fs: seq<Frame>, ops: seq<EnvOp>): (r: (seq<Frame>, seq<Option<Value>>))
    requires Rooted(fs) && AdmitsAll(fs, ops)
    ensures Rooted(r.0) && |r.1| == |ops|
    decreases ops
  {
    if ops == [] then (fs, [])
    else
      var (gs, a) := Apply(fs, ops[0]);
      var (hs, rest) := Replay(gs, ops[1..]);
      (hs, [a] + rest)
  }

  predicate Moves(op: EnvOp) { op.Push? || op.Pop? || op.Truncate? || op.ReadName? || op.ReadSlot? }

  predicate OnName(op: EnvOp) {
    op.DefineName? || op.DefineNameIfAbsent? || op.DefineGlobal? || op.HoistName? || op.WriteExisting?
        || op.WriteOrDefine?
  }

  method Move(env: LexicalEnv, op: EnvOp) returns (r: Option<Value>)
    requires env.Valid() && Rooted(env.Frames()) && Fits(op) && Moves(op)
    modifies env
    ensures env.Valid() && fresh(env.Records() - old(env.Records()))
    ensures (env.Held(), r) == Turn(old(env.Held()), op)
    ensures if op.Push? then env.frames[..|env.frames| - 1] == old(env.frames)
                             && fresh(env.frames[|env.frames| - 1].record)
            else env.frames == Cut(old(env.frames), Remaining(|old(env.frames)|, op))
  {
    hide FindName, FindSlot, VarFrame, NamesAgree, SlotsAgree, View, LookupName, LookupSlot, CachedName, CachedSlot,
         NamesRead, SlotsRead, LexicalEnv.Valid, LexicalEnv.Agrees, LexicalEnv.Frames, EnvironmentRecord.Valid,
         EnvironmentRecord.Slots;
    r := None;
    assert env.Frames()[..|env.frames|] == env.Frames();
    match op
    case Push(kind) => env.PushFrame(kind);
    case Pop => env.PopFrame();
    case Truncate(depth) => env.TruncateToDepth(depth);
    case ReadName(name) => r := env.Get(name);
    case ReadSlot(slot) => var v := env.GetSlot(slot); r := Some(v);
  }

  method PutByName(env: LexicalEnv, op: EnvOp) returns (r: Option<Value>)
    requires env.Valid() && Rooted(env.Frames()) && OnName(op)
    modifies env, env.Records()
    ensures env.Valid() && env.frames == old(env.frames)
    ensures (env.Held(), r) == Turn(old(env.Held()), op)
  {
    hide FindName, VarFrame, NamesAgree, SlotsAgree, View, LookupName, LookupSlot, ScannedTarget, NameTarget,
         Unshadowed, LexicalEnv.Valid, LexicalEnv.Agrees, LexicalEnv.Frames, EnvironmentRecord.Valid,
         EnvironmentRecord.Slots, Rooted;
    r := None;
    match op
    case DefineName(name, v) => env.DefineCurrent(name, v);
    case DefineNameIfAbsent(name, v) => env.DefineCurrentIfAbsent(name, v);
    case DefineGlobal(name, v) => env.DefineGlobalIfAbsent(name, v);
    case HoistName(name, v) => env.DefineVarIfAbsent(name, v);
    case WriteExisting(name, v) => var found := env.SetExisting(name, v); r := Some(Bool(found));
    case WriteOrDefine(name, v) => env.SetOrDefineCurrent(name, v);
  }

  method PutBySlot(env: LexicalEnv, op: EnvOp) returns (r: Option<Value>)
    requires env.Valid() && Rooted(env.Frames()) && Fits(op) && !Moves(op) && !OnName(op)
    modifies env, env.Records()
    ensures env.Valid() && env.frames == old(env.frames)
    ensures (env.Held(), r) == Turn(old(env.Held()), op)
  {
    hide FindName, VarFrame, NamesAgree, SlotsAgree, View, LookupName, LookupSlot, ScannedTarget, SlotTarget,
         CacheSlot, SlotsSet, Unshadowed, LexicalEnv.Valid, LexicalEnv.Agrees, LexicalEnv.Frames,
         EnvironmentRecord.Valid, EnvironmentRecord.Slots, Rooted;
    r := None;
    match op
    case DefineLocal(slot, v) => env.DefineSlot(slot, v);
    case DefineLocalIfAbsent(slot, v) => env.DefineSlotIfAbsent(slot, v);
    case HoistSlot(slot, v) => env.DefineVarSlotIfAbsent(slot, v);
    case WriteLocal(slot, v) => env.SetSlot(slot, v);
  }

  /** Every operation does to frames and caches, and answers, what its transition says; of
      the frames that were there, popped or not, it writes the one it names. */
  method Do(env: LexicalEnv, op: EnvOp) returns (r: Option<Value>)
    requires env.Valid() && Rooted(env.Frames()) && Fits(op)
    modifies env, env.Records()
    ensures env.Valid() && fresh(env.Records() - old(env.Records()))
    ensures (env.Held(), r) == Turn(old(env.Held()), op)
    ensures if op.Push? then env.frames[..|env.frames| - 1] == old(env.frames)
                             && fresh(env.frames[|env.frames| - 1].record)
            else env.frames == Cut(old(env.frames), Remaining(|old(env.frames)|, op))
    ensures View(old(env.frames)) == Written(old(env.Frames()), WriteOf(old(env.Frames()), old(env.slotCache), op))
    ensures forall f :: f in old(env.frames) ==> f.record.Valid()
  {
    hide Fits, Rooted, View, NamesAfter, SlotsAfter, Answer, EnvironmentRecord.Valid, Stacked, PutName, PutSlot;
    if Moves(op) {
      r := Move(env, op);
    } else if OnName(op) {
      r := PutByName(env, op);
    } else {
      r := PutBySlot(env, op);
    }
  }

  /** Over any sequence of operations the cached lookups answer what scans would, and
      the environment ends with the frames that plain replay ends with. */
  method Perform(env: LexicalEnv, ops: seq<EnvOp>) returns (answers: seq<Option<Value>>)
    requires env.Valid() && env.Agrees() && Rooted(env.Frames()) && AdmitsAll(env.Frames(), ops)
    modifies env, env.Records()
    ensures env.Valid() && env.Agrees()
    ensures (env.Frames(), answers) == Replay(old(env.Frames()), ops)
  {
    hide NamesAgree, SlotsAgree, View, Apply, Harmless, Fits, Rooted, LexicalEnv.Frames, EnvironmentRecord.Valid,
         Stacked, Turn;
    ghost var start := env.Frames();
    answers := [];
    var i := 0;
    while i < |ops|
      invariant 0 <= i <= |ops| && |answers| == i
      invariant env.Valid() && env.Agrees() && Rooted(env.Frames()) && fresh(env.Records() - old(env.Records()))
      invariant AdmitsAll(env.Frames(), ops[i..])
      invariant Replay(start, ops).0 == Replay(env.Frames(), ops[i..]).0
      invariant Replay(start, ops).1 == answers + Replay(env.Frames(), ops[i..]).1
    {
      ghost var fs := env.Frames();
      TurnAgrees(env.Held(), ops[i]);
      var a := Do(env, ops[i]);
      assert ops[i..][1..] == ops[i + 1..];
      assert answers + Replay(fs, ops[i..]).1 == (answers + [a]) + Replay(env.Frames(), ops[i + 1..]).1;
      answers := answers + [a];
      i := i + 1;
    }
    assert answers + [] == answers;
  }

  // ---- two environments over the same records ------------------------------------------

  /** The same frames, but for the value of one binding. */
  predicate Overwrites(fs: seq<Frame>, gs: seq<Frame>, at: nat, name: string, v: Value) {
    at < |fs| && name in fs[at].names && gs == PutName(fs, at, name, v)
  }

  lemma OverwriteAgrees(fs: seq<Frame>, gs: seq<Frame>, at: nat, name: string, v: Value, names: map<string, nat>,
                        slots: seq<Option<nat>>)
    requires Overwrites(fs, gs, at, name, v) && FindName(fs, name) == Some(at) && NamesAgree(fs, names)
             && SlotsAgree(fs, slots)
    ensures NamesAgree(gs, names) && SlotsAgree(gs, slots) && LookupName(gs, name) == Some(v)
  {
    assert gs[at].names.Keys == fs[at].names.Keys;
    ShapeAgrees(fs, gs, names, slots);
    ShapeFinds(fs, gs, name, 0);
  }

  /** A write through `a` to a record that `b` holds too, seen from `b`. */
  method WriteName(a: LexicalEnv, b: LexicalEnv, name: string, v: Value)
    requires a != b && a.Valid() && b.Valid() && a.Agrees()
    requires FindName(a.Frames(), name).Some? && FindName(b.Frames(), name).Some?
    requires a.frames[FindName(a.Frames(), name).value].record == b.frames[FindName(b.Frames(), name).value].record
    modifies a`nameCache, a.Records()
    ensures a.Valid() && a.Agrees() && b.Valid()
    ensures b.Frames() == PutName(old(b.Frames()), FindName(old(b.Frames()), name).value, name, v)
  {
    hide FindName, View, NamesAgree, SlotsAgree, EnvironmentRecord.Slots, EnvironmentRecord.Valid;
    ghost var i, j := FindName(a.Frames(), name).value, FindName(b.Frames(), name).value;
    ghost var gs := b.Frames();
    var found := a.SetExisting(name, v);
    forall k | 0 <= k < |gs| ensures b.Frames()[k] == PutName(gs, j, name, v)[k] {
      b.FrameAt(k);
      if b.frames[k].record in a.Records() {
        var m :| 0 <= m < |a.frames| && a.frames[m].record == b.frames[k].record;
        a.FrameAt(m);
      }
    }
  }

  /** A write through `a` to a record that `b` holds too, seen from `b`. */
  method WriteSlot(a: LexicalEnv, b: LexicalEnv, slot: nat, v: Value)
    requires a != b && a.Valid() && b.Valid() && a.Agrees() && slot < SLOT_LIMIT
    requires FindSlot(a.Frames(), slot).Some? && FindSlot(b.Frames(), slot).Some?
    requires a.frames[FindSlot(a.Frames(), slot).value].record == b.frames[FindSlot(b.Frames(), slot).value].record
    modifies a`slotCache, a.Records()
    ensures a.Valid() && a.Agrees() && b.Valid()
    ensures b.Frames() == PutSlot(old(b.Frames()), FindSlot(old(b.Frames()), slot).value, slot, v)
  {
    hide FindSlot, View, NamesAgree, SlotsAgree, EnvironmentRecord.Slots, EnvironmentRecord.Valid, CacheEntry;
    ghost var i, j := FindSlot(a.Frames(), slot).value, FindSlot(b.Frames(), slot).value;
    ghost var gs := b.Frames();
    a.SetSlot(slot, v);
    forall k | 0 <= k < |gs| ensures b.Frames()[k] == PutSlot(gs, j, slot, v)[k] {
      b.FrameAt(k);
      if b.frames[k].record in a.Records() {
        var m :| 0 <= m < |a.frames| && a.frames[m].record == b.frames[k].record;
        a.FrameAt(m);
      }
    }
  }

  /** Overwriting a binding through one environment is seen by the next lookup through
      another that resolves the name to the same record, and spoils neither's caches. */
  method OverwriteIsSeen(a: LexicalEnv, b: LexicalEnv, name: string, v: Value) returns (seen: Option<Value>)
    requires a != b && a.Valid() && a.Agrees() && b.Valid() && b.Agrees()
    requires FindName(a.Frames(), name).Some? && FindName(b.Frames(), name).Some?
    requires a.frames[FindName(a.Frames(), name).value].record == b.frames[FindName(b.Frames(), name).value].record
    modifies a`nameCache, b`nameCache, a.Records()
    ensures a.Valid() && a.Agrees() && b.Valid() && b.Agrees()
    ensures seen == Some(v)
  {
    hide FindName, View, NamesAgree, SlotsAgree, PutName, EnvironmentRecord.Slots, EnvironmentRecord.Valid;
    ghost var j, gs := FindName(b.Frames(), name).value, b.Frames();
    WriteName(a, b, name, v);
    OverwriteAgrees(gs, b.Frames(), j, name, v, b.nameCache, b.slotCache);
    seen := b.Get(name);
  }

  /** The same for slots: a write that finds the slot bound is seen through every other
      environment whose search for it ends at the same record. */
  method SlotOverwriteIsSeen(a: LexicalEnv, b: LexicalEnv, slot: nat, v: Value) returns (seen: Value)
    requires a != b && a.Valid() && a.Agrees() && b.Valid() && b.Agrees() && slot < SLOT_LIMIT
    requires FindSlot(a.Frames(), slot).Some? && FindSlot(b.Frames(), slot).Some?
    requires a.frames[FindSlot(a.Frames(), slot).value].record == b.frames[FindSlot(b.Frames(), slot).value].record
    modifies a`slotCache, b`slotCache, a.Records()
    ensures a.Valid() && a.Agrees() && b.Valid() && b.Agrees()
    ensures seen == v
  {
    hide FindSlot, View, NamesAgree, SlotsAgree, PutSlot, EnvironmentRecord.Slots, EnvironmentRecord.Valid;
    ghost var j, gs := FindSlot(b.Frames(), slot).value, b.Frames();
    WriteSlot(a, b, slot, v);
    SlotOverwriteAgrees(gs, b.Frames(), j, slot, v, b.nameCache, b.slotCache);
    seen := b.GetSlot(slot);
  }

  predicate SlotOverwrites(fs: seq<Frame>, gs: seq<Frame>, at: nat, slot: nat, v: Value) {
    at < |fs| && slot in fs[at].slots && gs == PutSlot(fs, at, slot, v)
  }

  lemma SlotOverwriteAgrees(fs: seq<Frame>, gs: seq<Frame>, at: nat, slot: nat, v: Value, names: map<string, nat>,
                            slots: seq<Option<nat>>)
    requires SlotOverwrites(fs, gs, at, slot, v) && FindSlot(fs, slot) == Some(at) && NamesAgree(fs, names)
             && SlotsAgree(fs, slots)
    ensures NamesAgree(gs, names) && SlotsAgree(gs, slots) && LookupSlot(gs, slot) == v
  {
    assert gs[at].slots.Keys == fs[at].slots.Keys;
    ShapeAgrees(fs, gs, names, slots);
    ShapeFinds(fs, gs, "", slot);
  }

  /** A binding added to a shared frame leaves another environment's cache right exactly
      when that environment has not cached the name further out. */
  lemma NewBindingAgrees(fs: seq<Frame>, at: nat, name: string, v: Value, cache: map<string, nat>)
    requires at < |fs| && NamesAgree(fs, cache)
    ensures NamesAgree(PutName(fs, at, name, v), cache) <==> name !in cache || cache[name] >= at
  {
    PutNameAgrees(fs, at, name, v, cache, []);
    PutNameFinds(fs, at, name, v, name);
  }

  /** Two environments share a function's frame; one binds `x` there after the other has
      looked it up globally, and the other goes on answering with the global value. */
  lemma StaleName()
    ensures var fs := [Frame(Global, map["x" := Null], map[]), Frame(FunctionScope, map[], map[])];
            var gs := PutName(fs, 1, "x", Bool(true));
            && NamesAgree(fs, map["x" := 0])
            && CachedName(gs, map["x" := 0], "x") == Some(Null) && LookupName(gs, "x") == Some(Bool(true))
  {
    var fs := [Frame(Global, map["x" := Null], map[]), Frame(FunctionScope, map[], map[])];
    var gs := PutName(fs, 1, "x", Bool(true));
    assert fs[..1] == [fs[0]];
    assert FindName(fs, "x") == Some(0) by { assert fs[..1][0] == fs[0]; }
    assert FindName(gs, "x") == Some(1);
  }

  /** A `var` with the name of the catch parameter around it: the slot is hoisted past
      the catch frame that binds it, and reads then miss the parameter. */
  lemma HoistedPastCatch()
    ensures var fs := [Frame(Global, map[], map[]), Frame(CatchScope, map[], map[0 := Null])];
            var gs := PutSlotIfAbsent(fs, 0, 0, Undefined);
            && VarFrame(fs) == Some(0) && !Unshadowed(fs, 0)
            && CachedSlot(gs, CacheSlot([], 0, 0), 0) == Undefined && LookupSlot(gs, 0) == Null
  {
    var fs := [Frame(Global, map[], map[]), Frame(CatchScope, map[], map[0 := Null])];
    var gs := PutSlotIfAbsent(fs, 0, 0, Undefined);
    assert fs[..1] == [fs[0]];
    assert VarFrame(fs) == VarFrame([fs[0]]) == Some(0);
    assert FindSlot(gs, 0) == Some(1);
    assert CacheEntry(CacheSlot([], 0, 0), 0) == Some(0);
  }
}
