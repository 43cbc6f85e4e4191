/** Any number of environments over shared records, as closures make them, each with caches
    of its own that it keeps as the code does: exactly which operations leave all of them
    right, and what lookups then answer. */
module Sharing {
  import opened Syntax
  import opened Env
  import opened EnvRuns

  /** An environment: its records by identity, from the outside in, and its caches. */
  datatype Holder = Holder(ids: seq<nat>, names: map<string, nat>, slots: seq<Option<nat>>)

  datatype System = System(records: seq<Frame>, holders: seq<Holder>)

  /** One environment does something, or a closure takes a clone of it. */
  datatype SharedOp = On(e: nat, op: EnvOp) | Share(e: nat)

  predicate Chain(ids: seq<nat>, n: nat) {
    ids != [] && (forall k :: 0 <= k < |ids| ==> ids[k] < n) && forall j, k :: 0 <= j < k < |ids| ==> ids[j] != ids[k]
  }

  function FramesOf(records: seq<Frame>, ids: seq<nat>): (fs: seq<Frame>)
    requires Chain(ids, |records|)
    ensures |fs| == |ids| && forall k :: 0 <= k < |ids| ==> fs[k] == records[ids[k]]
  {
    seq(|ids|, k requires 0 <= k < |ids| => records[ids[k]])
  }

  predicate SaneOne(records: seq<Frame>, h: Holder) {
    Chain(h.ids, |records|) && Rooted(FramesOf(records, h.ids))
  }

  predicate Sane(s: System) { forall b :: 0 <= b < |s.holders| ==> SaneOne(s.records, s.holders[b]) }

  function Held(records: seq<Frame>, h: Holder): Holding
    requires Chain(h.ids, |records|)
  {
    Holding(FramesOf(records, h.ids), h.names, h.slots)
  }

  ghost predicate AllAgree(s: System)
    requires Sane(s)
  {
    forall b :: 0 <= b < |s.holders| ==> Right(Held(s.records, s.holders[b]))
  }

  // ---- what an operation does ----------------------------------------------------------------

  predicate Possible(s: System, op: SharedOp) {
    op.e < |s.holders| && (op.On? ==> Fits(op.op))
  }

  /** One record written. */
  function Put(records: seq<Frame>, id: nat, w: Write): (r: seq<Frame>)
    requires id < |records|
    ensures |r| == |records|
  {
    match w
    case NoWrite => records
    case NameAt(_, name, v) => PutName(records, id, name, v)
    case SlotAt(_, slot, v) => PutSlot(records, id, slot, v)
  }

  /** The same by way of an environment, which may write nothing. */
  function PutVia(records: seq<Frame>, ids: seq<nat>, w: Write): (r: seq<Frame>)
    requires Chain(ids, |records|) && (!w.NoWrite? ==> w.at < |ids|)
    ensures |r| == |records|
  {
    if w.NoWrite? then records else Put(records, ids[w.at], w)
  }

  function RecordsAfter(records: seq<Frame>, h: Holder, op: EnvOp): seq<Frame>
    requires SaneOne(records, h)
  {
    var w := WriteOf(FramesOf(records, h.ids), h.slots, op);
    if op.Push? then records + [Frame(op.kind, map[], map[])]
    else PutVia(records, h.ids, w)
  }

  function IdsAfter(ids: seq<nat>, next: nat, op: EnvOp): seq<nat> {
    if op.Push? then ids + [next] else Cut(ids, Remaining(|ids|, op))
  }

  /** The environment at work takes its turn, caches included; what it writes stands in a
      record that others may hold too. */
  function Act(s: System, op: SharedOp): (System, Option<Value>)
    requires Sane(s) && Possible(s, op)
  {
    var h := s.holders[op.e];
    match op
    case On(e, op) =>
      var (g, r) := Turn(Held(s.records, h), op);
      (System(RecordsAfter(s.records, h, op),
          s.holders[e := Holder(IdsAfter(h.ids, |s.records|, op), g.names, g.slots)]), r)
    case Share(_) => (s.(holders := s.holders + [Holder(h.ids, map[], [])]), None)
  }

  /** The guard: the operation is harmless where it is done, and no cache of another
      environment points further out than the frame it writes. */
  predicate Guarded(s: System, op: SharedOp)
    requires Sane(s) && Possible(s, op)
  {
    op.On? ==> Harmless(FramesOf(s.records, s.holders[op.e].ids), op.op)
               && forall b :: 0 <= b < |s.holders| && b != op.e ==> OtherSpared(s, op, b)
  }

  predicate OtherSpared(s: System, op: SharedOp, b: nat)
    requires Sane(s) && Possible(s, op) && op.On? && b < |s.holders|
  {
    var h := s.holders[op.e];
    var w := WriteOf(FramesOf(s.records, h.ids), h.slots, op.op);
    w.NoWrite? || Spares(s.holders[b], h.ids[w.at], w)
  }

  predicate Spares(h: Holder, id: nat, w: Write) {
    forall k :: 0 <= k < |h.ids| && h.ids[k] == id ==> !Beyond(h, k, w)
  }

  predicate Beyond(h: Holder, k: nat, w: Write) {
    match w
    case NoWrite => false
    case NameAt(_, name, _) => name in h.names && h.names[name] < k
    case SlotAt(_, slot, _) => CacheEntry(h.slots, slot).Some? && CacheEntry(h.slots, slot).value < k
  }

  // ---- records ---------------------------------------------------------------------------------

  lemma FramesSame(records: seq<Frame>, more: seq<Frame>, ids: seq<nat>)
    requires Chain(ids, |records|) && |more| >= |records|
    requires forall k :: 0 <= k < |ids| ==> more[ids[k]] == records[ids[k]]
    ensures Chain(ids, |more|) && FramesOf(more, ids) == FramesOf(records, ids)
  {
  }

  /** A write to a record, seen through an environment that holds it. */
  lemma FramesPut(records: seq<Frame>, ids: seq<nat>, k: nat, w: Write)
    requires Chain(ids, |records|) && k < |ids|
    ensures FramesOf(Put(records, ids[k], w), ids)
         == match w
            case NoWrite => FramesOf(records, ids)
            case NameAt(_, name, v) => PutName(FramesOf(records, ids), k, name, v)
            case SlotAt(_, slot, v) => PutSlot(FramesOf(records, ids), k, slot, v)
  {
  }

  lemma FramesVia(records: seq<Frame>, ids: seq<nat>, w: Write)
    requires Chain(ids, |records|) && (!w.NoWrite? ==> w.at < |ids|)
    ensures FramesOf(PutVia(records, ids, w), ids) == Written(FramesOf(records, ids), w)
  {
    hide PutName, PutSlot;
    if !w.NoWrite? { FramesPut(records, ids, w.at, w); }
  }

  lemma RootedPut(records: seq<Frame>, h: Holder, id: nat, w: Write)
    requires SaneOne(records, h) && id < |records|
    ensures SaneOne(Put(records, id, w), h)
  {
    assert forall k :: 0 <= k < |records| ==> Put(records, id, w)[k].kind == records[k].kind;
  }

  /** What the environment at work holds afterwards is its turn. */
  lemma ActHeld(s: System, op: SharedOp)
    requires Sane(s) && Possible(s, op) && op.On?
    ensures var h := s.holders[op.e];
            var t := Act(s, op).0;
            SaneOne(t.records, t.holders[op.e])
            && (Held(t.records, t.holders[op.e]), Act(s, op).1) == Turn(Held(s.records, h), op.op)
  {
    hide WriteOf, NamesAfter, SlotsAfter, Answer, PutName, PutSlot, Fits;
    var h := s.holders[op.e];
    var fs := FramesOf(s.records, h.ids);
    var w := WriteOf(fs, h.slots, op.op);
    var t := Act(s, op).0;
    FramesVia(s.records, h.ids, w);
    assert FramesOf(t.records, t.holders[op.e].ids) == FramesAfter(Held(s.records, h), op.op);
  }

  lemma ActSane(s: System, op: SharedOp)
    requires Sane(s) && Possible(s, op)
    ensures Sane(Act(s, op).0)
  {
    hide Turn, WriteOf, Put, Rooted;
    var t := Act(s, op).0;
    var h := s.holders[op.e];
    if op.On? {
      ActHeld(s, op);
      forall b | 0 <= b < |s.holders| && b != op.e ensures SaneOne(t.records, t.holders[b]) {
        var w := WriteOf(FramesOf(s.records, h.ids), h.slots, op.op);
        if op.op.Push? {
          FramesSame(s.records, t.records, s.holders[b].ids);
        } else if !w.NoWrite? {
          RootedPut(s.records, s.holders[b], h.ids[w.at], w);
        }
      }
    }
  }

  // ---- the guard is exact ------------------------------------------------------------------------

  lemma PutOutside(fs: seq<Frame>, at: nat, slot: nat, v: Value)
    requires at < |fs| - 1
    ensures var gs := PutSlot(fs, at, slot, v);
            |gs| == |fs| && gs[|fs| - 1] == fs[|fs| - 1] && gs[..|fs| - 1] == PutSlot(fs[..|fs| - 1], at, slot, v)
  {
  }

  lemma {:induction false} PutSlotBeyond(fs: seq<Frame>, at: nat, slot: nat, v: Value, s: nat)
    requires at < |fs| && !Within(fs, at)
    ensures FindSlot(PutSlot(fs, at, slot, v), s) == FindSlot(fs, s)
    decreases |fs|
  {
    hide Boundary, PutSlot;
    var last := |fs| - 1;
    var i :| at < i < |fs| && Boundary(fs[i].kind);
    PutOutside(fs, at, slot, v);
    if !Boundary(fs[last].kind) {
      assert fs[..last][i] == fs[i];
      PutSlotBeyond(fs[..last], at, slot, v, s);
    }
  }

  /** A new slot binding leaves a slot cache right exactly when the cache does not point
      further out. */
  lemma NewSlotAgrees(fs: seq<Frame>, at: nat, slot: nat, v: Value, cache: seq<Option<nat>>)
    requires at < |fs| && SlotsAgree(fs, cache)
    ensures SlotsAgree(PutSlot(fs, at, slot, v), cache)
       <==> CacheEntry(cache, slot).None? || CacheEntry(cache, slot).value >= at
  {
    hide FindSlot;
    var gs := PutSlot(fs, at, slot, v);
    var c := CacheEntry(cache, slot);
    if Within(fs, at) {
      PutSlotAgrees(fs, at, slot, v, map[], cache);
    } else {
      forall s ensures FindSlot(gs, s) == FindSlot(fs, s) { PutSlotBeyond(fs, at, slot, v, s); }
      if c.Some? { Outermost(fs, slot, at); }
    }
  }

  /** A slot is never found further out than a boundary. */
  lemma Outermost(fs: seq<Frame>, slot: nat, at: nat)
    requires at < |fs| && !Within(fs, at) && FindSlot(fs, slot).Some?
    ensures FindSlot(fs, slot).value > at
  {
  }

  lemma SlotKeepsNames(fs: seq<Frame>, at: nat, slot: nat, v: Value, names: map<string, nat>)
    requires at < |fs| && NamesAgree(fs, names)
    ensures NamesAgree(PutSlot(fs, at, slot, v), names)
  {
    forall n | n in names ensures FindName(PutSlot(fs, at, slot, v), n)
        == FindName(fs, n) { SlotKeepsName(fs, at, slot, v, n); }
  }

  lemma {:induction false} SlotKeepsName(fs: seq<Frame>, at: nat, slot: nat, v: Value, n: string)
    requires at < |fs|
    ensures FindName(PutSlot(fs, at, slot, v), n) == FindName(fs, n)
    decreases |fs|
  {
    var last := |fs| - 1;
    if at < last {
      SlotKeepsName(fs[..last], at, slot, v, n);
      assert PutSlot(fs, at, slot, v)[..last] == PutSlot(fs[..last], at, slot, v);
    } else {
      assert PutSlot(fs, at, slot, v)[..last] == fs[..last];
    }
  }

  lemma NameKeepsSlots(fs: seq<Frame>, at: nat, name: string, v: Value, slots: seq<Option<nat>>)
    requires at < |fs| && SlotsAgree(fs, slots)
    ensures SlotsAgree(PutName(fs, at, name, v), slots)
  {
    PutNameAgrees(fs, at, name, v, map[], slots);
  }

  /** A write by another environment leaves the caches of `h` right exactly when none of
      them points further out. */
  lemma OtherAgrees(records: seq<Frame>, h: Holder, id: nat, w: Write)
    requires Chain(h.ids, |records|) && Right(Held(records, h)) && id < |records| && !w.NoWrite?
    ensures Right(Held(Put(records, id, w), h)) <==> Spares(h, id, w)
  {
    hide NamesAgree, SlotsAgree, FindName, FindSlot, PutName, PutSlot, CacheEntry;
    if k: nat :| k < |h.ids| && h.ids[k] == id {
      var fs := FramesOf(records, h.ids);
      assert Spares(h, id, w) <==> !Beyond(h, k, w);
      FramesPut(records, h.ids, k, w);
      match w
      case NameAt(_, name, v) =>
        NewBindingAgrees(fs, k, name, v, h.names);
        NameKeepsSlots(fs, k, name, v, h.slots);
      case SlotAt(_, slot, v) =>
        NewSlotAgrees(fs, k, slot, v, h.slots);
        SlotKeepsNames(fs, k, slot, v, h.names);
    } else {
      OutsideSame(records, h.ids, id, w);
    }
  }

  lemma OutsideSame(records: seq<Frame>, ids: seq<nat>, id: nat, w: Write)
    requires Chain(ids, |records|) && id < |records| && id !in ids
    ensures FramesOf(Put(records, id, w), ids) == FramesOf(records, ids)
  {
    FramesSame(records, Put(records, id, w), ids);
  }

  /** Whichever environment does it, an operation leaves all caches right exactly when it is
      guarded; and where they were right it does, and answers, what it does by scans. */
  lemma ActAgrees(s: System, op: SharedOp)
    requires Sane(s) && AllAgree(s) && Possible(s, op)
    ensures Sane(Act(s, op).0) && (AllAgree(Act(s, op).0) <==> Guarded(s, op))
    ensures op.On? ==>
            var h := s.holders[op.e];
            var t := Act(s, op).0;
            (FramesOf(t.records, t.holders[op.e].ids), Act(s, op).1) == Apply(FramesOf(s.records, h.ids), op.op)
  {
    hide Turn, WriteOf, Right, Apply, Harmless, Fits, Put, Spares, Rooted;
    ActSane(s, op);
    var h := s.holders[op.e];
    var t := Act(s, op).0;
    assert Right(Held(s.records, h));
    if op.On? {
      ActHeld(s, op);
      TurnAgrees(Held(s.records, h), op.op);
      forall b | 0 <= b < |s.holders| && b != op.e
        ensures Right(Held(t.records, t.holders[b])) <==> OtherSpared(s, op, b)
      {
        OthersTurn(s, op, b);
      }
      assert Guarded(s, op) <==> forall b :: 0 <= b < |s.holders| ==> Right(Held(t.records, t.holders[b]));
    } else {
      ShareRight(s, op);
    }
  }

  lemma OthersTurn(s: System, op: SharedOp, b: nat)
    requires Sane(s) && AllAgree(s) && Possible(s, op) && op.On? && b < |s.holders| && b != op.e
    requires Sane(Act(s, op).0)
    ensures var t := Act(s, op).0; Right(Held(t.records, t.holders[b])) <==> OtherSpared(s, op, b)
  {
    hide Turn, WriteOf, Right, Fits, Put, Spares, Rooted;
    var h := s.holders[op.e];
    var t := Act(s, op).0;
    var w := WriteOf(FramesOf(s.records, h.ids), h.slots, op.op);
    assert t.holders[b] == s.holders[b];
    assert Right(Held(s.records, s.holders[b]));
    if op.op.Push? {
      FramesSame(s.records, t.records, s.holders[b].ids);
    } else if !w.NoWrite? {
      OtherAgrees(s.records, s.holders[b], h.ids[w.at], w);
    }
  }

  lemma ShareRight(s: System, op: SharedOp)
    requires Sane(s) && AllAgree(s) && Possible(s, op) && op.Share? && Sane(Act(s, op).0)
    ensures AllAgree(Act(s, op).0)
  {
    hide NamesAgree, SlotsAgree, FindName, FindSlot;
    NothingCached(FramesOf(s.records, s.holders[op.e].ids));
  }

  // ---- interleaved runs ------------------------------------------------------------------------

  predicate PossibleRun(s: System, ops: seq<SharedOp>)
    requires Sane(s)
    decreases ops
  {
    ops == [] || (Possible(s, ops[0]) && (ActSane(s, ops[0]); PossibleRun(Act(s, ops[0]).0, ops[1..])))
  }

  /** Every operation of the run is guarded where it stands. */
  predicate GuardedRun(s: System, ops: seq<SharedOp>)
    requires Sane(s) && PossibleRun(s, ops)
    decreases ops
  {
    ops == [] || (Guarded(s, ops[0]) && (ActSane(s, ops[0]); GuardedRun(Act(s, ops[0]).0, ops[1..])))
  }

  /** All caches are right all along the run. */
  ghost predicate AgreeThroughout(s: System, ops: seq<SharedOp>)
    requires Sane(s) && PossibleRun(s, ops)
    decreases ops
  {
    AllAgree(s) && (ops != [] ==> (ActSane(s, ops[0]); AgreeThroughout(Act(s, ops[0]).0, ops[1..])))
  }

  function After(s: System, ops: seq<SharedOp>): (r: (System, seq<Option<Value>>))
    requires Sane(s) && PossibleRun(s, ops)
    ensures Sane(r.0) && |r.1| == |ops|
    decreases ops
  {
    if ops == [] then (s, []) else
    ActSane(s, ops[0]);
    var (t, a) := Act(s, ops[0]);
    var (u, rest) := After(t, ops[1..]);
    (u, [a] + rest)
  }

  /** The same environments with nothing cached. */
  function Bare(s: System): System {
    s.(holders := seq(|s.holders|, b requires 0 <= b < |s.holders| => Holder(s.holders[b].ids, map[], [])))
  }

  lemma BareSane(s: System)
    requires Sane(s)
    ensures Sane(Bare(s))
  {
    assert forall b :: 0 <= b < |s.holders| ==> SaneOne(s.records, s.holders[b]);
  }

  predicate PossiblePlain(s: System, ops: seq<SharedOp>)
    requires Sane(s)
    decreases ops
  {
    ops == [] || (Possible(s, ops[0])
        && (ActSane(s, ops[0]); BareSane(Act(s, ops[0]).0); PossiblePlain(Bare(Act(s, ops[0]).0), ops[1..])))
  }

  /** The run without caches: they are emptied after every operation. */
  function Plain(s: System, ops: seq<SharedOp>): (r: (System, seq<Option<Value>>))
    requires Sane(s) && PossiblePlain(s, ops)
    ensures |r.1| == |ops|
    decreases ops
  {
    if ops == [] then (s, []) else
    ActSane(s, ops[0]);
    BareSane(Act(s, ops[0]).0);
    var (t, a) := Act(s, ops[0]);
    var (u, rest) := Plain(Bare(t), ops[1..]);
    (u, [a] + rest)
  }

  /** Right caches make no difference to an operation. */
  lemma BareAct(s: System, op: SharedOp)
    requires Sane(s) && AllAgree(s) && Possible(s, op) && Sane(Bare(s))
    ensures Bare(Act(s, op).0) == Bare(Act(Bare(s), op).0) && Act(s, op).1 == Act(Bare(s), op).1
  {
    hide NamesAgree, SlotsAgree, FindName, FindSlot, CacheSlot, VarFrame, NamesRead, SlotsRead, SlotsSet, PutName,
         PutSlot, Fits, Rooted;
    if op.On? {
      var h := s.holders[op.e];
      var fs := FramesOf(s.records, h.ids);
      assert Right(Held(s.records, h));
      SameWrite(Held(s.records, h), op.op);
      assert Act(s, op).0.records == Act(Bare(s), op).0.records;
    }
    assert Bare(Act(s, op).0).holders == Bare(Act(Bare(s), op).0).holders;
  }

  lemma SameWrite(h: Holding, op: EnvOp)
    requires Rooted(h.frames) && Fits(op) && Right(h)
    ensures WriteOf(h.frames, h.slots, op) == WriteOf(h.frames, [], op)
    ensures Answer(h, op) == Answer(h.(names := map[], slots := []), op)
  {
    hide FindName, FindSlot, NamesAgree, SlotsAgree, VarFrame;
    match op
    case ReadName(name) => CachedNameRight(h.frames, h.names, name);
    case ReadSlot(slot) => CachedSlotRight(h.frames, h.slots, slot);
    case WriteLocal(slot, v) => SetSlotAgrees(h.frames, slot, v, h.names, h.slots);
    case _ =>
  }

  lemma BarePossible(s: System, ops: seq<SharedOp>)
    requires Sane(s) && PossibleRun(s, ops)
    ensures ops != [] ==> Possible(Bare(s), ops[0])
  {
    hide Sane, Fits;
  }

  /** In any interleaving of operations by any of the environments, all caches are right all
      along exactly when every operation is guarded; and then records, environments and every
      answer are those of the run without caches. */
  lemma {:induction false} RunsAgree(s: System, ops: seq<SharedOp>)
    requires Sane(s) && AllAgree(s) && PossibleRun(s, ops)
    ensures AgreeThroughout(s, ops) <==> GuardedRun(s, ops)
    ensures GuardedRun(s, ops) ==> Sane(Bare(s)) && PossiblePlain(Bare(s), ops)
                                   && (Bare(After(s, ops).0), After(s, ops).1) == Plain(Bare(s), ops)
    decreases ops
  {
    hide Act, Guarded, AllAgree, Bare, Possible, Sane;
    BareSane(s);
    BarePossible(s, ops);
    if ops != [] {
      ActAgrees(s, ops[0]);
      BareAct(s, ops[0]);
      var t := Act(s, ops[0]).0;
      BareSane(t);
      if Guarded(s, ops[0]) { RunsAgree(t, ops[1..]); }
    }
  }

  // ---- a run that is not guarded -----------------------------------------------------------------

  /** A block in a function. */
  function Nested(hoisted: map<nat, Value>, inBlock: map<nat, Value>): seq<Frame> {
    [Frame(Global, map[], map[]), Frame(FunctionScope, map[], hoisted), Frame(BlockScope, map[], inBlock)]
  }

  function Caching(slots: seq<Option<nat>>): Holder { Holder([0, 1, 2], map[], slots) }

  lemma NestedSane(records: seq<Frame>, slots: seq<Option<nat>>)
    requires exists a, b :: records == Nested(a, b)
    ensures SaneOne(records, Caching(slots)) && FramesOf(records, [0, 1, 2]) == records
  {
  }

  lemma NestedFinds(a: map<nat, Value>, b: map<nat, Value>)
    ensures VarFrame(Nested(a, b)) == Some(1)
    ensures 0 in b ==> FindSlot(Nested(a, b), 0) == Some(2)
  {
    var fs := Nested(a, b);
    assert fs[..2][1] == fs[1];
  }

  function State(hoisted: map<nat, Value>, inBlock: map<nat, Value>, holders: seq<Holder>): System {
    System(Nested(hoisted, inBlock), holders)
  }

  lemma HoistStep()
    ensures var s := State(map[], map[], [Caching([])]);
            Sane(s) && Act(s, On(0, HoistSlot(0, Null))) == (State(map[0 := Null], map[], [Caching([Some(1)])]), None)
  {
    hide FindSlot, FindName, VarFrame, SlotsRead, NamesRead;
    var fs, gs := Nested(map[], map[]), Nested(map[0 := Null], map[]);
    NestedSane(fs, []);
    NestedFinds(map[], map[]);
    assert PutSlot(fs, 1, 0, Null) == gs;
    assert CacheSlot([], 0, 1) == [Some(1)];
    assert WriteOf(fs, [], HoistSlot(0, Null)) == SlotAt(1, 0, Null);
    var s := State(map[], map[], [Caching([])]);
    assert [Caching([])][0 := Caching([Some(1)])] == [Caching([Some(1)])];
    assert Act(s, On(0, HoistSlot(0, Null))).0.holders == [Caching([Some(1)])];
  }

  lemma DefineStep()
    ensures var s := State(map[0 := Null], map[], [Caching([Some(1)]), Caching([])]);
            var op := On(1, DefineLocal(0, Bool(true)));
            && Sane(s) && !Guarded(s, op)
            && Act(s, op) == (State(map[0 := Null], map[0 := Bool(true)], [Caching([Some(1)]), Caching([Some(2)])]),
               None)
  {
    var gs, hs := Nested(map[0 := Null], map[]), Nested(map[0 := Null], map[0 := Bool(true)]);
    NestedSane(gs, [Some(1)]);
    NestedSane(gs, []);
    assert PutSlot(gs, 2, 0, Bool(true)) == hs;
    assert CacheSlot([], 0, 2) == [Some(2)];
    var s := State(map[0 := Null], map[], [Caching([Some(1)]), Caching([])]);
    var op := On(1, DefineLocal(0, Bool(true)));
    assert s.holders[1 := Caching([Some(2)])] == [Caching([Some(1)]), Caching([Some(2)])];
    assert Act(s, op).0.holders == [Caching([Some(1)]), Caching([Some(2)])];
    assert Beyond(s.holders[0], 2, SlotAt(2, 0, Bool(true)));
    assert !OtherSpared(s, op, 0);
  }

  lemma ReadStep()
    ensures var s := State(map[0 := Null], map[0 := Bool(true)], [Caching([Some(1)]), Caching([Some(2)])]);
            && Sane(s) && Act(s, On(0, ReadSlot(0))) == (s, Some(Null)) && LookupSlot(s.records, 0) == Bool(true)
  {
    var hs := Nested(map[0 := Null], map[0 := Bool(true)]);
    NestedSane(hs, [Some(1)]);
    NestedSane(hs, [Some(2)]);
    NestedFinds(map[0 := Null], map[0 := Bool(true)]);
    assert SlotHit(hs, [Some(1)], 0);
    var s := State(map[0 := Null], map[0 := Bool(true)], [Caching([Some(1)]), Caching([Some(2)])]);
    assert s.holders[0 := Caching([Some(1)])] == s.holders;
    assert Act(s, On(0, ReadSlot(0))).0.holders == s.holders;
  }

  lemma ShareStep()
    ensures var s := State(map[0 := Null], map[], [Caching([Some(1)])]);
            Sane(s) && Act(s, Share(0)) == (State(map[0 := Null], map[], [Caching([Some(1)]), Caching([])]), None)
  {
    NestedSane(Nested(map[0 := Null], map[]), [Some(1)]);
    assert [Caching([Some(1)])] + [Caching([])] == [Caching([Some(1)]), Caching([])];
  }

  lemma NoRun(s: System)
    requires Sane(s)
    ensures PossibleRun(s, []) && GuardedRun(s, []) && After(s, []) == (s, [])
  {
  }

  lemma RunStep(s: System, op: SharedOp, ops: seq<SharedOp>, t: System, r: Option<Value>)
    requires Sane(s) && Possible(s, op) && Act(s, op) == (t, r) && Sane(t) && PossibleRun(t, ops)
    ensures PossibleRun(s, [op] + ops) && After(s, [op] + ops) == (After(t, ops).0, [r] + After(t, ops).1)
    ensures GuardedRun(s, [op] + ops) <==> Guarded(s, op) && GuardedRun(t, ops)
  {
    hide Act, Guarded, Sane, Possible;
    assert ([op] + ops)[1..] == ops;
  }

  /** An environment in a block of a function hoists slot 0 and remembers where; its clone
      binds the slot in the block they share. The first one goes on reading what it hoisted,
      where a scan finds the block's value. */
  lemma StaleSlot()
    ensures var s := State(map[], map[], [Caching([])]);
            var ops := [On(0, HoistSlot(0, Null)), Share(0), On(1, DefineLocal(0, Bool(true))), On(0, ReadSlot(0))];
            && Sane(s) && PossibleRun(s, ops) && !GuardedRun(s, ops)
            && After(s, ops).1 == [None, None, None, Some(Null)]
            && LookupSlot(After(s, ops).0.records, 0) == Bool(true)
  {
    hide Guarded, LookupSlot, FramesOf, SaneOne, CacheSlot, Turn, Nested, PossibleRun, GuardedRun, After, Act;
    HoistStep();
    ShareStep();
    DefineStep();
    ReadStep();
    var s := State(map[], map[], [Caching([])]);
    var s1 := State(map[0 := Null], map[], [Caching([Some(1)])]);
    var s2 := State(map[0 := Null], map[], [Caching([Some(1)]), Caching([])]);
    var s3 := State(map[0 := Null], map[0 := Bool(true)], [Caching([Some(1)]), Caching([Some(2)])]);
    var hoist, share, define, read := On(0, HoistSlot(0, Null)), Share(0), On(1, DefineLocal(0, Bool(true))),
      On(0, ReadSlot(0));
    NoRun(s3);
    var ops3 := [read] + [];
    var ops2 := [define] + ops3;
    var ops1 := [share] + ops2;
    RunStep(s3, read, [], s3, Some(Null));
    RunStep(s2, define, ops3, s3, None);
    RunStep(s1, share, ops2, s2, None);
    RunStep(s, hoist, ops1, s1, None);
    assert [hoist, share, define, read] == [hoist] + ops1;
  }
}
