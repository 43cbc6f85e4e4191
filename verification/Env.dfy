/** The runtime's lexical environment: a stack of frames whose records may be shared
    with other environments, and two caches of where a lookup last succeeded. */
module Env {
  import opened Syntax

  const FAST_SLOT_LIMIT: nat := 65536
  const SLOT_LIMIT: nat := 0x1_0000_0000

  // ---- the plain meaning -------------------------------------------------------------

  datatype ScopeKind = Global | FunctionScope | BlockScope | CatchScope

  /** A frame as a value: its kind, and what it binds by name and by slot. */
  datatype Frame = Frame(kind: ScopeKind, names: map<string, Value>, slots: map<nat, Value>)

  predicate Boundary(k: ScopeKind) { k.FunctionScope? || k.Global? }

  /** The innermost frame that binds `name`, by scanning from the inside out. */
  function FindName(fs: seq<Frame>, name: string): (r: Option<nat>)
    ensures r.Some? ==> r.value < |fs| && name in fs[r.value].names
                        && forall i :: r.value < i < |fs| ==> name !in fs[i].names
    ensures r.None? ==> forall i :: 0 <= i < |fs| ==> name !in fs[i].names
  {
    if fs == [] then None
    else if name in fs[|fs| - 1].names then Some(|fs| - 1)
    else FindName(fs[..|fs| - 1], name)
  }

  /** The same for a slot, which is looked for no further out than the nearest function
      or global frame. */
  function FindSlot(fs: seq<Frame>, slot: nat): (r: Option<nat>)
    ensures r.Some? ==> r.value < |fs| && slot in fs[r.value].slots
                        && (forall i :: r.value < i < |fs| ==> slot !in fs[i].slots && !Boundary(fs[i].kind))
    ensures r.None? ==> forall i :: 0 <= i < |fs| && slot in fs[i].slots
                                    ==> exists j :: i < j < |fs| && Boundary(fs[j].kind)
  {
    if fs == [] then None
    else if slot in fs[|fs| - 1].slots then Some(|fs| - 1)
    else if Boundary(fs[|fs| - 1].kind) then None
    else FindSlot(fs[..|fs| - 1], slot)
  }

  function LookupName(fs: seq<Frame>, name: string): Option<Value> {
    var f := FindName(fs, name);
    if f.Some? then Some(fs[f.value].names[name]) else None
  }

  function LookupSlot(fs: seq<Frame>, slot: nat): Value {
    var f := FindSlot(fs, slot);
    if f.Some? then fs[f.value].slots[slot] else Undefined
  }

  /** The nearest function or global frame. */
  function VarFrame(fs: seq<Frame>): (r: Option<nat>)
    ensures r.Some? ==> r.value < |fs| && Boundary(fs[r.value].kind) && forall i :: r.value < i < |fs|
                                                                                    ==> !Boundary(fs[i].kind)
    ensures r.None? ==> forall i :: 0 <= i < |fs| ==> !Boundary(fs[i].kind)
  {
    if fs == [] then None
    else if Boundary(fs[|fs| - 1].kind) then Some(|fs| - 1)
    else VarFrame(fs[..|fs| - 1])
  }

  function PutName(fs: seq<Frame>, at: nat, name: string, v: Value): seq<Frame>
    requires at < |fs|
  {
    fs[at := fs[at].(names := fs[at].names[name := v])]
  }

  function PutSlot(fs: seq<Frame>, at: nat, slot: nat, v: Value): seq<Frame>
    requires at < |fs|
  {
    fs[at := fs[at].(slots := fs[at].slots[slot := v])]
  }

  function PutNameIfAbsent(fs: seq<Frame>, at: nat, name: string, v: Value): seq<Frame>
    requires at < |fs|
  {
    if name in fs[at].names then fs else PutName(fs, at, name, v)
  }

  function PutSlotIfAbsent(fs: seq<Frame>, at: nat, slot: nat, v: Value): seq<Frame>
    requires at < |fs|
  {
    if slot in fs[at].slots then fs else PutSlot(fs, at, slot, v)
  }

  // ---- one record --------------------------------------------------------------------

  function SlotMap(fast: seq<Option<Value>>, overflow: map<nat, Value>): map<nat, Value> {
    (map i: nat | i < |fast| && fast[i].Some? :: fast[i].value) + overflow
  }

  function Grown(fast: seq<Option<Value>>, slot: nat): (r: seq<Option<Value>>)
    ensures slot < |r|
  {
    if |fast| <= slot then fast + seq(slot + 1 - |fast|, _ => None) else fast
  }

  lemma GrownSame(fast: seq<Option<Value>>, overflow: map<nat, Value>, slot: nat)
    ensures SlotMap(Grown(fast, slot), overflow) == SlotMap(fast, overflow)
  {
    var a, b := SlotMap(Grown(fast, slot), overflow), SlotMap(fast, overflow);
    assert forall k :: k in a <==> k in b;
  }

  lemma SlotMapPut(fast: seq<Option<Value>>, overflow: map<nat, Value>, slot: nat, v: Value)
    ensures slot < |fast| && slot !in overflow
            ==> SlotMap(fast[slot := Some(v)], overflow) == SlotMap(fast, overflow)[slot := v]
    ensures SlotMap(fast, overflow[slot := v]) == SlotMap(fast, overflow)[slot := v]
  {
  }

  /** Slots below the limit live in a vector, the rest in a map; together they are one
      finite map from slot to value. */
  class EnvironmentRecord {
    var bindings: map<string, Value>
    var slotValues: seq<Option<Value>>
    var overflow: map<nat, Value>

    constructor ()
      ensures Valid() && bindings == map[] && Slots() == map[]
    {
      bindings, slotValues, overflow := map[], [], map[];
    }

    ghost predicate Valid()
      reads this`slotValues, this`overflow
    {
      |slotValues| <= FAST_SLOT_LIMIT && forall k :: k in overflow ==> FAST_SLOT_LIMIT <= k < SLOT_LIMIT
    }

    ghost function Slots(): map<nat, Value>
      reads this`slotValues, this`overflow
    {
      SlotMap(slotValues, overflow)
    }

    method GetSlot(slot: nat) returns (r: Option<Value>)
      requires Valid() && slot < SLOT_LIMIT
      ensures r == if slot in Slots() then Some(Slots()[slot]) else None
    {
      if slot < |slotValues| {
        return slotValues[slot];
      }
      return if slot in overflow then Some(overflow[slot]) else None;
    }

    method HasSlot(slot: nat) returns (r: bool)
      requires Valid() && slot < SLOT_LIMIT
      ensures r == (slot in Slots())
    {
      if slot < |slotValues| && slotValues[slot].Some? {
        return true;
      }
      return slot in overflow;
    }

    method InsertSlot(slot: nat, v: Value)
      requires Valid() && slot < SLOT_LIMIT
      modifies this`slotValues, this`overflow
      ensures Valid() && Slots() == old(Slots())[slot := v]
    {
      hide SlotMap;
      SlotMapPut(slotValues, overflow, slot, v);
      GrownSame(slotValues, overflow, slot);
      if slot < FAST_SLOT_LIMIT {
        if |slotValues| <= slot {
          slotValues := slotValues + seq(slot + 1 - |slotValues|, _ => None);
        }
        SlotMapPut(slotValues, overflow, slot, v);
        slotValues := slotValues[slot := Some(v)];
      } else {
        overflow := overflow[slot := v];
      }
    }

    method InsertSlotIfAbsent(slot: nat, v: Value)
      requires Valid() && slot < SLOT_LIMIT
      modifies this`slotValues, this`overflow
      ensures Valid()
      ensures Slots() == if slot in old(Slots()) then old(Slots()) else old(Slots())[slot := v]
    {
      var present := HasSlot(slot);
      if !present {
        InsertSlot(slot, v);
      }
    }
  }

  datatype ScopeFrame = ScopeFrame(kind: ScopeKind, record: EnvironmentRecord)

  // ---- caches over the plain meaning ---------------------------------------------------

  /** Cached indices never dangle, and point where a scan would stop. */
  ghost predicate NamesAgree(fs: seq<Frame>, cache: map<string, nat>) {
    forall n :: n in cache ==> FindName(fs, n) == Some(cache[n])
  }

  ghost predicate SlotsAgree(fs: seq<Frame>, cache: seq<Option<nat>>) {
    forall s :: 0 <= s < |cache| && cache[s].Some? ==> FindSlot(fs, s) == cache[s]
  }

  /** Same kinds and same bound names and slots, whatever the values. */
  predicate SameShape(fs: seq<Frame>, gs: seq<Frame>) {
    |fs| == |gs| && forall i :: 0 <= i < |fs| ==>
      fs[i].kind == gs[i].kind && fs[i].names.Keys == gs[i].names.Keys && fs[i].slots.Keys == gs[i].slots.Keys
  }

  lemma {:induction false} ShapeFinds(fs: seq<Frame>, gs: seq<Frame>, name: string, slot: nat)
    requires SameShape(fs, gs)
    ensures FindName(fs, name) == FindName(gs, name) && FindSlot(fs, slot) == FindSlot(gs, slot)
            && VarFrame(fs) == VarFrame(gs)
  {
    if fs != [] {
      assert fs[|fs| - 1].names.Keys == gs[|fs| - 1].names.Keys;
      ShapeFinds(fs[..|fs| - 1], gs[..|gs| - 1], name, slot);
    }
  }

  /** Overwriting values leaves every cache right, whoever wrote. */
  lemma ShapeAgrees(fs: seq<Frame>, gs: seq<Frame>, names: map<string, nat>, slots: seq<Option<nat>>)
    requires SameShape(fs, gs) && NamesAgree(fs, names) && SlotsAgree(fs, slots)
    ensures NamesAgree(gs, names) && SlotsAgree(gs, slots)
  {
    forall n | n in names ensures FindName(gs, n) == Some(names[n]) { ShapeFinds(fs, gs, n, 0); }
    forall s | 0 <= s < |slots| && slots[s].Some? ensures FindSlot(gs, s) == slots[s] { ShapeFinds(fs, gs, "", s); }
  }

  lemma {:induction false} PutNameFinds(fs: seq<Frame>, at: nat, name: string, v: Value, n: string)
    requires at < |fs|
    ensures var gs := PutName(fs, at, name, v);
            FindName(gs, n) == (if n == name && (FindName(fs, n).None? || FindName(fs, n).value < at)
                then Some(at) else FindName(fs, n))
  {
    var gs := PutName(fs, at, name, v);
    if at < |fs| - 1 {
      assert gs[..|gs| - 1] == PutName(fs[..|fs| - 1], at, name, v);
      PutNameFinds(fs[..|fs| - 1], at, name, v, n);
    } else {
      assert gs[..|gs| - 1] == fs[..|fs| - 1];
    }
  }

  lemma {:induction false} PutNameKeepsSlots(fs: seq<Frame>, at: nat, name: string, v: Value, slot: nat)
    requires at < |fs|
    ensures FindSlot(PutName(fs, at, name, v), slot) == FindSlot(fs, slot)
  {
    var gs := PutName(fs, at, name, v);
    if at < |fs| - 1 {
      assert gs[..|gs| - 1] == PutName(fs[..|fs| - 1], at, name, v);
      PutNameKeepsSlots(fs[..|fs| - 1], at, name, v, slot);
    } else {
      assert gs[..|gs| - 1] == fs[..|fs| - 1];
    }
  }

  /** No frame inside frame `at` ends the search for a slot. */
  predicate Within(fs: seq<Frame>, at: nat) {
    forall i :: at < i < |fs| ==> !Boundary(fs[i].kind)
  }

  lemma {:induction false} PutSlotFinds(fs: seq<Frame>, at: nat, slot: nat, v: Value, n: string, s: nat)
    requires at < |fs| && Within(fs, at)
    ensures var gs := PutSlot(fs, at, slot, v);
            && FindName(gs, n) == FindName(fs, n) && VarFrame(gs) == VarFrame(fs)
            && FindSlot(gs, s) == (if s == slot && (FindSlot(fs, s).None? || FindSlot(fs, s).value < at)
               then Some(at) else FindSlot(fs, s))
  {
    hide Boundary;
    var gs := PutSlot(fs, at, slot, v);
    if at < |fs| - 1 {
      assert gs[..|gs| - 1] == PutSlot(fs[..|fs| - 1], at, slot, v);
      PutSlotFinds(fs[..|fs| - 1], at, slot, v, n, s);
    } else {
      assert gs[..|gs| - 1] == fs[..|fs| - 1];
    }
  }

  /** A new or overwritten name leaves the caches right, if the name's own entry is
      not below the frame written. */
  lemma PutNameAgrees(fs: seq<Frame>, at: nat, name: string, v: Value, names: map<string, nat>, slots: seq<Option<nat>>)
    requires at < |fs| && NamesAgree(fs, names) && SlotsAgree(fs, slots)
    ensures SlotsAgree(PutName(fs, at, name, v), slots)
    ensures NamesAgree(PutName(fs, at, name, v), names - {name})
    ensures name !in names || names[name] >= at ==> NamesAgree(PutName(fs, at, name, v), names)
    ensures FindName(fs, name).None? || FindName(fs, name).value <= at
            ==> FindName(PutName(fs, at, name, v), name) == Some(at)
  {
    var gs := PutName(fs, at, name, v);
    forall n | n in names && (n != name || names[name] >= at)
      ensures FindName(gs, n) == Some(names[n]) { PutNameFinds(fs, at, name, v, n); }
    forall s | 0 <= s < |slots| && slots[s].Some?
      ensures FindSlot(gs, s) == slots[s] { PutNameKeepsSlots(fs, at, name, v, s); }
    PutNameFinds(fs, at, name, v, name);
  }

  lemma PutSlotAgrees(fs: seq<Frame>, at: nat, slot: nat, v: Value, names: map<string, nat>, slots: seq<Option<nat>>)
    requires at < |fs| && Within(fs, at) && NamesAgree(fs, names) && SlotsAgree(fs, slots)
    ensures NamesAgree(PutSlot(fs, at, slot, v), names)
    ensures forall s :: 0 <= s < |slots| && s != slot && slots[s].Some?
                        ==> FindSlot(PutSlot(fs, at, slot, v), s) == slots[s]
    ensures FindSlot(PutSlot(fs, at, slot, v), slot) == if FindSlot(fs, slot).Some? && FindSlot(fs, slot).value > at
            then FindSlot(fs, slot) else Some(at)
  {
    var gs := PutSlot(fs, at, slot, v);
    forall n | n in names ensures FindName(gs, n) == Some(names[n]) { PutSlotFinds(fs, at, slot, v, n, 0); }
    forall s | 0 <= s < |slots| && s != slot && slots[s].Some?
      ensures FindSlot(gs, s) == slots[s] { PutSlotFinds(fs, at, slot, v, "", s); }
    PutSlotFinds(fs, at, slot, v, "", slot);
  }

  /** The cache answers, right or not: the frame it names has a binding. */
  predicate NameHit(fs: seq<Frame>, cache: map<string, nat>, name: string) {
    name in cache && cache[name] < |fs| && name in fs[cache[name]].names
  }

  predicate SlotHit(fs: seq<Frame>, cache: seq<Option<nat>>, slot: nat) {
    var e := CacheEntry(cache, slot);
    e.Some? && e.value < |fs| && slot in fs[e.value].slots
  }

  function CachedName(fs: seq<Frame>, cache: map<string, nat>, name: string): Option<Value> {
    if NameHit(fs, cache, name) then Some(fs[cache[name]].names[name]) else LookupName(fs, name)
  }

  function CacheEntry(cache: seq<Option<nat>>, slot: nat): Option<nat> {
    if slot < |cache| then cache[slot] else None
  }

  function CachedSlot(fs: seq<Frame>, cache: seq<Option<nat>>, slot: nat): Value {
    if SlotHit(fs, cache, slot) then fs[CacheEntry(cache, slot).value].slots[slot] else LookupSlot(fs, slot)
  }

  function CacheSlot(cache: seq<Option<nat>>, slot: nat, at: nat): seq<Option<nat>> {
    if slot >= FAST_SLOT_LIMIT then cache
    else (if |cache| <= slot then cache + seq(slot + 1 - |cache|, _ => None) else cache)[slot := Some(at)]
  }

  /** What a lookup leaves in the cache. */
  function NamesRead(fs: seq<Frame>, cache: map<string, nat>, name: string): map<string, nat> {
    if NameHit(fs, cache, name) || FindName(fs, name).None? then cache else cache[name := FindName(fs, name).value]
  }

  function SlotsRead(fs: seq<Frame>, cache: seq<Option<nat>>, slot: nat): seq<Option<nat>> {
    if SlotHit(fs, cache, slot) || FindSlot(fs, slot).None? then cache
    else CacheSlot(cache, slot, FindSlot(fs, slot).value)
  }

  lemma CacheSlotAgrees(fs: seq<Frame>, cache: seq<Option<nat>>, slot: nat, at: nat)
    requires forall s :: 0 <= s < |cache| && s != slot && cache[s].Some? ==> FindSlot(fs, s) == cache[s]
    ensures slot < FAST_SLOT_LIMIT ==> (SlotsAgree(fs, CacheSlot(cache, slot, at)) <==> FindSlot(fs, slot) == Some(at))
  {
    var c := CacheSlot(cache, slot, at);
    if slot < FAST_SLOT_LIMIT {
      assert c[slot] == Some(at);
      forall s | 0 <= s < |c| && s != slot ensures c[s] == CacheEntry(cache, s) {}
    }
  }

  /** Only the outermost frame is global. */
  predicate Rooted(fs: seq<Frame>) {
    fs != [] && fs[0].kind.Global? && forall i :: 0 < i < |fs| ==> !fs[i].kind.Global?
  }

  lemma NothingCached(fs: seq<Frame>)
    ensures NamesAgree(fs, map[]) && SlotsAgree(fs, [])
  {
  }

  /** With caches that agree, a cached lookup is the scan; and remembering where a scan
      stopped keeps them so. */
  lemma CachedNameRight(fs: seq<Frame>, cache: map<string, nat>, name: string)
    ensures NamesAgree(fs, cache) ==> CachedName(fs, cache, name) == LookupName(fs, name)
    ensures NamesAgree(fs, cache) ==> NamesAgree(fs, NamesRead(fs, cache, name))
  {
  }

  lemma CachedSlotRight(fs: seq<Frame>, cache: seq<Option<nat>>, slot: nat)
    ensures SlotsAgree(fs, cache) ==> CachedSlot(fs, cache, slot) == LookupSlot(fs, slot)
    ensures SlotsAgree(fs, cache) ==> SlotsAgree(fs, SlotsRead(fs, cache, slot))
  {
    if SlotsAgree(fs, cache) && FindSlot(fs, slot).Some? { CacheSlotAgrees(fs, cache, slot, FindSlot(fs, slot).value); }
  }

  /** Where `set_slot` writes: the cached frame, the scanned one, or the current one. */
  function ScannedTarget(fs: seq<Frame>, slot: nat): (at: nat)
    requires fs != []
    ensures at < |fs|
  {
    if FindSlot(fs, slot).Some? then FindSlot(fs, slot).value else |fs| - 1
  }

  function SlotTarget(fs: seq<Frame>, cache: seq<Option<nat>>, slot: nat): (at: nat)
    requires fs != []
    ensures at < |fs|
  {
    if SlotHit(fs, cache, slot) then CacheEntry(cache, slot).value else ScannedTarget(fs, slot)
  }

  /** What a write to a slot leaves in the cache. */
  function SlotsSet(fs: seq<Frame>, cache: seq<Option<nat>>, slot: nat): seq<Option<nat>>
    requires fs != []
  {
    if SlotHit(fs, cache, slot) then cache else CacheSlot(cache, slot, ScannedTarget(fs, slot))
  }

  function NameTarget(fs: seq<Frame>, name: string): (at: nat)
    requires fs != []
    ensures at < |fs|
  {
    if FindName(fs, name).Some? then FindName(fs, name).value else |fs| - 1
  }

  /** No frame inside the function's own binds the slot. */
  predicate Unshadowed(fs: seq<Frame>, slot: nat) {
    VarFrame(fs).Some? && forall i :: VarFrame(fs).value < i < |fs| ==> slot !in fs[i].slots
  }

  /** A name written in the current frame, or where it is bound, and remembered there. */
  lemma DefinedAgrees(fs: seq<Frame>, at: nat, name: string, v: Value, names: map<string, nat>, slots: seq<Option<nat>>)
    requires at < |fs| && NamesAgree(fs, names) && SlotsAgree(fs, slots)
             && (at == |fs| - 1 || FindName(fs, name) == Some(at))
    ensures NamesAgree(PutName(fs, at, name, v), names[name := at]) && SlotsAgree(PutName(fs, at, name, v), slots)
    ensures NamesAgree(PutNameIfAbsent(fs, at, name, v), names[name := at])
            && SlotsAgree(PutNameIfAbsent(fs, at, name, v), slots)
  {
    hide FindName;
    PutNameAgrees(fs, at, name, v, names, slots);
    assert name in fs[at].names ==> FindName(fs, name) == Some(at);
  }

  lemma ForgottenAgrees(fs: seq<Frame>, at: nat, name: string, v: Value, names: map<string, nat>,
                        slots: seq<Option<nat>>)
    requires at < |fs| && NamesAgree(fs, names) && SlotsAgree(fs, slots)
    ensures NamesAgree(PutNameIfAbsent(fs, at, name, v), map[]) && SlotsAgree(PutNameIfAbsent(fs, at, name, v), slots)
  {
    PutNameAgrees(fs, at, name, v, names, slots);
  }

  /** A slot written in a frame no search passes by, and remembered there. */
  lemma DefinedSlotAgrees(fs: seq<Frame>, at: nat, slot: nat, v: Value, names: map<string, nat>,
                          slots: seq<Option<nat>>)
    requires at < |fs| && NamesAgree(fs, names) && SlotsAgree(fs, slots) && |slots| <= FAST_SLOT_LIMIT
    requires at == |fs| - 1 || FindSlot(fs, slot) == Some(at)
    ensures NamesAgree(PutSlot(fs, at, slot, v), names)
            && SlotsAgree(PutSlot(fs, at, slot, v), CacheSlot(slots, slot, at))
    ensures NamesAgree(PutSlotIfAbsent(fs, at, slot, v), names)
            && SlotsAgree(PutSlotIfAbsent(fs, at, slot, v), CacheSlot(slots, slot, at))
  {
    PutSlotAgrees(fs, at, slot, v, names, slots);
    CacheSlotAgrees(PutSlot(fs, at, slot, v), slots, slot, at);
    CacheSlotAgrees(fs, slots, slot, at);
    assert slot in fs[at].slots ==> FindSlot(fs, slot) == Some(at);
  }

  lemma HoistedAgrees(fs: seq<Frame>, at: nat, slot: nat, v: Value, names: map<string, nat>, slots: seq<Option<nat>>)
    requires VarFrame(fs) == Some(at) && NamesAgree(fs, names) && SlotsAgree(fs, slots) && |slots| <= FAST_SLOT_LIMIT
    ensures var gs := PutSlotIfAbsent(fs, at, slot, v);
            NamesAgree(gs, names) && (SlotsAgree(gs, CacheSlot(slots, slot, at))
                <==> slot >= FAST_SLOT_LIMIT || Unshadowed(fs, slot))
  {
    PutSlotAgrees(fs, at, slot, v, names, slots);
    CacheSlotAgrees(PutSlot(fs, at, slot, v), slots, slot, at);
    CacheSlotAgrees(fs, slots, slot, at);
    if !Unshadowed(fs, slot) {
      var i :| at < i < |fs| && slot in fs[i].slots;
      assert FindSlot(fs, slot).Some? && FindSlot(fs, slot).value >= i;
    }
  }

  lemma SetSlotAgrees(fs: seq<Frame>, slot: nat, v: Value, names: map<string, nat>, slots: seq<Option<nat>>)
    requires fs != [] && NamesAgree(fs, names) && SlotsAgree(fs, slots) && |slots| <= FAST_SLOT_LIMIT
    ensures SlotTarget(fs, slots, slot) == ScannedTarget(fs, slot)
    ensures var at := ScannedTarget(fs, slot); var gs := PutSlot(fs, at, slot, v);
            NamesAgree(gs, names) && SlotsAgree(gs, SlotsSet(fs, slots, slot))
  {
    var at := ScannedTarget(fs, slot);
    DefinedSlotAgrees(fs, at, slot, v, names, slots);
    if SlotHit(fs, slots, slot) { assert CacheSlot(slots, slot, at) == slots; }
  }

  /** What an environment holds: its frames, from the outside in, and its caches. */
  datatype Holding = Holding(frames: seq<Frame>, names: map<string, nat>, slots: seq<Option<nat>>)

  // ---- the environment ---------------------------------------------------------------

  /** Only the outermost frame is global, and no record stands twice. */
  ghost predicate Stacked(frames: seq<ScopeFrame>) {
    && (frames != [] ==> frames[0].kind.Global?) && (forall i :: 0 < i < |frames| ==> !frames[i].kind.Global?)
    && (forall i, j :: 0 <= i < j < |frames| ==> frames[i].record != frames[j].record)
  }

  lemma StackedMore(frames: seq<ScopeFrame>, f: ScopeFrame)
    requires frames != [] && Stacked(frames) && !f.kind.Global? && forall i :: 0 <= i < |frames|
                                                                               ==> frames[i].record != f.record
    ensures Stacked(frames + [f])
  {
  }


  /** What the frames hold at the moment. */
  ghost function View(frames: seq<ScopeFrame>): (fs: seq<Frame>)
    reads set i | 0 <= i < |frames| :: frames[i].record
    ensures |fs| == |frames|
    ensures forall i :: 0 <= i < |frames|
                        ==> fs[i] == Frame(frames[i].kind, frames[i].record.bindings, frames[i].record.Slots())
  {
    if frames == [] then []
    else
      var last := frames[|frames| - 1];
      View(frames[..|frames| - 1]) + [Frame(last.kind, last.record.bindings, last.record.Slots())]
  }

  class LexicalEnv {
    var frames: seq<ScopeFrame>
    var slotCache: seq<Option<nat>>
    var nameCache: map<string, nat>

    ghost function Records(): set<EnvironmentRecord>
      reads this`frames
    {
      set i | 0 <= i < |frames| :: frames[i].record
    }

    ghost predicate Valid()
      reads this, Records()
    {
      && frames != [] && Stacked(frames)
      && (forall i :: 0 <= i < |frames| ==> frames[i].record.Valid())
      && |slotCache| <= FAST_SLOT_LIMIT
    }

    ghost function Frames(): (fs: seq<Frame>)
      reads this`frames, Records()
      ensures |fs| == |frames|
    {
      View(frames)
    }

    ghost function Held(): Holding
      reads this, Records()
    {
      Holding(Frames(), nameCache, slotCache)
    }

    /** Both caches agree with the scan. */
    ghost predicate Agrees()
      reads this, Records()
    {
      NamesAgree(Frames(), nameCache) && SlotsAgree(Frames(), slotCache)
    }

    /** A new global environment, whose `this` holds the host's object. */
    constructor (host: Value)
      ensures Valid() && Agrees() && fresh(Records())
      ensures Frames() == [Frame(Global, map["this" := host], map[])] && slotCache == [] && nameCache == map[]
    {
      var record := new EnvironmentRecord();
      record.bindings := map["this" := host];
      frames, slotCache, nameCache := [ScopeFrame(Global, record)], [], map[];
    }

    /** What a closure keeps: the same records, caches of its own. */
    constructor Clone(other: LexicalEnv)
      requires other.Valid()
      ensures Valid() && Agrees() && frames == other.frames
      ensures slotCache == [] && nameCache == map[]
    {
      frames, slotCache, nameCache := other.frames, [], map[];
    }

    method ClearLookupCaches()
      modifies this`slotCache, this`nameCache
      ensures slotCache == [] && nameCache == map[]
    {
      slotCache := [];
      nameCache := map[];
    }

    method PushFrame(kind: ScopeKind)
      requires Valid() && !kind.Global?
      modifies this
      ensures Valid() && Agrees() && fresh(Records() - old(Records()))
      ensures Frames() == old(Frames()) + [Frame(kind, map[], map[])]
      ensures frames[..|frames| - 1] == old(frames) && slotCache == [] && nameCache == map[]
      ensures fresh(frames[|frames| - 1].record)
    {
      hide EnvironmentRecord.Slots, NamesAgree, SlotsAgree, View, Stacked;
      AddFrame(kind);
      ClearLookupCaches();
      NothingCached(Frames());
    }

    /** A frame with a new record goes on top. */
    method AddFrame(kind: ScopeKind)
      requires Valid() && !kind.Global?
      modifies this`frames
      ensures Valid() && |frames| == |old(frames)| + 1 && frames[..|frames| - 1] == old(frames)
      ensures fresh(Records() - old(Records())) && fresh(frames[|frames| - 1].record)
      ensures Frames() == old(Frames()) + [Frame(kind, map[], map[])]
    {
      hide EnvironmentRecord.Slots, EnvironmentRecord.Valid, Stacked, View;
      var record := new EnvironmentRecord();
      ghost var before := frames;
      StackedMore(frames, ScopeFrame(kind, record));
      frames := frames + [ScopeFrame(kind, record)];
      assert forall i :: 0 <= i < |before| ==> frames[i] == before[i] && before[i].record in old(Records());
    }

    method PopFrame()
      requires Valid()
      modifies this
      ensures Valid() && (old(Agrees()) ==> Agrees())
      ensures frames == if |old(frames)| > 1 then old(frames)[..|old(frames)| - 1] else old(frames)
      ensures Frames() == old(Frames())[..|frames|]
      ensures |old(frames)| > 1 ==> slotCache == [] && nameCache == map[]
      ensures |old(frames)| == 1 ==> slotCache == old(slotCache) && nameCache == old(nameCache)
    {
      hide EnvironmentRecord.Slots, EnvironmentRecord.Valid, NamesAgree, SlotsAgree, View;
      if !frames[|frames| - 1].kind.Global? {
        frames := frames[..|frames| - 1];
        ClearLookupCaches();
        NothingCached(Frames());
      }
    }

    method TruncateToDepth(depth: nat)
      requires Valid()
      modifies this
      ensures Valid() && (old(Agrees()) ==> Agrees())
      ensures var keep := if depth > 1 then depth else 1;
              frames == if keep < |old(frames)| then old(frames)[..keep] else old(frames)
      ensures Frames() == old(Frames())[..|frames|]
      ensures if |frames| < |old(frames)| then slotCache == [] && nameCache == map[]
              else slotCache == old(slotCache) && nameCache == old(nameCache)
    {
      hide EnvironmentRecord.Slots, EnvironmentRecord.Valid, NamesAgree, SlotsAgree, View;
      var keep := if depth > 1 then depth else 1;
      while |frames| > keep
        invariant Valid() && (old(Agrees()) ==> Agrees())
        invariant |frames| <= |old(frames)| && frames == old(frames)[..|frames|]
        invariant |frames| >= keep || frames == old(frames)
        invariant if |frames| < |old(frames)| then slotCache == [] && nameCache == map[]
                  else slotCache == old(slotCache) && nameCache == old(nameCache)
      {
        PopFrame();
      }
    }

    method CachedNameFrame(name: string) returns (r: Option<nat>)
      ensures r == if name in nameCache && nameCache[name] < |frames| then Some(nameCache[name]) else None
    {
      return if name in nameCache && nameCache[name] < |frames| then Some(nameCache[name]) else None;
    }

    method CachedSlotFrame(slot: nat) returns (r: Option<nat>)
      ensures r == if CacheEntry(slotCache, slot).Some? && CacheEntry(slotCache, slot).value < |frames|
              then CacheEntry(slotCache, slot) else None
    {
      r := if slot < |slotCache| then slotCache[slot] else None;
      if r.Some? && r.value >= |frames| {
        r := None;
      }
    }

    method CacheSlotFrame(slot: nat, at: nat)
      requires |slotCache| <= FAST_SLOT_LIMIT
      modifies this`slotCache
      ensures slotCache == CacheSlot(old(slotCache), slot, at) && |slotCache| <= FAST_SLOT_LIMIT
    {
      if slot >= FAST_SLOT_LIMIT {
        return;
      }
      if |slotCache| <= slot {
        slotCache := slotCache + seq(slot + 1 - |slotCache|, _ => None);
      }
      slotCache := slotCache[slot := Some(at)];
    }

    /** The scan from the inside out that every lookup falls back to. */
    method ScanName(name: string) returns (r: Option<nat>)
      requires Valid()
      ensures r == FindName(Frames(), name)
    {
      hide EnvironmentRecord.Slots, FindSlot, FindName, Stacked, View;
      ghost var fs := Frames();
      var i := |frames|;
      while i > 0
        invariant 0 <= i <= |frames| && forall k :: i <= k < |frames| ==> name !in fs[k].names
      {
        i := i - 1;
        if name in frames[i].record.bindings {
          return Some(i);
        }
      }
      return None;
    }

    method ScanSlot(slot: nat) returns (r: Option<nat>)
      requires Valid() && slot < SLOT_LIMIT
      ensures r == FindSlot(Frames(), slot)
    {
      hide EnvironmentRecord.Slots, FindSlot, FindName, Stacked, View;
      ghost var fs := Frames();
      var i := |frames|;
      while i > 0
        invariant 0 <= i <= |frames| && forall k :: i <= k < |frames| ==> slot !in fs[k].slots && !Boundary(fs[k].kind)
      {
        i := i - 1;
        var has := frames[i].record.HasSlot(slot);
        if has {
          return Some(i);
        }
        if Boundary(frames[i].kind) {
          return None;
        }
      }
      return None;
    }

    method Get(name: string) returns (r: Option<Value>)
      requires Valid()
      modifies this`nameCache
      ensures Valid() && Frames() == old(Frames())
      ensures r == CachedName(Frames(), old(nameCache), name)
      ensures nameCache == NamesRead(Frames(), old(nameCache), name)
      ensures old(Agrees()) ==> Agrees() && r == LookupName(Frames(), name)
    {
      hide EnvironmentRecord.Slots, FindName, LookupName, NamesAgree, SlotsAgree, Stacked, View;
      ghost var fs := Frames();
      CachedNameRight(fs, nameCache, name);
      var at := CachedNameFrame(name);
      if at.Some? && name in frames[at.value].record.bindings {
        assert fs[at.value].names == frames[at.value].record.bindings;
        return Some(frames[at.value].record.bindings[name]);
      }
      r := GetUncached(name);
    }

    /** The part of a lookup that runs when the cache does not answer. */
    method GetUncached(name: string) returns (r: Option<Value>)
      requires Valid()
      modifies this`nameCache
      ensures Valid() && Frames() == old(Frames())
      ensures r == LookupName(Frames(), name)
      ensures nameCache == if FindName(Frames(), name).Some?
              then old(nameCache)[name := FindName(Frames(), name).value] else old(nameCache)
    {
      hide EnvironmentRecord.Slots, FindName, NamesAgree, SlotsAgree, Stacked, View;
      ghost var fs := Frames();
      var at := ScanName(name);
      if at.None? {
        return None;
      }
      nameCache := nameCache[name := at.value];
      assert Frames() == fs;
      return Some(frames[at.value].record.bindings[name]);
    }

    method GetSlot(slot: nat) returns (v: Value)
      requires Valid() && slot < SLOT_LIMIT
      modifies this`slotCache
      ensures Valid() && Frames() == old(Frames())
      ensures v == CachedSlot(Frames(), old(slotCache), slot)
      ensures slotCache == SlotsRead(Frames(), old(slotCache), slot)
      ensures old(Agrees()) ==> Agrees() && v == LookupSlot(Frames(), slot)
    {
      hide EnvironmentRecord.Slots, FindSlot, LookupSlot, NamesAgree, SlotsAgree, Stacked, View;
      ghost var fs := Frames();
      CachedSlotRight(fs, slotCache, slot);
      var at := CachedSlotFrame(slot);
      if at.Some? {
        assert fs[at.value].slots == frames[at.value].record.Slots();
        var hit := frames[at.value].record.GetSlot(slot);
        if hit.Some? {
          return hit.value;
        }
      }
      v := GetSlotUncached(slot);
    }

    method GetSlotUncached(slot: nat) returns (v: Value)
      requires Valid() && slot < SLOT_LIMIT
      modifies this`slotCache
      ensures Valid() && Frames() == old(Frames())
      ensures v == LookupSlot(Frames(), slot)
      ensures |slotCache| <= FAST_SLOT_LIMIT
              && slotCache == if FindSlot(Frames(), slot).Some?
              then CacheSlot(old(slotCache), slot, FindSlot(Frames(), slot).value) else old(slotCache)
    {
      hide EnvironmentRecord.Slots, FindSlot, CacheSlot, NamesAgree, SlotsAgree, Records, Stacked, View;
      ghost var fs := Frames();
      var at := ScanSlot(slot);
      if at.None? {
        return Undefined;
      }
      assert fs[at.value].slots == frames[at.value].record.Slots();
      var hit := frames[at.value].record.GetSlot(slot);
      CacheSlotFrame(slot, at.value);
      assert Frames() == fs;
      return hit.value;
    }

    // ---- writing one record -------------------------------------------------------------

    /** One record written: what the environment then is, as frames. */
    method WriteName(at: nat, name: string, v: Value)
      requires Valid() && at < |frames|
      modifies frames[at].record`bindings
      ensures Valid() && Frames() == PutName(old(Frames()), at, name, v)
    {
      hide EnvironmentRecord.Slots, FindSlot, FindName, View;
      var record := frames[at].record;
      record.bindings := record.bindings[name := v];
    }

    method WriteNameIfAbsent(at: nat, name: string, v: Value)
      requires Valid() && at < |frames|
      modifies frames[at].record`bindings
      ensures Valid() && Frames() == PutNameIfAbsent(old(Frames()), at, name, v)
    {
      if name !in frames[at].record.bindings {
        WriteName(at, name, v);
      } else {
        assert Frames() == old(Frames());
      }
    }

    method WriteSlot(at: nat, slot: nat, v: Value)
      requires Valid() && at < |frames| && slot < SLOT_LIMIT
      modifies frames[at].record`slotValues, frames[at].record`overflow
      ensures Valid() && Frames() == PutSlot(old(Frames()), at, slot, v)
    {
      hide EnvironmentRecord.Slots, FindSlot, FindName, View;
      frames[at].record.InsertSlot(slot, v);
    }

    method WriteSlotIfAbsent(at: nat, slot: nat, v: Value)
      requires Valid() && at < |frames| && slot < SLOT_LIMIT
      modifies frames[at].record`slotValues, frames[at].record`overflow
      ensures Valid() && Frames() == PutSlotIfAbsent(old(Frames()), at, slot, v)
    {
      hide EnvironmentRecord.Slots, FindSlot, FindName, View;
      frames[at].record.InsertSlotIfAbsent(slot, v);
      assert Frames() == PutSlotIfAbsent(old(Frames()), at, slot, v);
    }

    // ---- defining and setting -----------------------------------------------------------

    method DefineCurrent(name: string, v: Value)
      requires Valid()
      modifies this`nameCache, Records()
      ensures Valid() && frames == old(frames) && slotCache == old(slotCache)
      ensures Frames() == PutName(old(Frames()), |frames| - 1, name, v)
      ensures nameCache == old(nameCache)[name := |frames| - 1]
      ensures old(Agrees()) ==> Agrees()
    {
      hide EnvironmentRecord.Slots, FindName, NamesAgree, SlotsAgree, View, PutName, PutNameIfAbsent, Stacked;
      ghost var fs := Frames();
      WriteName(|frames| - 1, name, v);
      nameCache := nameCache[name := |frames| - 1];
      assert Frames() == PutName(fs, |frames| - 1, name, v);
      if old(Agrees()) { DefinedAgrees(fs, |frames| - 1, name, v, old(nameCache), slotCache); }
    }

    method DefineCurrentIfAbsent(name: string, v: Value)
      requires Valid()
      modifies this`nameCache, Records()
      ensures Valid() && frames == old(frames) && slotCache == old(slotCache)
      ensures Frames() == PutNameIfAbsent(old(Frames()), |frames| - 1, name, v)
      ensures nameCache == old(nameCache)[name := |frames| - 1]
      ensures old(Agrees()) ==> Agrees()
    {
      hide EnvironmentRecord.Slots, FindName, NamesAgree, SlotsAgree, View, PutName, PutNameIfAbsent, Stacked;
      ghost var fs := Frames();
      WriteNameIfAbsent(|frames| - 1, name, v);
      nameCache := nameCache[name := |frames| - 1];
      assert Frames() == PutNameIfAbsent(fs, |frames| - 1, name, v);
      if old(Agrees()) { DefinedAgrees(fs, |frames| - 1, name, v, old(nameCache), slotCache); }
    }

    method DefineSlot(slot: nat, v: Value)
      requires Valid() && slot < SLOT_LIMIT
      modifies this`slotCache, Records()
      ensures Valid() && frames == old(frames) && nameCache == old(nameCache)
      ensures Frames() == PutSlot(old(Frames()), |frames| - 1, slot, v)
      ensures slotCache == CacheSlot(old(slotCache), slot, |frames| - 1)
      ensures old(Agrees()) ==> Agrees()
    {
      hide EnvironmentRecord.Slots, FindSlot, NamesAgree, SlotsAgree, CacheSlot, View, PutSlot, PutSlotIfAbsent,
           Stacked;
      ghost var fs := Frames();
      WriteSlot(|frames| - 1, slot, v);
      CacheSlotFrame(slot, |frames| - 1);
      assert Frames() == PutSlot(fs, |frames| - 1, slot, v);
      if old(Agrees()) { DefinedSlotAgrees(fs, |frames| - 1, slot, v, nameCache, old(slotCache)); }
    }

    method DefineSlotIfAbsent(slot: nat, v: Value)
      requires Valid() && slot < SLOT_LIMIT
      modifies this`slotCache, Records()
      ensures Valid() && frames == old(frames) && nameCache == old(nameCache)
      ensures Frames() == PutSlotIfAbsent(old(Frames()), |frames| - 1, slot, v)
      ensures slotCache == CacheSlot(old(slotCache), slot, |frames| - 1)
      ensures old(Agrees()) ==> Agrees()
    {
      hide EnvironmentRecord.Slots, FindSlot, NamesAgree, SlotsAgree, CacheSlot, View, PutSlot, PutSlotIfAbsent,
           Stacked;
      ghost var fs := Frames();
      WriteSlotIfAbsent(|frames| - 1, slot, v);
      CacheSlotFrame(slot, |frames| - 1);
      assert Frames() == PutSlotIfAbsent(fs, |frames| - 1, slot, v);
      if old(Agrees()) { DefinedSlotAgrees(fs, |frames| - 1, slot, v, nameCache, old(slotCache)); }
    }

    method NearestVarFrame() returns (at: nat)
      requires Valid()
      ensures VarFrame(Frames()) == Some(at)
    {
      ghost var fs := Frames();
      at := |frames| - 1;
      while !Boundary(frames[at].kind)
        invariant 0 <= at < |frames| && forall k :: at < k < |frames| ==> !Boundary(fs[k].kind)
        decreases at
      {
        at := at - 1;
      }
    }

    /** Hoists a slot to the function's frame and remembers it there: the cache stays
        right exactly when no frame inside that one already binds the slot. */
    method DefineVarSlotIfAbsent(slot: nat, v: Value)
      requires Valid() && slot < SLOT_LIMIT
      modifies this`slotCache, Records()
      ensures Valid() && frames == old(frames) && nameCache == old(nameCache)
      ensures VarFrame(old(Frames())).Some?
      ensures Frames() == PutSlotIfAbsent(old(Frames()), VarFrame(old(Frames())).value, slot, v)
      ensures slotCache == CacheSlot(old(slotCache), slot, VarFrame(old(Frames())).value)
      ensures old(Agrees()) ==> (Agrees() <==> slot >= FAST_SLOT_LIMIT || Unshadowed(old(Frames()), slot))
    {
      hide EnvironmentRecord.Slots, NamesAgree, SlotsAgree, CacheSlot, View, VarFrame, PutSlotIfAbsent, Stacked;
      ghost var fs := Frames();
      var at := NearestVarFrame();
      WriteSlotIfAbsent(at, slot, v);
      CacheSlotFrame(slot, at);
      assert Frames() == PutSlotIfAbsent(fs, at, slot, v);
      if old(Agrees()) { HoistedAgrees(fs, at, slot, v, nameCache, old(slotCache)); }
    }

    /** Writes the slot where a lookup finds it, or else binds it in the current frame. */
    method SetSlot(slot: nat, v: Value)
      requires Valid() && slot < SLOT_LIMIT
      modifies this`slotCache, Records()
      ensures Valid() && frames == old(frames) && nameCache == old(nameCache)
      ensures Frames() == PutSlot(old(Frames()), SlotTarget(old(Frames()), old(slotCache), slot), slot, v)
      ensures slotCache == SlotsSet(old(Frames()), old(slotCache), slot)
      ensures old(Agrees()) ==> Agrees()
                                && SlotTarget(old(Frames()), old(slotCache), slot) == ScannedTarget(old(Frames()), slot)
    {
      hide EnvironmentRecord.Slots, FindSlot, NamesAgree, SlotsAgree, View, ScannedTarget, PutSlot, CacheEntry, Stacked;
      if old(Agrees()) { SetSlotAgrees(Frames(), slot, v, nameCache, slotCache); }
      var at := CachedSlotFrame(slot);
      if at.Some? {
        assert Frames()[at.value].slots == frames[at.value].record.Slots() by { FrameAt(at.value); }
        var has := frames[at.value].record.HasSlot(slot);
        if has {
          WriteSlot(at.value, slot, v);
          return;
        }
      }
      SetSlotUncached(slot, v);
    }

    method SetSlotUncached(slot: nat, v: Value)
      requires Valid() && slot < SLOT_LIMIT
      modifies this`slotCache, Records()
      ensures Valid() && frames == old(frames) && nameCache == old(nameCache)
      ensures slotCache == CacheSlot(old(slotCache), slot, ScannedTarget(old(Frames()), slot))
      ensures Frames() == PutSlot(old(Frames()), ScannedTarget(old(Frames()), slot), slot, v)
    {
      hide EnvironmentRecord.Slots, FindSlot, NamesAgree, SlotsAgree, CacheSlot, View, PutSlot, Stacked;
      ghost var fs := Frames();
      var at := ScanSlot(slot);
      var target := if at.Some? then at.value else |frames| - 1;
      WriteSlot(target, slot, v);
      CacheSlotFrame(slot, target);
      assert Frames() == PutSlot(fs, target, slot, v);
    }

    lemma FrameAt(i: nat)
      requires i < |frames|
      ensures Frames()[i] == Frame(frames[i].kind, frames[i].record.bindings, frames[i].record.Slots())
    {
    }

    method DefineGlobalIfAbsent(name: string, v: Value)
      requires Valid()
      modifies this`nameCache, Records()
      ensures Valid() && frames == old(frames) && slotCache == old(slotCache)
      ensures Frames() == PutNameIfAbsent(old(Frames()), 0, name, v) && nameCache == map[]
      ensures old(Agrees()) ==> Agrees()
    {
      hide EnvironmentRecord.Slots, NamesAgree, SlotsAgree, View, PutNameIfAbsent, Stacked;
      ghost var fs := Frames();
      WriteNameIfAbsent(0, name, v);
      nameCache := map[];
      assert Frames() == PutNameIfAbsent(fs, 0, name, v);
      if old(Agrees()) { ForgottenAgrees(fs, 0, name, v, old(nameCache), slotCache); }
    }

    method DefineVarIfAbsent(name: string, v: Value)
      requires Valid()
      modifies this`nameCache, Records()
      ensures Valid() && frames == old(frames) && slotCache == old(slotCache)
      ensures VarFrame(old(Frames())).Some?
      ensures Frames() == PutNameIfAbsent(old(Frames()), VarFrame(old(Frames())).value, name, v)
      ensures nameCache == map[]
      ensures old(Agrees()) ==> Agrees()
    {
      hide EnvironmentRecord.Slots, EnvironmentRecord.Valid, NamesAgree, SlotsAgree, View, VarFrame, PutNameIfAbsent,
           Stacked;
      ghost var fs := Frames();
      var at := NearestVarFrame();
      WriteNameIfAbsent(at, name, v);
      nameCache := map[];
      assert Frames() == PutNameIfAbsent(fs, at, name, v);
      if old(Agrees()) { ForgottenAgrees(fs, at, name, v, old(nameCache), slotCache); }
    }

    method SetExisting(name: string, v: Value) returns (found: bool)
      requires Valid()
      modifies this`nameCache, Records()
      ensures Valid() && frames == old(frames) && slotCache == old(slotCache)
      ensures found == FindName(old(Frames()), name).Some?
      ensures Frames() == if found then PutName(old(Frames()), FindName(old(Frames()), name).value, name, v)
                                        else old(Frames())
      ensures nameCache == if found then old(nameCache)[name := FindName(old(Frames()), name).value]
                                    else old(nameCache)
      ensures old(Agrees()) ==> Agrees()
    {
      hide EnvironmentRecord.Slots, FindName, NamesAgree, SlotsAgree, View, PutName, PutNameIfAbsent, Stacked;
      ghost var fs := Frames();
      var at := ScanName(name);
      if at.None? {
        return false;
      }
      WriteName(at.value, name, v);
      nameCache := nameCache[name := at.value];
      assert Frames() == PutName(fs, at.value, name, v);
      if old(Agrees()) { DefinedAgrees(fs, at.value, name, v, old(nameCache), slotCache); }
      return true;
    }

    method SetOrDefineCurrent(name: string, v: Value)
      requires Valid()
      modifies this`nameCache, Records()
      ensures Valid() && frames == old(frames) && slotCache == old(slotCache)
      ensures Frames() == PutName(old(Frames()), NameTarget(old(Frames()), name), name, v)
      ensures nameCache == old(nameCache)[name := NameTarget(old(Frames()), name)]
      ensures old(Agrees()) ==> Agrees()
    {
      var found := SetExisting(name, v);
      if !found {
        DefineCurrent(name, v);
      }
    }
  }
}
