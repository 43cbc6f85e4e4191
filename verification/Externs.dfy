/** The names a program takes from its host: how each gets a slot while the program is
    lowered, and how the slots are renumbered to an order the caller gives. */
module Externs {
  import opened Syntax

  predicate ImplicitGlobal(name: string) {
    name in {"undefined", "NaN", "Infinity", "this", "super", "import"}
  }

  predicate Distinct(s: seq<string>) { forall i, j :: 0 <= i < j < |s| ==> s[i] != s[j] }

  /** The slots are 0 to n-1, each with exactly one name. */
  ghost predicate Numbered(slots: map<string, nat>) {
    && (forall n :: n in slots ==> slots[n] < |slots|)
    && (forall n, m :: n in slots && m in slots && slots[n] == slots[m] ==> n == m)
    && (forall i :: 0 <= i < |slots| ==> Taken(slots, i))
  }

  ghost predicate Taken(slots: map<string, nat>, i: nat) { exists n :: n in slots && slots[n] == i }

  /** Some slot below the number of names belongs to none of them. */
  ghost predicate Gap(slots: map<string, nat>) { exists i :: 0 <= i < |slots| && !Taken(slots, i) }

  /** Does `name` get a slot of its own? */
  predicate Foreign(locals: set<string>, name: string) { name !in locals && !ImplicitGlobal(name) }

  function Marked(slots: map<string, nat>, locals: set<string>, name: string): map<string, nat> {
    if Foreign(locals, name) && name !in slots then slots[name := |slots|] else slots
  }

  /** No existing entry moves; a bijection stays one and a gap stays open. */
  lemma MarkKeeps(slots: map<string, nat>, locals: set<string>, name: string)
    ensures var more := Marked(slots, locals, name);
            && more.Keys == slots.Keys + (if Foreign(locals, name) then {name} else {})
            && (forall n :: n in slots ==> more[n] == slots[n])
            && (Numbered(slots) ==> Numbered(more)) && (Gap(slots) ==> Gap(more))
  {
    var more := Marked(slots, locals, name);
    if more != slots {
      assert |more| == |slots| + 1 by { assert more.Keys == slots.Keys + {name}; }
      forall i | 0 <= i <= |slots| && (Taken(slots, i) || i == |slots|) ensures Taken(more, i) {
        if i == |slots| {
          assert more[name] == i;
        } else {
          var n :| n in slots && slots[n] == i;
          assert more[n] == i;
        }
      }
      if Gap(slots) { GapStays(slots, name); }
    }
  }

  lemma GapStays(slots: map<string, nat>, name: string)
    requires Gap(slots) && name !in slots
    ensures Gap(slots[name := |slots|])
  {
    var more := slots[name := |slots|];
    assert |more| == |slots| + 1 by { assert more.Keys == slots.Keys + {name}; }
    var i :| 0 <= i < |slots| && !Taken(slots, i);
    assert Taken(more, i) ==> Taken(slots, i);
  }

  class Context {
    var externSlots: map<string, nat>
    var locals: set<string>

    constructor WithExternals(externs: seq<string>)
      ensures locals == {} && externSlots.Keys == (set n | n in externs)
      ensures forall i :: 0 <= i < |externs| && IsLast(externs, i) ==> externSlots[externs[i]] == i
      ensures Numbered(externSlots) <==> Distinct(externs)
      ensures Gap(externSlots) <==> !Distinct(externs)
    {
      locals := {};
      externSlots := map[];
      new;
      for i := 0 to |externs|
        invariant locals == {} && Latest(externs[..i], externSlots)
      {
        assert externs[..i + 1] == externs[..i] + [externs[i]];
        externSlots := externSlots[externs[i] := i];
      }
      assert externs[..|externs|] == externs;
      LatestSlots(externs, externSlots);
    }

    /** A function inside this one: it knows the names, and has slots of its own. */
    method Child() returns (child: Context)
      ensures fresh(child) && child.locals == locals && child.externSlots == map[] && Numbered(child.externSlots)
    {
      child := new Context.WithExternals([]);
      child.locals := locals;
    }

    method DeclareLocal(name: string)
      modifies this`locals
      ensures locals == old(locals) + {name}
    {
      locals := locals + {name};
    }

    method MarkExtern(name: string)
      modifies this`externSlots
      ensures externSlots == Marked(old(externSlots), locals, name)
      ensures forall n :: n in externSlots <==> n in old(externSlots) || (n == name && Foreign(locals, n))
      ensures forall n :: n in old(externSlots) ==> n in externSlots && externSlots[n] == old(externSlots)[n]
      ensures name in externSlots && name !in old(externSlots) ==> externSlots[name] == |old(externSlots)|
      ensures old(Numbered(externSlots)) ==> Numbered(externSlots)
      ensures old(Gap(externSlots)) ==> Gap(externSlots)
    {
      MarkKeeps(externSlots, locals, name);
      if name !in locals && !ImplicitGlobal(name) {
        var slot := |externSlots|;
        if name !in externSlots {
          externSlots := externSlots[name := slot];
        }
      }
    }

    /** The inner function's slots, in whatever order its names come. */
    method MergeChildExterns(child: Context)
      requires child != this
      modifies this`externSlots
      ensures forall n :: n in externSlots <==> n in old(externSlots) || (n in child.externSlots && Foreign(locals, n))
      ensures forall n :: n in old(externSlots) ==> externSlots[n] == old(externSlots)[n]
      ensures old(Numbered(externSlots)) ==> Numbered(externSlots)
      ensures old(Gap(externSlots)) ==> Gap(externSlots)
    {
      hide Numbered, Gap, Foreign, Marked;
      var rest := child.externSlots.Keys;
      while rest != {}
        invariant rest <= child.externSlots.Keys
        invariant forall n :: n in externSlots <==> n in old(externSlots)
                                                    || (n in child.externSlots && n !in rest && Foreign(locals, n))
        invariant forall n :: n in old(externSlots) ==> externSlots[n] == old(externSlots)[n]
        invariant old(Numbered(externSlots)) ==> Numbered(externSlots)
        invariant old(Gap(externSlots)) ==> Gap(externSlots)
        decreases |rest|
      {
        var name :| name in rest;
        MarkExtern(name);
        rest := rest - {name};
      }
    }

    /** The names in the order of their slots; nothing if a slot lies outside the list, on
        which the compiler stops. */
    method IntoModule() returns (r: Option<seq<string>>)
      ensures r.None? <==> exists n :: n in externSlots && externSlots[n] >= |externSlots|
      ensures r.Some? ==> |r.value| == |externSlots|
      ensures r.Some? ==> forall i :: 0 <= i < |r.value| ==>
                if Taken(externSlots, i) then r.value[i] in externSlots && externSlots[r.value[i]] == i
                                              else r.value[i] == ""
      ensures Numbered(externSlots) ==> r.Some? && Inverse(r.value, externSlots)
    {
      hide Numbered, Gap;
      AllInside(externSlots);
      var names := seq(|externSlots|, _ => "");
      var rest := externSlots.Keys;
      while rest != {}
        invariant rest <= externSlots.Keys && |names| == |externSlots|
        invariant forall n :: n in externSlots && n !in rest ==> externSlots[n] < |names|
        invariant forall i :: 0 <= i < |names| && Among(externSlots, rest, i) ==> names[i] in externSlots
                                                                                  && externSlots[names[i]] == i
        invariant forall i :: 0 <= i < |names| && !Among(externSlots, rest, i) ==> names[i] == ""
        decreases |rest|
      {
        var name :| name in rest;
        var slot := externSlots[name];
        if slot >= |names| {
          return None;
        }
        var less := rest - {name};
        forall i | 0 <= i < |names| ensures Among(externSlots, less, i) <==> Among(externSlots, rest, i) || i == slot {
          AmongLess(externSlots, rest, name, i);
        }
        names := names[slot := name];
        rest := less;
      }
      forall i | 0 <= i < |names| ensures Among(externSlots, {}, i) <==> Taken(externSlots, i) {}
      r := Some(names);
      if Numbered(externSlots) { NumberedInverse(names, externSlots); }
    }
  }

  /** A name outside `rest` has slot `i`. */
  ghost predicate Among(slots: map<string, nat>, rest: set<string>, i: nat) {
    exists n :: n in slots && n !in rest && slots[n] == i
  }

  lemma AmongLess(slots: map<string, nat>, rest: set<string>, name: string, i: nat)
    requires name in rest && name in slots
    ensures Among(slots, rest - {name}, i) <==> Among(slots, rest, i) || i == slots[name]
  {
    if Among(slots, rest, i) {
      var n :| n in slots && n !in rest && slots[n] == i;
      assert n !in rest - {name};
    }
    if Among(slots, rest - {name}, i) {
      var n :| n in slots && n !in rest - {name} && slots[n] == i;
      assert n == name || n !in rest;
    }
  }

  lemma AllInside(slots: map<string, nat>)
    ensures Numbered(slots) ==> forall n :: n in slots ==> slots[n] < |slots|
  {
  }

  /** The list gives each name's slot, and every place in it holds such a name. */
  ghost predicate Inverse(names: seq<string>, slots: map<string, nat>) {
    && |names| == |slots| && Distinct(names)
    && (forall n :: n in slots ==> slots[n] < |names| && names[slots[n]] == n)
    && (forall i :: 0 <= i < |names| ==> names[i] in slots && slots[names[i]] == i)
  }

  lemma NumberedInverse(names: seq<string>, slots: map<string, nat>)
    requires Numbered(slots) && |names| == |slots|
    requires forall i :: 0 <= i < |names| && Taken(slots, i) ==> names[i] in slots && slots[names[i]] == i
    ensures Inverse(names, slots)
  {
    forall n | n in slots ensures slots[n] < |names| && names[slots[n]] == n {
      assert Taken(slots, slots[n]);
    }
  }

  /** No later entry has the name of entry `i`. */
  predicate IsLast(s: seq<string>, i: nat)
    requires i < |s|
  {
    forall j :: i < j < |s| ==> s[j] != s[i]
  }

  /** A later entry replaces an earlier one of the same name. */
  ghost predicate Latest(externs: seq<string>, slots: map<string, nat>) {
    && (forall n :: n in slots <==> n in externs)
    && (forall n :: n in slots ==> slots[n] < |externs| && externs[slots[n]] == n && IsLast(externs, slots[n]))
  }

  lemma LatestSlots(externs: seq<string>, slots: map<string, nat>)
    requires Latest(externs, slots)
    ensures slots.Keys == (set n | n in externs)
    ensures forall i :: 0 <= i < |externs| && IsLast(externs, i) ==> slots[externs[i]] == i
    ensures Numbered(slots) <==> Distinct(externs)
    ensures Gap(slots) <==> !Distinct(externs)
  {
    assert slots.Keys == set n | n in externs;
    Cardinality(externs);
    if Distinct(externs) {
      forall i | 0 <= i < |externs|
        ensures Taken(slots, i) { assert IsLast(externs, i) && externs[i] in slots && slots[externs[i]] == i; }
    } else {
      DuplicatesGap(externs, slots);
    }
  }

  /** A list holds as many names as it has places exactly when they are distinct. */
  lemma {:induction false} Cardinality(s: seq<string>)
    ensures var names := set n | n in s; |names| <= |s| && (|names| == |s| <==> Distinct(s))
  {
    var names := set n | n in s;
    if s != [] {
      var k := |s| - 1;
      var most := set n | n in s[..k];
      Cardinality(s[..k]);
      assert names == most + {s[k]};
      DistinctInit(s);
      assert s[k] in most ==> names == most;
    }
  }

  lemma DistinctInit(s: seq<string>)
    requires s != []
    ensures var k := |s| - 1; Distinct(s) <==> Distinct(s[..k]) && s[k] !in s[..k]
  {
    var k := |s| - 1;
    assert forall i :: 0 <= i < k ==> s[..k][i] == s[i];
  }

  lemma DuplicatesGap(externs: seq<string>, slots: map<string, nat>)
    requires Latest(externs, slots) && slots.Keys == (set n | n in externs) && |slots| < |externs|
    ensures Gap(slots)
  {
    var last := |externs| - 1;
    assert IsLast(externs, last) && externs[last] in slots && slots[externs[last]] == last;
    var below := Below(|slots|);
    if !Gap(slots) {
      ValueCount(slots);
      assert last in slots.Values;
      forall i | i in below ensures i in slots.Values { assert Taken(slots, i); }
      assert below + {last} <= slots.Values;
      SubsetSize(below + {last}, slots.Values);
    }
  }

  lemma SubsetSize(a: set<nat>, b: set<nat>)
    requires a <= b
    ensures |a| <= |b|
  {
    assert b == a + (b - a);
  }

  ghost function Below(n: nat): (r: set<nat>)
    ensures |r| == n && forall i: nat :: i in r <==> i < n
  {
    if n == 0 then {} else Below(n - 1) + {n - 1}
  }

  lemma {:induction false} ValueCount(slots: map<string, nat>)
    ensures |slots.Values| <= |slots|
    decreases |slots|
  {
    if slots.Keys == {} {
      assert slots.Values == {};
    } else {
      var name :| name in slots;
      var less := slots - {name};
      assert less.Keys == slots.Keys - {name};
      ValueCount(less);
      assert slots.Values == less.Values + {slots[name]} by {
        forall v | v in slots.Values ensures v in less.Values + {slots[name]} {
          var n :| n in slots && slots[n] == v;
          assert n == name || n in less;
        }
      }
    }
  }

  // ---- the module builder's own list ---------------------------------------------------------------

  /** The slot of a name in the finished list, which gets the name if it lacks it. */
  method EnsureExtern(slots: seq<string>, name: string) returns (out: seq<string>, id: nat)
    requires Distinct(slots)
    ensures Distinct(out) && id < |out| && out[id] == name
    ensures out == if name in slots then slots else slots + [name]
  {
    for i := 0 to |slots|
      invariant name !in slots[..i]
    {
      if slots[i] == name {
        return slots, i;
      }
    }
    assert slots[..|slots|] == slots;
    return slots + [name], |slots|;
  }

  // ---- renumbering ---------------------------------------------------------------------------------

  datatype Operand = External(slot: nat) | Other(text: string)
  datatype Error = Mismatch(expected: nat,
      got: nat) | Duplicate(name: string) | Missing(name: string) | BadSlot(slot: nat)
  datatype Result<+T> = Ok(value: T) | Err(error: Error)

  /** The bytecode of a program: the operands of its instructions, and the slots' names. */
  class Bytecode {
    var instructions: seq<seq<Operand>>
    var slots: seq<string>

    constructor (instructions: seq<seq<Operand>>, slots: seq<string>)
      ensures this.instructions == instructions && this.slots == slots
    {
      this.instructions := instructions;
      this.slots := slots;
    }
  }

  /** What an operand stands for. */
  function Denotes(o: Operand, slots: seq<string>): Option<string> {
    if o.External? && o.slot < |slots| then Some(slots[o.slot]) else None
  }

  predicate InRange(o: Operand, slots: seq<string>) { o.External? ==> o.slot < |slots| }

  predicate AllInRange(code: seq<seq<Operand>>, slots: seq<string>) {
    forall i, j :: 0 <= i < |code| && 0 <= j < |code[i]| ==> InRange(code[i][j], slots)
  }

  /** The same operand under other slots: the same name, or the same text. */
  predicate SameOperand(a: Operand, slots: seq<string>, b: Operand, other: seq<string>) {
    if a.External? then b.External? && Denotes(a, slots).Some? && Denotes(b, other) == Denotes(a, slots) else b == a
  }

  predicate SameOperands(a: seq<Operand>, slots: seq<string>, b: seq<Operand>, other: seq<string>) {
    |a| == |b| && forall j :: 0 <= j < |a| ==> SameOperand(a[j], slots, b[j], other)
  }

  predicate SameCode(a: seq<seq<Operand>>, slots: seq<string>, b: seq<seq<Operand>>, other: seq<string>) {
    |a| == |b| && forall i :: 0 <= i < |a| ==> SameOperands(a[i], slots, b[i], other)
  }

  /** The new slots hold each name once and none of the old names is missing. */
  predicate Serves(original: seq<string>, slots: seq<string>) {
    Distinct(slots) && forall n :: n in original ==> n in slots
  }

  method RemapOperand(o: Operand, original: seq<string>, remapped: map<string, nat>, ghost slots: seq<string>)
    returns (r: Result<Operand>)
    requires forall n :: n in remapped ==> remapped[n] < |slots| && slots[remapped[n]] == n
    requires forall n :: n in original ==> n in remapped
    ensures r.Ok? <==> InRange(o, original)
    ensures r.Ok? ==> SameOperand(o, original, r.value, slots)
    ensures r.Err? ==> o.External? && r.error == BadSlot(o.slot)
  {
    if o.Other? {
      return Result.Ok(o);
    }
    if o.slot >= |original| {
      return Err(BadSlot(o.slot));
    }
    return Result.Ok(External(remapped[original[o.slot]]));
  }

  /** Puts every external operand at its name's place in `slots`. It succeeds exactly when
      the new slots serve and every operand is one of the old ones. */
  method RemapExternalOperands(code: Bytecode, original: seq<string>, slots: seq<string>) returns (r: Result<()>)
    modifies code`instructions
    ensures r.Ok? <==> Serves(original, slots) && AllInRange(old(code.instructions), original)
    ensures r.Ok? ==> SameCode(old(code.instructions), original, code.instructions, slots)
    ensures r.Err? && r.error.Duplicate? ==> exists i, j :: 0 <= i < j < |slots| && slots[i] == slots[j] == r.error.name
    ensures r.Err? && r.error.Missing? ==> r.error.name in original && r.error.name !in slots
    ensures r.Err? && r.error.BadSlot? ==> r.error.slot >= |original|
    ensures r.Err? && !r.error.BadSlot? ==> code.instructions == old(code.instructions)
  {
    var remapped: map<string, nat> := map[];
    for k := 0 to |slots|
      invariant forall n :: n in remapped ==> remapped[n] < k && slots[remapped[n]] == n
      invariant forall i :: 0 <= i < k ==> slots[i] in remapped && remapped[slots[i]] == i
      invariant Distinct(slots[..k])
    {
      if slots[k] in remapped {
        return Err(Duplicate(slots[k]));
      }
      remapped := remapped[slots[k] := k];
    }
    assert slots[..|slots|] == slots;
    for k := 0 to |original|
      invariant forall i :: 0 <= i < k ==> original[i] in remapped
    {
      if original[k] !in remapped {
        assert original[k] !in slots;
        return Err(Missing(original[k]));
      }
    }
    hide Distinct, SameOperand, InRange;
    ghost var before := code.instructions;
    for i := 0 to |code.instructions|
      invariant |code.instructions| == |before|
      invariant forall k :: i <= k < |before| ==> code.instructions[k] == before[k]
      invariant forall k :: 0 <= k < i ==> SameOperands(before[k], original, code.instructions[k], slots)
      invariant forall k, j :: 0 <= k < i && 0 <= j < |before[k]| ==> InRange(before[k][j], original)
    {
      var operands: seq<Operand> := [];
      ghost var here := code.instructions;
      for j := 0 to |code.instructions[i]|
        invariant code.instructions == here
        invariant SameOperands(before[i][..j], original, operands, slots)
        invariant forall k :: 0 <= k < j ==> InRange(before[i][k], original)
      {
        var o := RemapOperand(code.instructions[i][j], original, remapped, slots);
        if o.Err? {
          return Err(o.error);
        }
        operands := operands + [o.value];
      }
      assert before[i][..|before[i]|] == before[i];
      code.instructions := code.instructions[i := operands];
    }
    return Result.Ok(());
  }

  /** A program's bytecode for the slots a caller asks for; none asked for means its own. */
  method WithExternSlots(code: Bytecode, slots: seq<string>) returns (r: Result<()>)
    modifies code
    ensures slots == [] ==> r.Ok? && code.slots == old(code.slots) && code.instructions == old(code.instructions)
    ensures slots != [] ==> (r.Ok? <==> |slots| == |old(code.slots)| && Serves(old(code.slots), slots)
                                        && AllInRange(old(code.instructions), old(code.slots)))
    ensures slots != [] && r.Ok? ==> code.slots == slots
    ensures slots != [] && r.Ok? ==> SameCode(old(code.instructions), old(code.slots), code.instructions, code.slots)
    ensures r.Err? ==> code.slots == old(code.slots)
    ensures r.Err? && |slots| != |old(code.slots)| ==> r.error == Mismatch(|old(code.slots)|, |slots|)
  {
    hide Serves, AllInRange, SameCode;
    if |slots| == 0 {
      return Result.Ok(());
    }
    if |slots| != |code.slots| {
      return Err(Mismatch(|code.slots|, |slots|));
    }
    r := RemapExternalOperands(code, code.slots, slots);
    if r.Ok? {
      code.slots := slots;
    }
  }

  // ---- a permutation, and the way back ---------------------------------------------------------------

  lemma {:induction false} DistinctCount(s: seq<string>, x: string)
    requires Distinct(s)
    ensures multiset(s)[x] == if x in s then 1 else 0
  {
    if s != [] {
      var k := |s| - 1;
      assert s == s[..k] + [s[k]];
      forall i, j | 0 <= i < j < k ensures s[..k][i] != s[..k][j] {}
      DistinctCount(s[..k], x);
    }
  }

  lemma EqualSets(a: set<string>, b: set<string>)
    requires a <= b && |b| <= |a|
    ensures a == b
  {
    assert b == a + (b - a);
  }

  /** Slots of the right number that serve a list of distinct names are that list in
      another order, and the list serves them in turn. */
  lemma ServesIsPermutation(original: seq<string>, slots: seq<string>)
    requires Distinct(original) && |slots| == |original|
    ensures Serves(original, slots) <==> multiset(slots) == multiset(original)
    ensures Serves(original, slots) ==> Serves(slots, original)
  {
    if Serves(original, slots) {
      var a, b := set n | n in original, set n | n in slots;
      Cardinality(original);
      Cardinality(slots);
      EqualSets(a, b);
      forall n ensures multiset(slots)[n] == multiset(original)[n] {
        assert n in a <==> n in original;
        assert n in b <==> n in slots;
        DistinctCount(original, n);
        DistinctCount(slots, n);
      }
      forall n | n in slots ensures n in original { assert n in b; }
    }
    if multiset(slots) == multiset(original) {
      forall n | n in original ensures n in slots { assert n in multiset(original); }
      forall i, j | 0 <= i < j < |slots| ensures slots[i] != slots[j] {
        DistinctCount(original, slots[i]);
        if slots[i] == slots[j] { CountTwice(slots, i, j); }
      }
    }
  }

  lemma CountTwice(s: seq<string>, i: nat, j: nat)
    requires i < j < |s| && s[i] == s[j]
    ensures multiset(s)[s[i]] >= 2
  {
    assert s == s[..i] + [s[i]] + s[i + 1..j] + [s[j]] + s[j + 1..];
  }

  lemma ThereAndBackOperand(a: Operand, b: Operand, c: Operand, original: seq<string>, slots: seq<string>)
    requires Distinct(original) && SameOperand(a, original, b, slots) && SameOperand(b, slots, c, original)
    ensures c == a
  {
  }

  /** Renumbering to another order and back gives the very code. */
  lemma ThereAndBack(a: seq<seq<Operand>>, b: seq<seq<Operand>>, c: seq<seq<Operand>>, original: seq<string>,
                     slots: seq<string>)
    requires Distinct(original) && SameCode(a, original, b, slots) && SameCode(b, slots, c, original)
    ensures c == a
  {
    forall i | 0 <= i < |a| ensures c[i] == a[i] {
      assert SameOperands(a[i], original, b[i], slots) && SameOperands(b[i], slots, c[i], original);
      forall j | 0 <= j < |a[i]| ensures c[i][j] == a[i][j] {
        ThereAndBackOperand(a[i][j], b[i][j], c[i][j], original, slots);
      }
    }
  }

  /** After a first renumbering the second one, back, cannot fail, and undoes it. */
  method RoundTrip(code: Bytecode, slots: seq<string>) returns (there: Result<()>, back: Result<()>)
    requires Distinct(code.slots) && slots != []
    modifies code
    ensures there.Ok? ==> back.Ok? && code.instructions == old(code.instructions) && code.slots == old(code.slots)
  {
    hide Distinct, Serves;
    var original := code.slots;
    ghost var before := code.instructions;
    there := WithExternSlots(code, slots);
    back := there;
    if there.Ok? {
      ghost var between := code.instructions;
      ServesIsPermutation(original, slots);
      SameInRange(before, original, between, slots);
      back := WithExternSlots(code, original);
      ThereAndBack(before, between, code.instructions, original, slots);
    }
  }

  lemma SameInRange(a: seq<seq<Operand>>, slots: seq<string>, b: seq<seq<Operand>>, other: seq<string>)
    requires SameCode(a, slots, b, other)
    ensures AllInRange(b, other)
  {
    forall i, j | 0 <= i < |b| && 0 <= j < |b[i]| ensures InRange(b[i][j], other) {
      assert SameOperands(a[i], slots, b[i], other) && SameOperand(a[i][j], slots, b[i][j], other);
    }
  }
}
