/** Which names of the enclosing functions a function gets slots for, and where a name it
    uses is found when it runs. */
module Capture {
  import opened Syntax
  import Externs

  datatype Use = Named(name: string) | Unnamed

  /** An instruction, as far as names go. `Uses` stands for every instruction that only
      reads values, `Inert` for those that neither read, bind nor contain anything. */
  datatype Instr =
    | Inert
    | Uses(values: seq<Use>)
    | LoadName(name: string)
    | StoreName(name: string, src: Use)
    | Declare(name: string)
    | Function(fn: Func)
    | FunctionExpr(fn: Func)
    | Class(className: Option<string>, superClass: Option<Use>)
    | Export(locals: seq<string>)
    | Try(body: seq<Instr>, param: Option<string>, catchBody: seq<Instr>, finallyBody: seq<Instr>)
    | Scope(body: seq<Instr>)

  datatype Func = Func(name: Option<string>, params: seq<string>, code: seq<Instr>)

  function OptionSet(o: Option<string>): set<string> { if o.Some? then {o.value} else {} }

  function ElementSet(s: seq<string>): set<string> { set x | x in s }

  // ---- what the compiler collects ------------------------------------------------------------

  function UseRefs(u: Use): set<string> {
    if u.Named? && !Externs.ImplicitGlobal(u.name) then {u.name} else {}
  }

  function UsesRefs(values: seq<Use>): set<string> {
    if values == [] then {} else UseRefs(values[0]) + UsesRefs(values[1..])
  }

  function RefsOne(i: Instr): set<string>
    decreases i, 1
  {
    match i
    case Uses(values) => UsesRefs(values)
    case LoadName(name) => {name}
    case StoreName(name, src) => (if Externs.ImplicitGlobal(name) then {} else {name}) + UseRefs(src)
    case Function(fn) => Refs(fn.code)
    case FunctionExpr(fn) => Refs(fn.code)
    case Class(_, superClass) => if superClass.Some? then UseRefs(superClass.value) else {}
    case Export(locals) => ElementSet(locals)
    case Try(body, _, catchBody, finallyBody) => Refs(body) + Refs(catchBody) + Refs(finallyBody)
    case Scope(body) => Refs(body)
    case _ => {}
  }

  /** Every name mentioned, through all nested functions. */
  function Refs(s: seq<Instr>): set<string>
    decreases s, 0
  {
    if s == [] then {} else RefsOne(s[0]) + Refs(s[1..])
  }

  function BindingsOne(i: Instr): set<string>
    decreases i, 1
  {
    match i
    case Declare(name) => {name}
    case Function(fn) => OptionSet(fn.name)
    case Class(name, _) => OptionSet(name)
    case Try(body, param, catchBody, finallyBody) =>
        Bindings(body) + OptionSet(param) + Bindings(catchBody) + Bindings(finallyBody)
    case Scope(body) => Bindings(body)
    case FunctionExpr(fn) => OptionSet(fn.name) + Bindings(fn.code)
    case _ => {}
  }

  /** Every name bound, also by and inside function expressions. */
  function Bindings(s: seq<Instr>): set<string>
    decreases s, 0
  {
    if s == [] then {} else BindingsOne(s[0]) + Bindings(s[1..])
  }

  function SlotsOne(i: Instr): set<string>
    decreases i, 1
  {
    match i
    case Declare(name) => {name}
    case Function(fn) => OptionSet(fn.name)
    case Class(name, _) => OptionSet(name)
    case Try(body, param, catchBody, finallyBody) =>
        SlotsIn(body) + OptionSet(param) + SlotsIn(catchBody) + SlotsIn(finallyBody)
    case Scope(body) => SlotsIn(body)
    case _ => {}
  }

  /** The names a function's own code gets slots for. */
  function SlotsIn(s: seq<Instr>): set<string>
    decreases s, 0
  {
    if s == [] then {} else SlotsOne(s[0]) + SlotsIn(s[1..])
  }

  method CollectUses(values: seq<Use>, refs: set<string>) returns (out: set<string>)
    ensures out == refs + UsesRefs(values)
  {
    out := refs;
    for k := 0 to |values|
      invariant out + UsesRefs(values[k..]) == refs + UsesRefs(values)
    {
      assert values[k..][0] == values[k] && values[k..][1..] == values[k + 1..];
      var u := values[k];
      if u.Named? && !Externs.ImplicitGlobal(u.name) {
        out := out + {u.name};
      }
    }
  }

  method CollectInstructionRefs(s: seq<Instr>, refs: set<string>) returns (out: set<string>)
    ensures out == refs + Refs(s)
    decreases s
  {
    hide UsesRefs;
    out := refs;
    for k := 0 to |s|
      invariant out + Refs(s[k..]) == refs + Refs(s)
    {
      assert s[k..][0] == s[k] && s[k..][1..] == s[k + 1..];
      ghost var before := out;
      match s[k] {
        case Uses(values) => out := CollectUses(values, out);
        case LoadName(name) => out := out + {name};
        case StoreName(name, src) =>
          if !Externs.ImplicitGlobal(name) {
            out := out + {name};
          }
          OneUse(src);
          out := CollectUses([src], out);
        case Function(fn) =>
          assert fn < s[k];
          out := CollectInstructionRefs(fn.code, out);
        case FunctionExpr(fn) =>
          assert fn < s[k];
          out := CollectInstructionRefs(fn.code, out);
        case Class(_, superClass) =>
          if superClass.Some? {
            OneUse(superClass.value);
            out := CollectUses([superClass.value], out);
          }
        case Export(locals) => out := out + set x | x in locals;
        case Try(body, _, catchBody, finallyBody) =>
          out := CollectInstructionRefs(body, out);
          out := CollectInstructionRefs(catchBody, out);
          out := CollectInstructionRefs(finallyBody, out);
        case Scope(body) => out := CollectInstructionRefs(body, out);
        case _ =>
      }
      assert out == before + RefsOne(s[k]);
    }
  }

  lemma OneUse(u: Use)
    ensures UsesRefs([u]) == UseRefs(u)
  {
    assert [u][1..] == [];
  }

  method CollectLocalBindings(s: seq<Instr>, locals: set<string>) returns (out: set<string>)
    ensures out == locals + Bindings(s)
    decreases s
  {
    out := locals;
    for k := 0 to |s|
      invariant out + Bindings(s[k..]) == locals + Bindings(s)
    {
      assert s[k..][0] == s[k] && s[k..][1..] == s[k + 1..];
      ghost var before := out;
      match s[k] {
        case Declare(name) => out := out + {name};
        case Function(fn) => out := out + OptionSet(fn.name);
        case Class(name, _) => out := out + OptionSet(name);
        case Try(body, param, catchBody, finallyBody) =>
          out := CollectLocalBindings(body, out);
          out := out + OptionSet(param);
          out := CollectLocalBindings(catchBody, out);
          out := CollectLocalBindings(finallyBody, out);
        case Scope(body) => out := CollectLocalBindings(body, out);
        case FunctionExpr(fn) =>
          assert fn < s[k];
          out := out + OptionSet(fn.name);
          out := CollectLocalBindings(fn.code, out);
        case _ =>
      }
      assert out == before + BindingsOne(s[k]);
    }
  }

  method CollectWorkLocals(s: seq<Instr>, slots: set<string>) returns (out: set<string>)
    ensures out == slots + SlotsIn(s)
    decreases s
  {
    out := slots;
    for k := 0 to |s|
      invariant out + SlotsIn(s[k..]) == slots + SlotsIn(s)
    {
      assert s[k..][0] == s[k] && s[k..][1..] == s[k + 1..];
      ghost var before := out;
      match s[k] {
        case Declare(name) => out := out + {name};
        case Function(fn) => out := out + OptionSet(fn.name);
        case Class(name, _) => out := out + OptionSet(name);
        case Try(body, param, catchBody, finallyBody) =>
          out := CollectWorkLocals(body, out);
          out := out + OptionSet(param);
          out := CollectWorkLocals(catchBody, out);
          out := CollectWorkLocals(finallyBody, out);
        case Scope(body) => out := CollectWorkLocals(body, out);
        case _ =>
      }
      assert out == before + SlotsOne(s[k]);
    }
  }

  /** A function inside another: a declaration's name belongs to the outer function, an
      expression's name to itself. */
  datatype Inner = Declared(fn: Func) | Expressed(fn: Func)

  function OwnName(g: Inner): set<string> { if g.Expressed? then OptionSet(g.fn.name) else {} }

  function Captured(g: Inner, visible: set<string>): set<string> {
    set n | n in Refs(g.fn.code) && n in visible && n !in ElementSet(g.fn.params) + OwnName(g) + Bindings(g.fn.code)
  }

  method CapturedInFunctionBody(g: Inner, visible: set<string>) returns (captured: set<string>)
    ensures captured == Captured(g, visible)
    ensures forall n :: n in captured <==> Captures(g, visible, n)
  {
    hide Refs, Bindings;
    forall n ensures n in Captured(g, visible) <==> Captures(g, visible, n) { CapturedIs(g, visible, n); }
    var refs := CollectInstructionRefs(g.fn.code, {});
    var locals := ElementSet(g.fn.params) + OwnName(g);
    locals := CollectLocalBindings(g.fn.code, locals);
    captured := set n | n in refs && n in visible && n !in locals;
  }

  // ---- the slots of a function -----------------------------------------------------------------

  const INTRINSICS := {"arguments", "this", "super"}

  /** The slots a function has whatever surrounds it. */
  function Own(g: Inner): set<string> {
    (if g.fn.name == Some("entry") then {} else INTRINSICS) + ElementSet(g.fn.params) + OwnName(g) + SlotsIn(g.fn.code)
  }

  function Slots(g: Inner, visible: set<string>): set<string> { Own(g) + Captured(g, visible) }

  /** The slots a function starts with when it is built inside one that has `visible`. */
  method BuildSlots(g: Inner, visible: set<string>) returns (slots: set<string>)
    ensures slots == Slots(g, visible)
  {
    hide Captured;
    var captured := CapturedInFunctionBody(g, visible);
    var inherited := captured + OwnName(g);
    slots := {};
    if g.fn.name != Some("entry") {
      slots := INTRINSICS;
    }
    slots := slots + inherited;
    slots := slots + ElementSet(g.fn.params);
    slots := CollectWorkLocals(g.fn.code, slots);
  }

  datatype Place = Local(name: string) | External(name: string)

  function NamePlace(slots: set<string>, name: string): Place {
    if name in slots then Local(name) else External(name)
  }

  // ---- where instructions stand, and what they bind and mention -----------------------------------

  /** How far inside: a function's own code, function expressions too, or all functions. */
  datatype Extent = OwnCode | WithExpressions | WithFunctions

  /** `i` stands in the code: in it, or in a scope or a part of a `try` in it, and so on; in
      functions it makes only as far as the extent goes. */
  predicate Stands(r: Extent, s: seq<Instr>, i: Instr)
    decreases s, 0
  {
    s != [] && (s[0] == i || Inside(r, s[0], i) || Stands(r, s[1..], i))
  }

  predicate Inside(r: Extent, x: Instr, i: Instr)
    decreases x, 1
  {
    match x
    case Scope(body) => Stands(r, body, i)
    case Try(body, _, catchBody, finallyBody) => Stands(r, body, i) || Stands(r, catchBody, i)
        || Stands(r, finallyBody, i)
    case FunctionExpr(fn) => r != OwnCode && Stands(r, fn.code, i)
    case Function(fn) => r == WithFunctions && Stands(r, fn.code, i)
    case _ => false
  }

  /** The four binders: a declaration, a declared function's name, a class's name, and the
      parameter of a catch. */
  predicate Binds(i: Instr, n: string) {
    || i == Declare(n)
    || (i.Function? && i.fn.name == Some(n))
    || (i.Class? && i.className == Some(n))
    || (i.Try? && i.param == Some(n))
  }

  /** An instruction of the function itself binds `n`. */
  ghost predicate Bound(code: seq<Instr>, n: string) {
    exists i :: Stands(OwnCode, code, i) && Binds(i, n)
  }

  /** The same with what stands in function expressions, and their names. */
  ghost predicate BoundWithin(code: seq<Instr>, n: string) {
    exists i :: Stands(WithExpressions, code, i) && (Binds(i, n) || (i.FunctionExpr? && i.fn.name == Some(n)))
  }

  /** What an instruction reads, writes or exports; implicit globals only when loaded. */
  predicate Mentions(i: Instr, n: string) {
    match i
    case Uses(values) => Named(n) in values && !Externs.ImplicitGlobal(n)
    case LoadName(name) => name == n
    case StoreName(name, src) => (name == n || src == Named(n)) && !Externs.ImplicitGlobal(n)
    case Class(_, superClass) => superClass == Some(Named(n)) && !Externs.ImplicitGlobal(n)
    case Export(locals) => n in locals
    case _ => false
  }

  lemma {:induction false} SlotHasBinder(s: seq<Instr>, n: string) returns (i: Instr)
    requires n in SlotsIn(s)
    ensures Stands(OwnCode, s, i) && Binds(i, n)
    decreases s, 0
  {
    if n in SlotsOne(s[0]) { i := SlotHasBinderOne(s[0], n); } else { i := SlotHasBinder(s[1..], n); }
  }

  lemma {:induction false} SlotHasBinderOne(x: Instr, n: string) returns (i: Instr)
    requires n in SlotsOne(x)
    ensures (x == i || Inside(OwnCode, x, i)) && Binds(i, n)
    decreases x, 1
  {
    match x
    case Scope(body) => i := SlotHasBinder(body, n);
    case Try(body, param, catchBody, finallyBody) =>
      if param == Some(n) { i := x; }
      else if n in SlotsIn(body) { i := SlotHasBinder(body, n); }
      else if n in SlotsIn(catchBody) { i := SlotHasBinder(catchBody, n); }
      else { i := SlotHasBinder(finallyBody, n); }
    case _ => i := x;
  }

  lemma {:induction false} BinderHasSlot(s: seq<Instr>, i: Instr, n: string)
    requires Stands(OwnCode, s, i) && Binds(i, n)
    ensures n in SlotsIn(s)
    decreases s, 0
  {
    if s[0] == i || Inside(OwnCode, s[0], i) { BinderHasSlotOne(s[0], i, n); } else { BinderHasSlot(s[1..], i, n); }
  }

  lemma {:induction false} BinderHasSlotOne(x: Instr, i: Instr, n: string)
    requires (x == i || Inside(OwnCode, x, i)) && Binds(i, n)
    ensures n in SlotsOne(x)
    decreases x, 1
  {
    if x != i {
      match x
      case Scope(body) => BinderHasSlot(body, i, n);
      case Try(body, _, catchBody, finallyBody) =>
        if Stands(OwnCode, body, i) { BinderHasSlot(body, i, n); }
        else if Stands(OwnCode, catchBody, i) { BinderHasSlot(catchBody, i, n); }
        else { BinderHasSlot(finallyBody, i, n); }
    }
  }

  /** A function's own code gives slots to exactly the names it binds. */
  lemma SlotsAreBound(s: seq<Instr>, n: string)
    ensures n in SlotsIn(s) <==> Bound(s, n)
  {
    if n in SlotsIn(s) { var i := SlotHasBinder(s, n); }
    if i :| Stands(OwnCode, s, i) && Binds(i, n) { BinderHasSlot(s, i, n); }
  }

  lemma {:induction false} BindingHasBinder(s: seq<Instr>, n: string) returns (i: Instr)
    requires n in Bindings(s)
    ensures Stands(WithExpressions, s, i) && (Binds(i, n) || (i.FunctionExpr? && i.fn.name == Some(n)))
    decreases s, 0
  {
    if n in BindingsOne(s[0]) { i := BindingHasBinderOne(s[0], n); } else { i := BindingHasBinder(s[1..], n); }
  }

  lemma {:induction false} BindingHasBinderOne(x: Instr, n: string) returns (i: Instr)
    requires n in BindingsOne(x)
    ensures (x == i || Inside(WithExpressions, x, i)) && (Binds(i, n) || (i.FunctionExpr? && i.fn.name == Some(n)))
    decreases x, 1
  {
    match x
    case Scope(body) => i := BindingHasBinder(body, n);
    case FunctionExpr(fn) => if fn.name == Some(n) { i := x; } else { i := BindingHasBinder(fn.code, n); }
    case Try(body, param, catchBody, finallyBody) =>
      if param == Some(n) { i := x; }
      else if n in Bindings(body) { i := BindingHasBinder(body, n); }
      else if n in Bindings(catchBody) { i := BindingHasBinder(catchBody, n); }
      else { i := BindingHasBinder(finallyBody, n); }
    case _ => i := x;
  }

  lemma {:induction false} BinderIsBinding(s: seq<Instr>, i: Instr, n: string)
    requires Stands(WithExpressions, s, i) && (Binds(i, n) || (i.FunctionExpr? && i.fn.name == Some(n)))
    ensures n in Bindings(s)
    decreases s, 0
  {
    if s[0] == i || Inside(WithExpressions, s[0], i) { BinderIsBindingOne(s[0], i, n); }
    else { BinderIsBinding(s[1..], i, n); }
  }

  lemma {:induction false} BinderIsBindingOne(x: Instr, i: Instr, n: string)
    requires (x == i || Inside(WithExpressions, x, i)) && (Binds(i, n) || (i.FunctionExpr? && i.fn.name == Some(n)))
    ensures n in BindingsOne(x)
    decreases x, 1
  {
    if x != i {
      match x
      case Scope(body) => BinderIsBinding(body, i, n);
      case FunctionExpr(fn) => BinderIsBinding(fn.code, i, n);
      case Try(body, _, catchBody, finallyBody) =>
        if Stands(WithExpressions, body, i) { BinderIsBinding(body, i, n); }
        else if Stands(WithExpressions, catchBody, i) { BinderIsBinding(catchBody, i, n); }
        else { BinderIsBinding(finallyBody, i, n); }
    }
  }

  /** What a function treats as local is exactly what it, or a function expression in it, binds. */
  lemma BindingsAreBound(s: seq<Instr>, n: string)
    ensures n in Bindings(s) <==> BoundWithin(s, n)
  {
    if n in Bindings(s) { var i := BindingHasBinder(s, n); }
    if i :| Stands(WithExpressions, s, i) && (Binds(i, n) || (i.FunctionExpr? && i.fn.name == Some(n))) {
      BinderIsBinding(s, i, n);
    }
  }

  lemma {:induction false} UsesMention(values: seq<Use>, n: string)
    ensures n in UsesRefs(values) <==> Named(n) in values && !Externs.ImplicitGlobal(n)
  {
    if values != [] { UsesMention(values[1..], n); }
  }

  lemma {:induction false} RefHasMention(s: seq<Instr>, n: string) returns (i: Instr)
    requires n in Refs(s)
    ensures Stands(WithFunctions, s, i) && Mentions(i, n)
    decreases s, 0
  {
    if n in RefsOne(s[0]) { i := RefHasMentionOne(s[0], n); } else { i := RefHasMention(s[1..], n); }
  }

  lemma {:induction false} RefHasMentionOne(x: Instr, n: string) returns (i: Instr)
    requires n in RefsOne(x)
    ensures (x == i || Inside(WithFunctions, x, i)) && Mentions(i, n)
    decreases x, 1
  {
    i := x;
    match x
    case Uses(values) => UsesMention(values, n);
    case Scope(body) => i := RefHasMention(body, n);
    case Function(fn) => i := RefHasMention(fn.code, n);
    case FunctionExpr(fn) => i := RefHasMention(fn.code, n);
    case Try(body, _, catchBody, finallyBody) =>
      if n in Refs(body) { i := RefHasMention(body, n); }
      else if n in Refs(catchBody) { i := RefHasMention(catchBody, n); }
      else { i := RefHasMention(finallyBody, n); }
    case _ =>
  }

  lemma {:induction false} MentionIsRef(s: seq<Instr>, i: Instr, n: string)
    requires Stands(WithFunctions, s, i) && Mentions(i, n)
    ensures n in Refs(s)
    decreases s, 0
  {
    if s[0] == i || Inside(WithFunctions, s[0], i) { MentionIsRefOne(s[0], i, n); } else { MentionIsRef(s[1..], i, n); }
  }

  lemma {:induction false} MentionIsRefOne(x: Instr, i: Instr, n: string)
    requires (x == i || Inside(WithFunctions, x, i)) && Mentions(i, n)
    ensures n in RefsOne(x)
    decreases x, 1
  {
    if x == i {
      if x.Uses? { UsesMention(x.values, n); }
    } else {
      match x
      case Scope(body) => MentionIsRef(body, i, n);
      case Function(fn) => MentionIsRef(fn.code, i, n);
      case FunctionExpr(fn) => MentionIsRef(fn.code, i, n);
      case Try(body, _, catchBody, finallyBody) =>
        if Stands(WithFunctions, body, i) { MentionIsRef(body, i, n); }
        else if Stands(WithFunctions, catchBody, i) { MentionIsRef(catchBody, i, n); }
        else { MentionIsRef(finallyBody, i, n); }
    }
  }

  /** The collected references are exactly the names that some instruction mentions, however
      deep in nested functions. */
  lemma RefsAreMentioned(s: seq<Instr>, n: string)
    ensures n in Refs(s) <==> exists i :: Stands(WithFunctions, s, i) && Mentions(i, n)
  {
    if n in Refs(s) { var i := RefHasMention(s, n); }
    if i :| Stands(WithFunctions, s, i) && Mentions(i, n) { MentionIsRef(s, i, n); }
  }

  /** `n` is bound by a function expression in the code, or inside one. */
  ghost predicate InExpression(s: seq<Instr>, n: string) {
    exists i :: Stands(WithExpressions, s, i) && BindsInside(i, n)
  }

  ghost predicate BindsInside(i: Instr, n: string) { i.FunctionExpr? && (i.fn.name == Some(n) || Bound(i.fn.code, n)) }

  lemma {:induction false} StandsFurther(r: Extent, s: seq<Instr>, i: Instr)
    requires Stands(OwnCode, s, i)
    ensures Stands(r, s, i)
    decreases s, 0
  {
    if s[0] != i {
      if Inside(OwnCode, s[0], i) { InsideFurther(r, s[0], i); } else { StandsFurther(r, s[1..], i); }
    }
  }

  lemma {:induction false} InsideFurther(r: Extent, x: Instr, i: Instr)
    requires Inside(OwnCode, x, i)
    ensures Inside(r, x, i)
    decreases x, 1
  {
    match x
    case Scope(body) => StandsFurther(r, body, i);
    case Try(body, _, catchBody, finallyBody) =>
      if Stands(OwnCode, body, i) { StandsFurther(r, body, i); }
      else if Stands(OwnCode, catchBody, i) { StandsFurther(r, catchBody, i); }
      else { StandsFurther(r, finallyBody, i); }
  }

  /** Does the extent take in the function that an instruction makes? */
  predicate Opens(r: Extent, e: Instr) { (e.FunctionExpr? && r != OwnCode) || (e.Function? && r == WithFunctions) }

  /** What stands in a function that stands in the code stands in the code. */
  lemma {:induction false} StandsThrough(r: Extent, s: seq<Instr>, e: Instr, i: Instr)
    requires Stands(r, s, e) && Opens(r, e) && Stands(r, e.fn.code, i)
    ensures Stands(r, s, i)
    decreases s, 0
  {
    if s[0] == e {
      assert Inside(r, s[0], i);
    } else if Inside(r, s[0], e) {
      InsideThrough(r, s[0], e, i);
    } else {
      StandsThrough(r, s[1..], e, i);
    }
  }

  lemma {:induction false} InsideThrough(r: Extent, x: Instr, e: Instr, i: Instr)
    requires Inside(r, x, e) && Opens(r, e) && Stands(r, e.fn.code, i)
    ensures Inside(r, x, i)
    decreases x, 1
  {
    match x
    case Scope(body) => StandsThrough(r, body, e, i);
    case FunctionExpr(fn) => StandsThrough(r, fn.code, e, i);
    case Function(fn) => StandsThrough(r, fn.code, e, i);
    case Try(body, _, catchBody, finallyBody) =>
      if Stands(r, body, e) { StandsThrough(r, body, e, i); }
      else if Stands(r, catchBody, e) { StandsThrough(r, catchBody, e, i); }
      else { StandsThrough(r, finallyBody, e, i); }
  }

  /** What does not stand in the function itself stands in the code of an expression. */
  lemma {:induction false} Owner(s: seq<Instr>, i: Instr) returns (e: Instr)
    requires Stands(WithExpressions, s, i) && !Stands(OwnCode, s, i)
    ensures Stands(WithExpressions, s, e) && e.FunctionExpr? && Stands(OwnCode, e.fn.code, i)
    decreases s, 0
  {
    if Inside(WithExpressions, s[0], i) { e := OwnerOne(s[0], i); } else { e := Owner(s[1..], i); }
  }

  lemma {:induction false} OwnerOne(x: Instr, i: Instr) returns (e: Instr)
    requires Inside(WithExpressions, x, i) && !Inside(OwnCode, x, i)
    ensures (x == e || Inside(WithExpressions, x, e)) && e.FunctionExpr? && Stands(OwnCode, e.fn.code, i)
    decreases x, 1
  {
    match x
    case Scope(body) => e := Owner(body, i);
    case FunctionExpr(fn) => if Stands(OwnCode, fn.code, i) { e := x; } else { e := Owner(fn.code, i); }
    case Try(body, _, catchBody, finallyBody) =>
      if Stands(WithExpressions, body, i) { e := Owner(body, i); }
      else if Stands(WithExpressions, catchBody, i) { e := Owner(catchBody, i); }
      else { e := Owner(finallyBody, i); }
  }

  /** The bindings counted as local are the function's own, and those of expressions in it. */
  lemma BindingsSplit(s: seq<Instr>, n: string)
    ensures n in Bindings(s) <==> n in SlotsIn(s) || InExpression(s, n)
  {
    hide Stands;
    BindingsAreBound(s, n);
    SlotsAreBound(s, n);
    if i :| Stands(WithExpressions, s, i) && (Binds(i, n) || (i.FunctionExpr? && i.fn.name == Some(n))) {
      if Binds(i, n) && !Stands(OwnCode, s, i) {
        var e := Owner(s, i);
        assert BindsInside(e, n);
      } else if !Binds(i, n) {
        assert BindsInside(i, n);
      }
    }
    if i :| Stands(OwnCode, s, i) && Binds(i, n) { StandsFurther(WithExpressions, s, i); }
    if e :| Stands(WithExpressions, s, e) && BindsInside(e, n) {
      if e.fn.name != Some(n) {
        var i :| Stands(OwnCode, e.fn.code, i) && Binds(i, n);
        StandsFurther(WithExpressions, e.fn.code, i);
        StandsThrough(WithExpressions, s, e, i);
      }
    }
  }

  /** The function itself, outside any function it makes, mentions `n`. */
  ghost predicate Direct(code: seq<Instr>, n: string) {
    exists i :: Stands(OwnCode, code, i) && Mentions(i, n)
  }

  lemma DirectRef(s: seq<Instr>, n: string)
    requires Direct(s, n)
    ensures n in Refs(s)
  {
    hide Stands;
    var i :| Stands(OwnCode, s, i) && Mentions(i, n);
    StandsFurther(WithFunctions, s, i);
    MentionIsRef(s, i, n);
  }

  /** What it means to be captured: visible around the function, mentioned in it however deep,
      and bound neither by it nor by a function expression in it. */
  ghost predicate Captures(g: Inner, visible: set<string>, n: string) {
    && n in visible
    && (exists i :: Stands(WithFunctions, g.fn.code, i) && Mentions(i, n))
    && n !in g.fn.params && !(g.Expressed? && g.fn.name == Some(n)) && !BoundWithin(g.fn.code, n)
  }

  lemma CapturedIs(g: Inner, visible: set<string>, n: string)
    ensures n in Captured(g, visible) <==> Captures(g, visible, n)
  {
    hide Refs, Bindings, BoundWithin, Stands;
    RefsAreMentioned(g.fn.code, n);
    BindingsAreBound(g.fn.code, n);
  }

  /** The names that belong to a function itself. */
  ghost predicate HasOwn(g: Inner, n: string) {
    || (g.fn.name != Some("entry") && (n == "arguments" || n == "this" || n == "super"))
    || n in g.fn.params
    || (g.Expressed? && g.fn.name == Some(n))
    || Bound(g.fn.code, n)
  }

  lemma OwnIs(g: Inner, n: string)
    ensures n in Own(g) <==> HasOwn(g, n)
  {
    hide Bound, SlotsIn;
    SlotsAreBound(g.fn.code, n);
  }

  // ---- names that occur free ---------------------------------------------------------------------

  /** `n` occurs free in a function: it has no slot of its own there, and the function or,
      freely, one inside it uses it. */
  ghost predicate Free(g: Inner, n: string)
    decreases g.fn, 2
  {
    !HasOwn(g, n) && Reaches(g.fn.code, n)
  }

  ghost predicate ReachesOne(i: Instr, n: string)
    decreases i, 1
  {
    match i
    case Function(fn) => Free(Declared(fn), n)
    case FunctionExpr(fn) => Free(Expressed(fn), n)
    case Try(body, _, catchBody, finallyBody) => Reaches(body, n) || Reaches(catchBody, n) || Reaches(finallyBody, n)
    case Scope(body) => Reaches(body, n)
    case _ => Mentions(i, n)
  }

  ghost predicate Reaches(s: seq<Instr>, n: string)
    decreases s, 0
  {
    s != [] && (ReachesOne(s[0], n) || Reaches(s[1..], n))
  }

  lemma {:induction false} ReachedRefOne(i: Instr, n: string)
    requires ReachesOne(i, n)
    ensures n in RefsOne(i)
    decreases i, 1
  {
    hide HasOwn;
    match i
    case Function(fn) => ReachedRef(fn.code, n);
    case FunctionExpr(fn) => ReachedRef(fn.code, n);
    case Try(body, _, catchBody, finallyBody) =>
      if Reaches(body, n) { ReachedRef(body, n); }
      if Reaches(catchBody, n) { ReachedRef(catchBody, n); }
      if Reaches(finallyBody, n) { ReachedRef(finallyBody, n); }
    case Scope(body) => ReachedRef(body, n);
    case _ => MentionIsRefOne(i, i, n);
  }

  lemma {:induction false} ReachedRef(s: seq<Instr>, n: string)
    requires Reaches(s, n)
    ensures n in Refs(s)
    decreases s, 0
  {
    if ReachesOne(s[0], n) { ReachedRefOne(s[0], n); } else { ReachedRef(s[1..], n); }
  }

  /** A function's code reaches `n` when an instruction of its own mentions it, or makes a
      function in which it occurs free. */
  ghost predicate ReachedBy(i: Instr, n: string) {
    || Mentions(i, n)
    || (i.Function? && Free(Declared(i.fn), n))
    || (i.FunctionExpr? && Free(Expressed(i.fn), n))
  }

  lemma {:induction false} ReachesIs(s: seq<Instr>, n: string)
    ensures Reaches(s, n) <==> exists i :: Stands(OwnCode, s, i) && ReachedBy(i, n)
    decreases s, 0
  {
    hide Free, Mentions;
    if s != [] {
      ReachesOneIs(s[0], n);
      ReachesIs(s[1..], n);
      if ReachesOne(s[0], n) {
        var i :| (i == s[0] || Inside(OwnCode, s[0], i)) && ReachedBy(i, n);
        assert Stands(OwnCode, s, i);
      } else if Reaches(s[1..], n) {
        var i :| Stands(OwnCode, s[1..], i) && ReachedBy(i, n);
        assert Stands(OwnCode, s, i);
      }
    }
  }

  lemma {:induction false} ReachesOneIs(x: Instr, n: string)
    ensures ReachesOne(x, n) <==> exists i :: (i == x || Inside(OwnCode, x, i)) && ReachedBy(i, n)
    decreases x, 1
  {
    hide Free;
    match x
    case Scope(body) => ReachesIs(body, n);
    case Try(body, _, catchBody, finallyBody) =>
      ReachesIs(body, n);
      ReachesIs(catchBody, n);
      ReachesIs(finallyBody, n);
    case _ => assert ReachesOne(x, n) <==> ReachedBy(x, n);
  }

  /** A name that occurs free in a function and is visible around it is captured, exactly
      when no function expression in it binds the name, nor anything inside one. */
  lemma FreeIsCaptured(g: Inner, visible: set<string>, n: string)
    requires Free(g, n) && n in visible && !Externs.ImplicitGlobal(n)
    ensures n in Captured(g, visible) <==> !InExpression(g.fn.code, n)
    ensures NamePlace(Slots(g, visible), n) == if InExpression(g.fn.code, n) then External(n) else Local(n)
  {
    hide Refs, Bindings, InExpression, SlotsIn, Reaches, Bound;
    ReachedRef(g.fn.code, n);
    BindingsSplit(g.fn.code, n);
    SlotsAreBound(g.fn.code, n);
  }

  // ---- through any nesting of functions ------------------------------------------------------------

  /** Each function is made by the code of the one before it. */
  ghost predicate Nested(chain: seq<Inner>) {
    forall k :: 0 < k < |chain| ==> MadeIn(chain[k - 1].fn.code, chain[k])
  }

  /** An instruction of the code itself makes the function. */
  predicate MadeIn(code: seq<Instr>, g: Inner) {
    Stands(OwnCode, code, if g.Declared? then Function(g.fn) else FunctionExpr(g.fn))
  }

  /** What an inner function mentions, the outer one mentions. */
  lemma InnerRefs(code: seq<Instr>, g: Inner, n: string)
    requires MadeIn(code, g) && n in Refs(g.fn.code)
    ensures n in Refs(code)
  {
    hide Stands, Refs;
    var maker := if g.Declared? then Function(g.fn) else FunctionExpr(g.fn);
    var i := RefHasMention(g.fn.code, n);
    StandsFurther(WithFunctions, code, maker);
    StandsThrough(WithFunctions, code, maker, i);
    MentionIsRef(code, i, n);
  }

  /** The slots of the innermost function. */
  function ChainSlots(visible: set<string>, chain: seq<Inner>): set<string> {
    if chain == [] then visible
    else Slots(chain[|chain| - 1], ChainSlots(visible, chain[..|chain| - 1]))
  }

  /** `n` is bound outside the first `k` functions, if `k` is 0, or by function `k` itself,
      and by no function expression of any function further in. */
  ghost predicate SuppliedAt(visible: set<string>, chain: seq<Inner>, n: string, k: nat)
    requires k <= |chain|
  {
    (if k == 0 then n in visible else HasOwn(chain[k - 1], n))
    && forall j :: k <= j < |chain| ==> !InExpression(chain[j].fn.code, n)
  }

  lemma {:induction false} ChainRefs(chain: seq<Inner>, n: string, k: nat)
    requires Nested(chain) && k < |chain| && n in Refs(chain[|chain| - 1].fn.code)
    ensures n in Refs(chain[k].fn.code)
    decreases |chain| - k
  {
    hide Refs, MadeIn;
    if k < |chain| - 1 {
      ChainRefs(chain, n, k + 1);
      assert MadeIn(chain[(k + 1) - 1].fn.code, chain[k + 1]);
      InnerRefs(chain[k].fn.code, chain[k + 1], n);
    }
  }

  lemma OneMore(g: Inner, visible: set<string>, n: string)
    requires n in Refs(g.fn.code)
    ensures n in Slots(g, visible) <==> HasOwn(g, n) || (n in visible && !InExpression(g.fn.code, n))
  {
    hide Refs, Bindings, InExpression, SlotsIn, Bound;
    BindingsSplit(g.fn.code, n);
    SlotsAreBound(g.fn.code, n);
  }

  lemma {:induction false} SuppliedIff(visible: set<string>, chain: seq<Inner>, n: string)
    requires forall k :: 0 <= k < |chain| ==> n in Refs(chain[k].fn.code)
    ensures n in ChainSlots(visible, chain) <==> exists k :: 0 <= k <= |chain| && SuppliedAt(visible, chain, n, k)
    decreases |chain|
  {
    hide Refs, InExpression, HasOwn, Slots;
    if chain == [] {
      assert SuppliedAt(visible, chain, n, 0) <==> n in visible;
    } else {
      var last := |chain| - 1;
      var less := chain[..last];
      SuppliedIff(visible, less, n);
      OneMore(chain[last], ChainSlots(visible, less), n);
      assert SuppliedAt(visible, chain, n, |chain|) <==> HasOwn(chain[last], n);
      forall k | 0 <= k <= last
        ensures SuppliedAt(visible, chain, n, k) <==> SuppliedAt(visible, less, n, k)
                                                      && !InExpression(chain[last].fn.code, n)
      {
        assert forall j :: 0 <= j < last ==> less[j] == chain[j];
      }
    }
  }

  /** A name used in a function is found in a slot exactly when some function around it, or
      it itself, binds the name and no function expression further in gets in between;
      otherwise it is taken from the host. */
  lemma UseResolves(visible: set<string>, chain: seq<Inner>, n: string)
    requires Nested(chain) && chain != [] && Direct(chain[|chain| - 1].fn.code, n) && !Externs.ImplicitGlobal(n)
    ensures NamePlace(ChainSlots(visible, chain), n) == Local(n) <==> exists k :: 0 <= k <= |chain|
                                                                                  && SuppliedAt(visible, chain, n, k)
  {
    hide Refs, Direct, Nested, ChainSlots, SuppliedAt;
    DirectRef(chain[|chain| - 1].fn.code, n);
    forall k | 0 <= k < |chain| ensures n in Refs(chain[k].fn.code) { ChainRefs(chain, n, k); }
    SuppliedIff(visible, chain, n);
  }

  /** A function that uses an outer `x` and holds a function expression with an `x` of its
      own looks for the first one at the host. */
  lemma LostCapture()
    ensures var g := Declared(Func(Some("f"), [], [LoadName("x"), FunctionExpr(Func(None, [], [Declare("x")]))]));
            Free(g, "x") && "x" !in Captured(g, {"x"}) && NamePlace(Slots(g, {"x"}), "x") == External("x")
  {
    hide Captured, Slots;
    var inside := [Declare("x")];
    var code := [LoadName("x"), FunctionExpr(Func(None, [], inside))];
    var g := Declared(Func(Some("f"), [], code));
    assert inside[1..] == [] && code[1..] == [code[1]] && code[1..][1..] == [];
    assert Stands(OwnCode, inside, inside[0]) && Binds(inside[0], "x");
    assert Stands(WithExpressions, code[1..], code[1]) && BindsInside(code[1], "x");
    assert Stands(WithExpressions, code, code[1]);
    assert SlotsIn(code[1..]) == SlotsOne(code[1]) + SlotsIn([]) == {};
    assert SlotsIn(code) == SlotsOne(code[0]) + SlotsIn(code[1..]) == {};
    OwnIs(g, "x");
    assert Reaches(code, "x") by { assert ReachesOne(code[0], "x"); }
    FreeIsCaptured(g, {"x"}, "x");
  }
}
