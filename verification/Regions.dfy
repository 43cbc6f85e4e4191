/** The executor's recovery of nesting from flat code: the parts of a `try` from its
    markers, and the scope depth of every instruction. */
module Regions {
  import opened Syntax
  import opened Ir
  import opened Machine

  datatype TryParts = TryParts(
    bodyStart: nat, bodyEnd: nat,
    catchStart: nat, catchEnd: nat, catchParam: Option<string>,
    finallyStart: nat, finallyEnd: nat,
    end: nat)

  datatype Recovered = Recovered(parts: TryParts) | MissingTryEnd

  /** The markers of one `try`, as far as they have been seen. */
  datatype Seen = Seen(catchAt: Option<nat>, finallyAt: Option<nat>, end: Option<nat>)

  /** What a scan from `i` finds, `depth` being the number of inner tries still open. */
  function Scan(ops: seq<Op>, i: nat, depth: nat, s: Seen): Seen
    decreases |ops| - i
  {
    if i >= |ops| then s
    else
      match ops[i]
      case OpEnterTry => Scan(ops, i + 1, depth + 1, s)
      case OpLeaveTry => if depth == 0 then s.(end := Some(i)) else Scan(ops, i + 1, depth - 1, s)
      case OpEnterCatch(_) => Scan(ops, i + 1, depth, if depth == 0 then s.(catchAt := Some(i)) else s)
      case OpEnterFinally => Scan(ops, i + 1, depth, if depth == 0 then s.(finallyAt := Some(i)) else s)
      case _ => Scan(ops, i + 1, depth, s)
  }

  /** The intervals that the markers delimit. */
  function Intervals(start: nat, s: Seen, param: Option<string>): TryParts
    requires s.end.Some?
  {
    var end := s.end.value;
    TryParts(
      start + 1,
      if s.catchAt.Some? then s.catchAt.value else if s.finallyAt.Some? then s.finallyAt.value else end,
      if s.catchAt.Some? then s.catchAt.value + 1 else end,
      if s.finallyAt.Some? then s.finallyAt.value else end,
      param,
      if s.finallyAt.Some? then s.finallyAt.value + 1 else end,
      end,
      end)
  }

  function ParamAt(ops: seq<Op>, at: Option<nat>): Option<string> {
    if at.Some? && at.value < |ops| && ops[at.value].OpEnterCatch? then ops[at.value].param else None
  }

  function PartsAt(ops: seq<Op>, start: nat): Recovered {
    var s := Scan(ops, start + 1, 0, Seen(None, None, None));
    if s.end.None? then MissingTryEnd else Recovered(Intervals(start, s, ParamAt(ops, s.catchAt)))
  }

  method FindTryParts(ops: seq<Op>, start: nat) returns (r: Recovered)
    ensures r == PartsAt(ops, start)
  {
    var depth: nat := 0;
    var catchAt: Option<nat> := None;
    var finallyAt: Option<nat> := None;
    var end: Option<nat> := None;
    var i := start + 1;
    ghost var s := Scan(ops, start + 1, 0, Seen(None, None, None));
    while i < |ops| && end.None?
      invariant catchAt.Some? ==> catchAt.value < i && catchAt.value < |ops| && ops[catchAt.value].OpEnterCatch?
      invariant s == if end.Some? then Seen(catchAt, finallyAt, end)
                                       else Scan(ops, i, depth, Seen(catchAt, finallyAt, None))
      decreases |ops| - i, if end.None? then 1 else 0
    {
      match ops[i] {
        case OpEnterTry => depth := depth + 1;
        case OpLeaveTry => if depth == 0 { end := Some(i); } else { depth := depth - 1; }
        case OpEnterCatch(_) => if depth == 0 { catchAt := Some(i); }
        case OpEnterFinally => if depth == 0 { finallyAt := Some(i); }
        case _ =>
      }
      i := i + 1;
    }
    if end.None? {
      return MissingTryEnd;
    }
    var param := if catchAt.Some? then ops[catchAt.value].param else None;
    var stop := end.value;
    r := Recovered(TryParts(
      start + 1,
      if catchAt.Some? then catchAt.value else if finallyAt.Some? then finallyAt.value else stop,
      if catchAt.Some? then catchAt.value + 1 else stop,
      if finallyAt.Some? then finallyAt.value else stop,
      param,
      if finallyAt.Some? then finallyAt.value + 1 else stop,
      stop,
      stop));
  }

  // ---- printing and parsing ------------------------------------------------------------

  /** A scan passes over nested code and takes nothing from it for its own `try`. */
  lemma {:induction false} ScanOver(ops: seq<Op>, i: nat, code: seq<Instr>, depth: nat, s: Seen)
    requires OpsAt(ops, i, Linear(code))
    ensures Scan(ops, i, depth, s) == Scan(ops, i + |Linear(code)|, depth, s)
    decreases code, 0
  {
    if code != [] {
      var a, b := LinearOne(code[0]), Linear(code[1..]);
      PartAt(ops, i, a, b);
      ScanOverOne(ops, i, code[0], depth, s);
      ScanOver(ops, i + |a|, code[1..], depth, s);
    }
  }

  lemma {:induction false} ScanScope(ops: seq<Op>, i: nat, body: seq<Instr>, depth: nat, s: Seen)
    requires OpsAt(ops, i, LinearOne(Scope(body)))
    ensures Scan(ops, i, depth, s) == Scan(ops, i + |LinearOne(Scope(body))|, depth, s)
    decreases body, 1
  {
    var f := Linear(body);
    assert LinearOne(Scope(body)) == [OpEnterScope] + (f + [OpLeaveScope]);
    HeadAt(ops, i, OpEnterScope, f + [OpLeaveScope]);
    PartAt(ops, i + 1, f, [OpLeaveScope]);
    HeadAt(ops, i + 1 + |f|, OpLeaveScope, []);
    ScanOver(ops, i + 1, body, depth, s);
  }

  lemma {:induction false} ScanOverOne(ops: seq<Op>, i: nat, x: Instr, depth: nat, s: Seen)
    requires OpsAt(ops, i, LinearOne(x))
    ensures Scan(ops, i, depth, s) == Scan(ops, i + |LinearOne(x)|, depth, s)
    decreases x, 1
  {
    match x
    case Scope(body) => ScanScope(ops, i, body, depth, s);
    case TryInstr(_, _, _, _) =>
      TryAt(ops, i, x);
      ScanTry(ops, i, x, depth + 1, s);
    case _ => assert ops[i + 0] == LinearOne(x)[0];
  }

  /** Where the parts of a printed `try` stand. */
  predicate TryStands(ops: seq<Op>, i: nat, x: Instr)
    requires x.TryInstr?
  {
    var iC := i + 1 + |Linear(x.body)|;
    var iF := iC + CatchSize(x);
    var end := iF + FinallySize(x);
    && end < |ops| && ops[i].OpEnterTry? && ops[end].OpLeaveTry?
    && OpsAt(ops, i + 1, Linear(x.body))
    && (x.catchBody != [] ==> ops[iC] == OpEnterCatch(x.param) && OpsAt(ops, iC + 1, Linear(x.catchBody)))
    && (x.finallyBody != [] ==> ops[iF].OpEnterFinally? && OpsAt(ops, iF + 1, Linear(x.finallyBody)))
    && i + |LinearOne(x)| == end + 1
  }

  function CatchSize(x: Instr): nat
    requires x.TryInstr?
  {
    if x.catchBody == [] then 0 else 1 + |Linear(x.catchBody)|
  }

  function FinallySize(x: Instr): nat
    requires x.TryInstr?
  {
    if x.finallyBody == [] then 0 else 1 + |Linear(x.finallyBody)|
  }

  /** The markers of a `try` printed at `i`, over what was seen before. */
  function Markers(i: nat, x: Instr, s: Seen): Seen
    requires x.TryInstr?
  {
    var iC := i + 1 + |Linear(x.body)|;
    Seen(if x.catchBody != [] then Some(iC) else s.catchAt,
         if x.finallyBody != [] then Some(iC + CatchSize(x)) else s.finallyAt,
         Some(iC + CatchSize(x) + FinallySize(x)))
  }

  lemma TryAt(ops: seq<Op>, i: nat, x: Instr)
    requires x.TryInstr? && OpsAt(ops, i, LinearOne(x))
    ensures TryStands(ops, i, x)
  {
    hide Linear, LinearOne;
    var b, c, f := Linear(x.body), CatchOps(x), FinallyOps(x);
    TryPrinted(x);
    TryPartsAt(ops, i, b, c, f);
    if x.catchBody != [] { HeadAt(ops, i + 1 + |b|, OpEnterCatch(x.param), Linear(x.catchBody)); }
    if x.finallyBody != [] { HeadAt(ops, i + 1 + |b| + |c|, OpEnterFinally, Linear(x.finallyBody)); }
  }

  function CatchOps(x: Instr): seq<Op>
    requires x.TryInstr?
  {
    if x.catchBody == [] then [] else [OpEnterCatch(x.param)] + Linear(x.catchBody)
  }

  function FinallyOps(x: Instr): seq<Op>
    requires x.TryInstr?
  {
    if x.finallyBody == [] then [] else [OpEnterFinally] + Linear(x.finallyBody)
  }

  lemma TryPrinted(x: Instr)
    requires x.TryInstr?
    ensures LinearOne(x) == [OpEnterTry] + (Linear(x.body) + (CatchOps(x) + (FinallyOps(x) + [OpLeaveTry])))
  {
  }

  lemma TryPartsAt(ops: seq<Op>, i: nat, b: seq<Op>, c: seq<Op>, f: seq<Op>)
    requires OpsAt(ops, i, [OpEnterTry] + (b + (c + (f + [OpLeaveTry]))))
    ensures var iC := i + 1 + |b|; var iF := iC + |c|; var end := iF + |f|;
            end < |ops| && ops[i] == OpEnterTry && OpsAt(ops, i + 1, b) && OpsAt(ops, iC, c) && OpsAt(ops, iF, f)
                && ops[end] == OpLeaveTry
  {
    HeadAt(ops, i, OpEnterTry, b + (c + (f + [OpLeaveTry])));
    PartAt(ops, i + 1, b, c + (f + [OpLeaveTry]));
    PartAt(ops, i + 1 + |b|, c, f + [OpLeaveTry]);
    PartAt(ops, i + 1 + |b| + |c|, f, [OpLeaveTry]);
    assert [OpLeaveTry] == [OpLeaveTry] + [];
    HeadAt(ops, i + 1 + |b| + |c| + |f|, OpLeaveTry, []);
  }

  /** What a scan from behind the start of a printed `try` sees, when `depth - 1` inner
      tries were open before it: its own markers if there were none. */
  lemma {:induction false} ScanTry(ops: seq<Op>, i: nat, x: Instr, depth: nat, s: Seen)
    requires x.TryInstr? && TryStands(ops, i, x)
    ensures depth > 0 ==> Scan(ops, i + 1, depth, s) == Scan(ops, i + |LinearOne(x)|, depth - 1, s)
    ensures depth == 0 ==> Scan(ops, i + 1, depth, s) == Markers(i, x, s)
    decreases x, 0
  {
    hide Linear, LinearOne, OpsAt;
    var iC := i + 1 + |Linear(x.body)|;
    var iF := iC + CatchSize(x);
    var s1 := if x.catchBody != [] && depth == 0 then s.(catchAt := Some(iC)) else s;
    var s2 := if x.finallyBody != [] && depth == 0 then s1.(finallyAt := Some(iF)) else s1;
    ScanOver(ops, i + 1, x.body, depth, s);
    if x.catchBody != [] { ScanOver(ops, iC + 1, x.catchBody, depth, s1); }
    if x.finallyBody != [] { ScanOver(ops, iF + 1, x.finallyBody, depth, s2); }
  }

  /** The intervals that printing `x` at `i` produced: they hold exactly the printed parts,
      and an absent `catch` gives an inverted interval. */
  predicate Printed(ops: seq<Op>, i: nat, x: Instr, t: TryParts)
    requires x.TryInstr?
  {
    && t.end == i + |LinearOne(x)| - 1 == t.finallyEnd
    && t.bodyStart == i + 1 && t.bodyStart <= t.bodyEnd <= t.end < |ops|
       && ops[t.bodyStart..t.bodyEnd] == Linear(x.body)
    && (x.catchBody != [] ==> t.bodyEnd < t.catchStart <= t.catchEnd <= t.end
                              && ops[t.catchStart..t.catchEnd] == Linear(x.catchBody) && t.catchParam == x.param)
    && (x.catchBody == [] ==> t.catchParam == None && t.catchStart == t.end && t.catchEnd == t.bodyEnd)
    && (x.finallyBody != [] ==> t.bodyEnd < t.finallyStart <= t.finallyEnd
                                && ops[t.finallyStart..t.finallyEnd] == Linear(x.finallyBody))
    && (x.finallyBody == [] ==> t.finallyStart == t.end && (x.catchBody != [] ==> t.catchEnd == t.end))
  }

  /** Recovery gives back exactly the intervals that printing produced. */
  lemma TryRoundTrip(ops: seq<Op>, i: nat, x: Instr)
    requires x.TryInstr? && OpsAt(ops, i, LinearOne(x))
    ensures PartsAt(ops, i).Recovered? && Printed(ops, i, x, PartsAt(ops, i).parts)
  {
    hide Linear, LinearOne, OpsAt;
    TryAt(ops, i, x);
    ScanTry(ops, i, x, 0, Seen(None, None, None));
    var t := PartsAt(ops, i).parts;
    SliceAt(ops, i + 1, Linear(x.body));
    if x.catchBody != [] { SliceAt(ops, t.catchStart, Linear(x.catchBody)); }
    if x.finallyBody != [] { SliceAt(ops, t.finallyStart, Linear(x.finallyBody)); }
  }

  lemma SliceAt(ops: seq<Op>, i: nat, f: seq<Op>)
    requires OpsAt(ops, i, f)
    ensures ops[i..i + |f|] == f
  {
  }

  /** `x` is an instruction of the code, or nested in one. */
  predicate Contains(code: seq<Instr>, x: Instr)
    decreases code, 0
  {
    code != [] && (code[0] == x || Nests(code[0], x) || Contains(code[1..], x))
  }

  predicate Nests(y: Instr, x: Instr)
    decreases y, 1
  {
    match y
    case Scope(body) => Contains(body, x)
    case TryInstr(body, _, catchBody, finallyBody) => Contains(body, x) || Contains(catchBody, x)
        || Contains(finallyBody, x)
    case _ => false
  }

  /** Every start marker in printed code, however deep, belongs to a `try` of the tree. */
  lemma ContainedIn(code: seq<Instr>, x: Instr)
    requires code != [] && (code[0] == x || Nests(code[0], x) || Contains(code[1..], x))
    ensures Contains(code, x)
  {
  }

  lemma {:induction false} MarkerHasTry(code: seq<Instr>, i: nat) returns (x: Instr)
    requires i < |Linear(code)| && Linear(code)[i].OpEnterTry?
    ensures x.TryInstr? && Contains(code, x) && OpsAt(Linear(code), i, LinearOne(x))
    decreases code, 0
  {
    hide OpsAt, LinearOne, Nests, Contains;
    var a, b := LinearOne(code[0]), Linear(code[1..]);
    assert Linear(code) == a + b;
    if i < |a| {
      x := MarkerHasTryOne(code[0], i);
      Before(a, i, LinearOne(x), b);
    } else {
      assert (a + b)[i] == b[i - |a|];
      x := MarkerHasTry(code[1..], i - |a|);
      Behind(a, b, i - |a|, LinearOne(x));
    }
    ContainedIn(code, x);
  }

  lemma Before(a: seq<Op>, i: nat, f: seq<Op>, b: seq<Op>)
    requires OpsAt(a, i, f)
    ensures OpsAt(a + b, i, f)
  {
    forall k | 0 <= k < |f| ensures (a + b)[i + k] == f[k] { assert a[i + k] == f[k]; }
  }

  lemma Behind(a: seq<Op>, b: seq<Op>, i: nat, f: seq<Op>)
    requires OpsAt(b, i, f)
    ensures OpsAt(a + b, |a| + i, f)
  {
    forall k | 0 <= k < |f| ensures (a + b)[|a| + i + k] == f[k] { assert b[i + k] == f[k]; }
  }

  lemma {:induction false} MarkerHasTryOne(y: Instr, i: nat) returns (x: Instr)
    requires i < |LinearOne(y)| && LinearOne(y)[i].OpEnterTry?
    ensures x.TryInstr? && (x == y || Nests(y, x)) && OpsAt(LinearOne(y), i, LinearOne(x))
    decreases y, 1
  {
    hide Contains;
    match y
    case Scope(body) =>
      assert LinearOne(y)[i] == Linear(body)[i - 1];
      x := MarkerHasTry(body, i - 1);
      Behind([OpEnterScope], Linear(body), i - 1, LinearOne(x));
      Before([OpEnterScope] + Linear(body), i, LinearOne(x), [OpLeaveScope]);
    case TryInstr(body, _, catchBody, finallyBody) =>
      if i == 0 { x := y; } else { x := MarkerInPart(y, i); }
    case _ => x := y;
  }

  lemma {:induction false} MarkerInPart(y: Instr, i: nat) returns (x: Instr)
    requires y.TryInstr? && 0 < i < |LinearOne(y)| && LinearOne(y)[i].OpEnterTry?
    ensures x.TryInstr? && (x == y || Nests(y, x)) && OpsAt(LinearOne(y), i, LinearOne(x))
    decreases y, 0
  {
    hide Linear, LinearOne;
    var ops := LinearOne(y);
    var from, part := PartOf(y, i);
    SubAt(ops, from, Linear(part), i - from);
    x := MarkerHasTry(part, i - from);
    WithinAt(ops, from, Linear(part), i - from, LinearOne(x));
  }

  /** The part of a printed `try` that a marker inside it stands in. */
  lemma PartOf(y: Instr, i: nat) returns (from: nat, part: seq<Instr>)
    requires y.TryInstr? && 0 < i < |LinearOne(y)| && LinearOne(y)[i].OpEnterTry?
    ensures part == y.body || part == y.catchBody || part == y.finallyBody
    ensures from <= i < from + |Linear(part)| && OpsAt(LinearOne(y), from, Linear(part))
  {
    hide Linear, LinearOne;
    var ops := LinearOne(y);
    assert OpsAt(ops, 0, ops);
    TryAt(ops, 0, y);
    var iC := 1 + |Linear(y.body)|;
    var iF := iC + CatchSize(y);
    from := if i < iC then 1 else if i < iF then iC + 1 else iF + 1;
    part := if i < iC then y.body else if i < iF then y.catchBody else y.finallyBody;
  }

  lemma SubAt(ops: seq<Op>, from: nat, f: seq<Op>, k: int)
    requires OpsAt(ops, from, f)
    ensures 0 <= k < |f| ==> ops[from + k] == f[k]
  {
  }

  lemma WithinAt(ops: seq<Op>, from: nat, f: seq<Op>, i: nat, g: seq<Op>)
    requires OpsAt(ops, from, f) && OpsAt(f, i, g)
    ensures OpsAt(ops, from + i, g)
  {
    forall k | 0 <= k < |g| ensures ops[from + i + k] == g[k] { assert ops[from + (i + k)] == f[i + k]; }
  }

  /** At every start marker of printed code, however deep, recovery succeeds and gives the
      intervals of a `try` of the tree that is printed there. */
  lemma EveryMarkerRecovered(code: seq<Instr>, i: nat)
    requires i < |Linear(code)| && Linear(code)[i].OpEnterTry?
    ensures PartsAt(Linear(code), i).Recovered?
    ensures exists x: Instr :: x.TryInstr? && Contains(code, x) && OpsAt(Linear(code), i, LinearOne(x))
                        && Printed(Linear(code), i, x, PartsAt(Linear(code), i).parts)
  {
    hide Linear, LinearOne, OpsAt, Contains, PartsAt, Printed;
    var x := MarkerHasTry(code, i);
    TryRoundTrip(Linear(code), i, x);
  }

  // ---- scope depths --------------------------------------------------------------------

  /** The table the executor cuts environments by. */
  method CollectScopeMetadata(ops: seq<Op>) returns (depths: seq<nat>)
    ensures |depths| == |ops| && forall i :: 0 <= i < |ops| ==> depths[i] == Depth(ops, i)
  {
    depths := [];
    var depth: nat := 0;
    for i := 0 to |ops|
      invariant |depths| == i && depth == Depth(ops, i)
      invariant forall k :: 0 <= k < i ==> depths[k] == Depth(ops, k)
    {
      depths := depths + [depth];
      match ops[i] {
        case OpEnterScope => depth := depth + 1;
        case OpLeaveScope => depth := if depth == 0 then 0 else depth - 1;
        case _ =>
      }
    }
  }
}
