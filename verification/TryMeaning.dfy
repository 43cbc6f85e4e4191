/** What becomes of a `try`: one instruction whose parts mean the block, the handler and the
    finalizer, also after the executor has recovered them from flat code. */
module TryMeaning {
  import opened Syntax
  import opened Semantics
  import opened Ir
  import opened Lower
  import opened Machine
  import opened Regions
  import opened FunctionMeaning

  /** Operations that, run by themselves, end with an outcome and a world exactly when the
      block does, and run for ever exactly when it does. */
  ghost predicate OpsMean(ops: seq<Op>, block: seq<Stmt>, m: CodeSetting) {
    forall regs: map<nat, Value>, env: seq<nat>, w: World :: |env| == m.base ==>
      && (RunsForever(Program(ops, m), Run(0, regs, env, w)) <==> Diverges(m, [Block(block)], env, w))
      && forall out, w' :: Halts(Program(ops, m), Run(0, regs, env, w), out, w')
                           <==> exists fuel :: Ends(m, [Block(block)], env, w, fuel, out, w')
  }

  /** For a block without `try` and without jumps out of it. */
  ghost predicate PartAs(ops: seq<Op>, block: seq<Stmt>, m: CodeSetting) {
    Legal([Block(block)]) && m.base > 0 ==> OpsMean(ops, block, m)
  }

  lemma PartMeans(q: seq<nat>, block: seq<Stmt>, m: CodeSetting)
    ensures PartAs(Linear([Scope(LowerList(q, [], block, Ids(0, 0, 0)).code)]), block, m)
  {
    hide Ends, Diverges, RunsForever, Halts, Legal, Linear;
    var part := [Scope(LowerList(q, [], block, Ids(0, 0, 0)).code)];
    var p := Program(Linear(part), m);
    if Legal([Block(block)]) && m.base > 0 {
      OneBlock(q, block);
      assert Compiled(p, q, [Block(block)]);
      forall regs: map<nat, Value>, env: seq<nat>, w: World | |env| == m.base
        ensures RunsForever(p, Run(0, regs, env, w)) <==> Diverges(m, [Block(block)], env, w)
      {
        LoweringPreservesDivergence(p, q, [Block(block)], regs, env, w);
      }
      forall regs: map<nat, Value>, env: seq<nat>, w: World, out, w' | |env| == m.base
        ensures Halts(p, Run(0, regs, env, w), out, w')
                <==> exists fuel :: Ends(m, [Block(block)], env, w, fuel, out, w')
      {
        LoweringPreservesMeaning(p, q, [Block(block)], regs, env, w, out, w');
      }
    }
  }

  lemma OneBlock(q: seq<nat>, block: seq<Stmt>)
    ensures LowerList(q, [], [Block(block)], Ids(0, 0, 0)).code == [Scope(LowerList(q, [], block, Ids(0, 0, 0)).code)]
  {
    var s := Block(block);
    assert [s][1..] == [];
    assert LowerList(q, [], [s], Ids(0, 0, 0)).code == LowerStmt(q, [], [], s, Ids(0, 0, 0)).code + [];
  }

  /** One instruction is the whole of a `try`: its parameter is the handler's, a part is empty
      exactly when it is missing, and every other part means what its block does. */
  ghost predicate TryMeans(x: Instr, s: Stmt, m: CodeSetting)
    requires s.Try?
  {
    && x.TryInstr?
    && x.param == (if s.handler.Some? then s.handler.value.param else None)
    && (x.catchBody == [] <==> s.handler.None?)
    && (x.finallyBody == [] <==> s.finalizer.NoFinally?)
    && PartAs(Linear(x.body), s.block, m)
    && (s.handler.Some? ==> PartAs(Linear(x.catchBody), s.handler.value.body, m))
    && (s.finalizer.Finally? ==> PartAs(Linear(x.finallyBody), s.finalizer.body, m))
  }

  lemma TryLowered(q: seq<nat>, ctrl: seq<ControlTarget>, pending: seq<string>, s: Stmt, ids: Ids, m: CodeSetting)
    requires s.Try?
    ensures var code := LowerStmt(q, ctrl, pending, s, ids).code; |code| == 1 && TryMeans(code[0], s, m)
  {
    hide OpsMean, Legal, LowerList, Linear;
    var ids1 := Child(ids);
    PartMeans(q + [ids.child], s.block, m);
    if s.handler.Some? { PartMeans(q + [ids1.child], s.handler.value.body, m); }
    if s.finalizer.Finally? {
      PartMeans(q + [(if s.handler.Some? then Child(ids1) else ids1).child], s.finalizer.body, m);
    }
  }

  /** What the executor recovers at a `try`: the interval of the body means the block, that of
      the catch the handler, that of the finally the finalizer; the interval of a missing part
      begins at the end. */
  ghost predicate RecoveredMeans(ops: seq<Op>, t: TryParts, s: Stmt, m: CodeSetting)
    requires s.Try?
  {
    && t.bodyStart <= t.bodyEnd <= |ops| && PartAs(ops[t.bodyStart..t.bodyEnd], s.block, m)
    && (match s.handler
        case None => t.catchParam == None && t.catchStart == t.end && t.catchEnd == t.bodyEnd
        case Some(h) => t.catchParam == h.param && t.bodyEnd < t.catchStart <= t.catchEnd <= |ops|
                        && PartAs(ops[t.catchStart..t.catchEnd], h.body, m))
    && (match s.finalizer
        case NoFinally => t.finallyStart == t.end
        case Finally(f) => t.bodyEnd < t.finallyStart <= t.finallyEnd <= |ops|
                           && PartAs(ops[t.finallyStart..t.finallyEnd], f, m))
  }

  /** Lowered, printed and recovered, each part of a `try` means its own block. */
  lemma TryRecovered(ops: seq<Op>, i: nat, q: seq<nat>, ctrl: seq<ControlTarget>, pending: seq<string>, s: Stmt,
                     ids: Ids, m: CodeSetting)
    requires s.Try? && OpsAt(ops, i, Linear(LowerStmt(q, ctrl, pending, s, ids).code))
    ensures PartsAt(ops, i).Recovered? && RecoveredMeans(ops, PartsAt(ops, i).parts, s, m)
  {
    hide OpsMean, Legal, LowerStmt, OpsAt, PartsAt, LinearOne;
    TryLowered(q, ctrl, pending, s, ids, m);
    var code := LowerStmt(q, ctrl, pending, s, ids).code;
    assert code == [code[0]] && code[1..] == [];
    assert Linear(code) == LinearOne(code[0]) + [] == LinearOne(code[0]);
    TryRoundTrip(ops, i, code[0]);
  }
}
