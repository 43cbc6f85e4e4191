/** Running the blocks, written out in order, does what running the flat code does: the
    same effects in the same order, the same end. */
module BlocksMeaning {
  import opened Syntax
  import opened Semantics
  import opened Ir
  import opened Machine
  import opened LabelUniqueness
  import opened ScopedJumps
  import opened Blocks

  // ---- writing blocks out --------------------------------------------------------------

  function EmitTerm(t: Terminator): seq<Op> {
    match t
    case Unreachable => []
    case GoTo(b) => [OpJump(BlockLabel(b))]
    case Branch(test, truthy, falsy) => [OpJumpIfFalse(test, BlockLabel(falsy)), OpJump(BlockLabel(truthy))]
    case ReturnEnd(v) => [OpReturn(v)]
    case ThrowEnd(v) => [OpThrow(v)]
  }

  function EmitBlock(id: nat, b: BasicBlock): seq<Op> {
    [OpLabel(BlockLabel(id))] + (b.ops + EmitTerm(b.term))
  }

  /** All blocks in the order of their numbers. */
  function Emit(blocks: seq<BasicBlock>): seq<Op> {
    if blocks == [] then []
    else Emit(blocks[..|blocks| - 1]) + EmitBlock(|blocks| - 1, blocks[|blocks| - 1])
  }

  /** Where block `b` starts. */
  function Start(blocks: seq<BasicBlock>, b: nat): nat
    requires b <= |blocks|
  {
    |Emit(blocks[..b])|
  }

  lemma {:induction false} BlockAt(blocks: seq<BasicBlock>, b: nat)
    requires b < |blocks|
    ensures OpsAt(Emit(blocks), Start(blocks, b), EmitBlock(b, blocks[b]))
    ensures Start(blocks, b + 1) == Start(blocks, b) + |EmitBlock(b, blocks[b])|
    decreases |blocks|
  {
    var n := |blocks| - 1;
    var front := blocks[..n];
    assert blocks[..b + 1][..b] == blocks[..b];
    if b < n {
      BlockAt(front, b);
      assert front[..b] == blocks[..b] && front[..b + 1] == blocks[..b + 1];
      Prefixed(Emit(front), EmitBlock(n, blocks[n]), Start(blocks, b), EmitBlock(b, blocks[b]));
    } else {
      assert blocks[..n + 1] == blocks;
      Suffixed(Emit(front), EmitBlock(n, blocks[n]));
    }
  }

  lemma Prefixed(a: seq<Op>, b: seq<Op>, i: nat, f: seq<Op>)
    requires OpsAt(a, i, f)
    ensures OpsAt(a + b, i, f)
  {
  }

  lemma Suffixed(a: seq<Op>, b: seq<Op>)
    ensures OpsAt(a + b, |a|, b)
  {
  }

  /** Where the parts of block `b` stand in what is written out. */
  lemma PartsAt(blocks: seq<BasicBlock>, b: nat)
    requires b < |blocks|
    ensures var ops := Emit(blocks); var at := Start(blocks, b);
            && at < |ops| && ops[at] == OpLabel(BlockLabel(b)) && OpsAt(ops, at + 1, blocks[b].ops)
            && OpsAt(ops, at + 1 + |blocks[b].ops|, EmitTerm(blocks[b].term))
            && Start(blocks, b + 1) == at + 1 + |blocks[b].ops| + |EmitTerm(blocks[b].term)|
  {
    hide Emit, OpsAt;
    BlockAt(blocks, b);
    HeadAt(Emit(blocks), Start(blocks, b), OpLabel(BlockLabel(b)), blocks[b].ops + EmitTerm(blocks[b].term));
    PartAt(Emit(blocks), Start(blocks, b) + 1, blocks[b].ops, EmitTerm(blocks[b].term));
  }

  // ---- labels of the written code --------------------------------------------------------

  /** The labels of the blocks themselves. */
  function Heads(n: nat): multiset<Label> {
    if n == 0 then multiset{} else Heads(n - 1) + multiset{BlockLabel(n - 1)}
  }

  lemma {:induction false} HeadsOnce(n: nat, l: Label)
    ensures Heads(n)[l] == if l.BlockLabel? && l.block < n then 1 else 0
  {
    if n > 0 { HeadsOnce(n - 1, l); }
  }

  lemma {:induction false} EmitCount(blocks: seq<BasicBlock>)
    ensures LabelCount(Emit(blocks)) == Heads(|blocks|) + BlockLabels(blocks)
  {
    hide LabelCount;
    if blocks != [] {
      var n := |blocks| - 1;
      var b := blocks[n];
      EmitCount(blocks[..n]);
      CountConcat(Emit(blocks[..n]), EmitBlock(n, b));
      CountConcat([OpLabel(BlockLabel(n))], b.ops + EmitTerm(b.term));
      CountConcat(b.ops, EmitTerm(b.term));
      TermCount(n, b.term);
      assert blocks == blocks[..n] + [b];
      LabelsAppend(blocks[..n], b);
    } else {
      assert LabelCount([]) == multiset{} by { NoLabelsYet(); assert Linear([]) == []; }
    }
  }

  lemma TermCount(n: nat, t: Terminator)
    ensures LabelCount(EmitTerm(t)) == multiset{} && LabelCount([OpLabel(BlockLabel(n))]) == multiset{BlockLabel(n)}
  {
    hide LabelCount;
    SingleCount(OpLabel(BlockLabel(n)));
    match t
    case Unreachable => NoLabelsYet(); assert Linear([]) == [];
    case GoTo(b) => SingleCount(OpJump(BlockLabel(b)));
    case Branch(test, truthy, falsy) =>
      assert EmitTerm(t) == [OpJumpIfFalse(test, BlockLabel(falsy))] + [OpJump(BlockLabel(truthy))];
      CountConcat([OpJumpIfFalse(test, BlockLabel(falsy))], [OpJump(BlockLabel(truthy))]);
      SingleCount(OpJumpIfFalse(test, BlockLabel(falsy)));
      SingleCount(OpJump(BlockLabel(truthy)));
    case ReturnEnd(v) => SingleCount(OpReturn(v));
    case ThrowEnd(v) => SingleCount(OpThrow(v));
  }

  lemma SingleCount(op: Op)
    ensures LabelCount([op]) == if op.OpLabel? then multiset{op.l} else multiset{}
  {
    assert [op][1..] == [];
  }

  // ---- flat code and its cut ---------------------------------------------------------------

  /** Flat code, the cut of it, and what both run against. */
  datatype Pair = Pair(code: seq<Instr>, cut: Cut, m: CodeSetting) {
    function Flat(): Program { Program(Linear(code), m) }
    function Written(): Program { Program(Emit(cut.blocks), m) }
  }

  /** At the top level scopes are nested or absent, and jumps go to labels of the top level. */
  predicate TopLevel(code: seq<Instr>) {
    forall k :: 0 <= k < |code| ==>
      && DepthFrom(0, LinearOne(code[k])) == 0
      && (code[k].Jump? ==> Ahead(code, 0, code[k].l)) && (code[k].JumpIfFalse? ==> Ahead(code, 0, code[k].l))
  }

  /** Unique labels, none of them a block's, every jump finding its label. */
  ghost predicate WellCut(s: Pair) {
    && Splits(s.code, s.cut) && TopLevel(s.code) && Safe(s.Flat(), 0, Size(s.code))
    && forall l :: l in LabelCount(Linear(s.code)) ==> l.CodeLabel? && LabelCount(Linear(s.code))[l] == 1
  }

  lemma BothUnique(s: Pair)
    requires WellCut(s)
    ensures UniqueLabels(s.Flat().ops) && UniqueLabels(s.Written().ops)
  {
    hide LabelCount, BlockLabels, Heads, Emit, Linear, Safe, TopLevel;
    OnceUnique(s.Flat().ops);
    EmitCount(s.cut.blocks);
    var ops := s.Written().ops;
    forall l | l in LabelCount(ops) ensures LabelCount(ops)[l] == 1 {
      HeadsOnce(|s.cut.blocks|, l);
      assert LabelCount(ops)[l] == Heads(|s.cut.blocks|)[l] + LabelCount(Linear(s.code))[l];
    }
    OnceUnique(ops);
  }

  /** Where instruction `k` stands in the flat code. */
  function FlatAt(code: seq<Instr>, k: nat): nat
    requires k <= |code|
  {
    Size(code[..k])
  }

  lemma FlatPiece(code: seq<Instr>, k: nat)
    requires k < |code| && TopLevel(code)
    ensures OpsAt(Linear(code), FlatAt(code, k), LinearOne(code[k]))
    ensures FlatAt(code, k + 1) == FlatAt(code, k) + |LinearOne(code[k])| && LinearOne(code[k]) != []
    ensures Depth(Linear(code), FlatAt(code, k)) == 0
  {
    hide Depth, Linear, LinearOne, DepthFrom, OpsAt;
    var a, f, rest := code[..k], LinearOne(code[k]), code[k + 1..];
    assert code == a + ([code[k]] + rest);
    assert code[..k + 1] == a + [code[k]];
    LinearConcat(a, [code[k]] + rest);
    LinearConcat([code[k]], rest);
    LinearConcat(a, [code[k]]);
    LinearSingle(code[k]);
    LinearSome(code[k]);
    Whole(Linear(code));
    PartAt(Linear(code), 0, Linear(a), f + Linear(rest));
    PartAt(Linear(code), |Linear(a)|, f, Linear(rest));
    DepthAfter(Linear(code), 0, Linear(a));
    TopLevelDepth(code, k);
  }

  lemma LinearSingle(i: Instr)
    ensures Linear([i]) == LinearOne(i)
  {
    assert Linear([i]) == LinearOne(i) + Linear([]);
  }

  lemma Whole(ops: seq<Op>)
    ensures OpsAt(ops, 0, ops) && Depth(ops, 0) == 0
  {
  }

  lemma {:induction false} TopLevelDepth(code: seq<Instr>, k: nat)
    requires k <= |code| && TopLevel(code)
    ensures DepthFrom(0, Linear(code[..k])) == 0
    decreases k
  {
    if k > 0 {
      TopLevelDepth(code, k - 1);
      assert code[..k] == code[..k - 1] + [code[k - 1]];
      LinearConcat(code[..k - 1], [code[k - 1]]);
      LinearSingle(code[k - 1]);
      DepthFromConcat(0, Linear(code[..k - 1]), LinearOne(code[k - 1]));
    } else {
      assert code[..0] == [];
    }
  }

  /** Any position of the flat code belongs to one instruction. */
  lemma {:induction false} Locate(code: seq<Instr>, n: nat, t: nat) returns (k: nat, o: nat)
    requires n <= |code| && t < FlatAt(code, n) && TopLevel(code)
    ensures k < n && t == FlatAt(code, k) + o && o < |LinearOne(code[k])|
    decreases n
  {
    hide Linear, LinearOne;
    if n == 0 {
      assert code[..0] == [];
      assert false by { NoSize(); }
    } else {
      FlatPiece(code, n - 1);
      if t < FlatAt(code, n - 1) { k, o := Locate(code, n - 1, t); } else { k, o := n - 1, t - FlatAt(code, n - 1); }
    }
  }

  lemma NoSize()
    ensures Size([]) == 0
  {
  }

  // ---- scope depths of the written code ------------------------------------------------------

  /** What a block holds up to an instruction leaves the scope depth alone. */
  lemma {:induction false} UpToLevel(s: Pair, k: nat)
    requires Splits(s.code, s.cut) && TopLevel(s.code) && k <= |s.code|
    ensures Inside(s.cut, k) && DepthFrom(0, s.cut.blocks[s.cut.cur[k]].ops[..s.cut.off[k]]) == 0
    decreases k
  {
    hide LinearOne, BlockLabels, LabelCount, Covered, InRange, DepthFrom;
    if k == 0 {
      NoDepth();
    } else {
      var j := k - 1;
      assert Piece(s.code, s.cut, j);
      UpToLevel(s, j);
      var ops := s.cut.blocks[s.cut.cur[k]].ops;
      if s.code[j].LabelAt? {
        assert ops[..1] == [OpLabel(s.code[j].l)];
        LabelDepth(s.code[j].l);
      } else if !IsControl(s.code[j]) {
        var f := LinearOne(s.code[j]);
        SliceOf(ops, s.cut.off[j], f);
        assert ops[..s.cut.off[k]] == ops[..s.cut.off[j]] + f;
        DepthFromConcat(0, ops[..s.cut.off[j]], f);
      } else {
        NoDepth();
        assert ops[..0] == [];
      }
    }
  }

  lemma SliceOf(ops: seq<Op>, i: nat, f: seq<Op>)
    requires OpsAt(ops, i, f)
    ensures ops[i..i + |f|] == f
  {
  }

  lemma NoDepth()
    ensures DepthFrom(0, []) == 0
  {
  }

  lemma LabelDepth(l: Label)
    ensures DepthFrom(0, [OpLabel(l)]) == 0
  {
    assert [OpLabel(l)][..0] == [];
  }

  lemma BlockLevel(s: Pair, b: nat)
    requires Splits(s.code, s.cut) && TopLevel(s.code) && b < |s.cut.blocks|
    ensures DepthFrom(0, EmitBlock(b, s.cut.blocks[b])) == 0
  {
    hide LinearOne, BlockLabels, LabelCount, InRange, DepthFrom, Pieces;
    var ops := s.cut.blocks[b].ops;
    if ops == [] {
      NoDepth();
    } else {
      assert Fills(s.cut, |s.code|, b);
      var k :| 0 <= k <= |s.code| && k < |s.cut.cur| && k < |s.cut.off| && s.cut.cur[k] == b && s.cut.off[k] == |ops|;
      UpToLevel(s, k);
      assert ops[..|ops|] == ops;
    }
    LabelDepth(BlockLabel(b));
    TermDepth(s.cut.blocks[b].term);
    DepthFromConcat(0, [OpLabel(BlockLabel(b))], ops + EmitTerm(s.cut.blocks[b].term));
    DepthFromConcat(0, ops, EmitTerm(s.cut.blocks[b].term));
  }

  lemma TermDepth(t: Terminator)
    ensures DepthFrom(0, EmitTerm(t)) == 0
  {
    FlatDepth(0, EmitTerm(t));
  }

  lemma {:induction false} StartDepth(s: Pair, b: nat)
    requires Splits(s.code, s.cut) && TopLevel(s.code) && b <= |s.cut.blocks|
    ensures Start(s.cut.blocks, b) <= |s.Written().ops| && Depth(s.Written().ops, Start(s.cut.blocks, b)) == 0
    decreases b
  {
    hide Emit, EmitBlock, Splits, TopLevel, DepthFrom;
    if b == 0 {
      NoBlocks(s.cut.blocks);
      Whole(s.Written().ops);
    } else {
      StartDepth(s, b - 1);
      BlockAt(s.cut.blocks, b - 1);
      BlockLevel(s, b - 1);
      DepthAfter(s.Written().ops, Start(s.cut.blocks, b - 1), EmitBlock(b - 1, s.cut.blocks[b - 1]));
    }
  }

  lemma NoBlocks(blocks: seq<BasicBlock>)
    ensures Start(blocks, 0) == 0
  {
    assert blocks[..0] == [];
  }

  // ---- where an instruction stands in the written code ------------------------------------------

  /** Where control stands, in the written code, when the flat code comes to instruction
      `k` from the one before it. */
  function Falls(c: Cut, k: nat): nat
    requires Inside(c, k)
  {
    Start(c.blocks, c.cur[k]) + 1 + c.off[k]
  }

  /** Where instruction `k` itself stands: a label leads its own block. */
  function Home(code: seq<Instr>, c: Cut, k: nat): nat
    requires Inside(c, k) && (k < |code| && code[k].LabelAt? ==> Known(c, code[k].l))
  {
    if k < |code| && code[k].LabelAt? then Start(c.blocks, c.labels[code[k].l]) + 1 else Falls(c, k)
  }

  lemma FallsDepth(s: Pair, k: nat)
    requires Splits(s.code, s.cut) && TopLevel(s.code) && k <= |s.code|
    ensures Inside(s.cut, k) && Falls(s.cut, k) <= |s.Written().ops| && Depth(s.Written().ops, Falls(s.cut, k)) == 0
  {
    hide Emit, Splits, TopLevel, DepthFrom, Start;
    UpToLevel(s, k);
    var b := s.cut.cur[k];
    var ops := s.cut.blocks[b].ops;
    var f := ops[..s.cut.off[k]];
    PartsAt(s.cut.blocks, b);
    StartDepth(s, b);
    var at := Start(s.cut.blocks, b);
    assert ops == f + ops[s.cut.off[k]..];
    PartAt(s.Written().ops, at + 1, f, ops[s.cut.off[k]..]);
    AfterLabel(s.Written().ops, at, BlockLabel(b));
    DepthAfter(s.Written().ops, at + 1, f);
  }

  lemma AfterLabel(ops: seq<Op>, at: nat, l: Label)
    requires at < |ops| && ops[at] == OpLabel(l)
    ensures Depth(ops, at + 1) == Depth(ops, at)
  {
  }

  lemma PieceOf(s: Pair, k: nat)
    requires Splits(s.code, s.cut) && k < |s.code|
    ensures Piece(s.code, s.cut, k)
  {
    hide Piece;
  }

  /** An instruction's operations stand at its home, at depth zero, as they do in the flat code. */
  lemma HomeOps(s: Pair, k: nat)
    requires Splits(s.code, s.cut) && TopLevel(s.code) && k < |s.code| && (s.code[k].LabelAt? || !IsControl(s.code[k]))
    ensures Inside(s.cut, k) && Inside(s.cut, k + 1) && (s.code[k].LabelAt? ==> Known(s.cut, s.code[k].l))
    ensures OpsAt(s.Written().ops, Home(s.code, s.cut, k), LinearOne(s.code[k]))
    ensures Depth(s.Written().ops, Home(s.code, s.cut, k)) == 0
    ensures Falls(s.cut, k + 1) == Home(s.code, s.cut, k) + |LinearOne(s.code[k])|
  {
    hide Emit, TopLevel, DepthFrom, Start, Splits, Depth, LinearOne, OpsAt;
    PieceOf(s, k);
    if s.code[k].LabelAt? { HomeLabel(s, k); } else { HomeCopy(s, k); }
  }

  lemma HomeLabel(s: Pair, k: nat)
    requires Splits(s.code, s.cut) && TopLevel(s.code) && k < |s.code| && s.code[k].LabelAt? && Piece(s.code, s.cut, k)
    ensures OpsAt(s.Written().ops, Home(s.code, s.cut, k), LinearOne(s.code[k]))
            && Depth(s.Written().ops, Home(s.code, s.cut, k)) == 0
    ensures Falls(s.cut, k + 1) == Home(s.code, s.cut, k) + |LinearOne(s.code[k])|
  {
    hide Emit, TopLevel, DepthFrom, Start, Splits, Depth, OpsAt;
    var b := s.cut.labels[s.code[k].l];
    var ops := s.cut.blocks[b].ops;
    var at := Start(s.cut.blocks, b);
    PartsAt(s.cut.blocks, b);
    StartDepth(s, b);
    assert ops == [OpLabel(s.code[k].l)] + ops[1..];
    PartAt(s.Written().ops, at + 1, [OpLabel(s.code[k].l)], ops[1..]);
    AfterLabel(s.Written().ops, at, BlockLabel(b));
  }

  lemma HomeCopy(s: Pair, k: nat)
    requires Splits(s.code, s.cut) && TopLevel(s.code) && k < |s.code| && !IsControl(s.code[k])
             && Piece(s.code, s.cut, k)
    ensures OpsAt(s.Written().ops, Home(s.code, s.cut, k), LinearOne(s.code[k]))
            && Depth(s.Written().ops, Home(s.code, s.cut, k)) == 0
    ensures Falls(s.cut, k + 1) == Home(s.code, s.cut, k) + |LinearOne(s.code[k])|
  {
    hide Emit, TopLevel, DepthFrom, Start, Splits, Depth, OpsAt, LinearOne;
    FallsDepth(s, k);
    PartsAt(s.cut.blocks, s.cut.cur[k]);
    WithinOps(s.Written().ops, Start(s.cut.blocks, s.cut.cur[k]) + 1, s.cut.blocks[s.cut.cur[k]].ops, s.cut.off[k],
        LinearOne(s.code[k]));
  }

  lemma WithinOps(ops: seq<Op>, from: nat, f: seq<Op>, i: nat, g: seq<Op>)
    requires OpsAt(ops, from, f) && OpsAt(f, i, g)
    ensures OpsAt(ops, from + i, g)
  {
    forall k | 0 <= k < |g| ensures ops[from + i + k] == g[k] { assert ops[from + (i + k)] == f[i + k]; }
  }

  /** A block that ends before instruction `k` ends with its terminator there. */
  lemma EndOps(s: Pair, k: nat, t: Terminator)
    requires Splits(s.code, s.cut) && TopLevel(s.code) && k <= |s.code| && Inside(s.cut, k) && EndsWith(s.cut, k, t)
    ensures OpsAt(s.Written().ops, Falls(s.cut, k), EmitTerm(t)) && Depth(s.Written().ops, Falls(s.cut, k)) == 0
    ensures Start(s.cut.blocks, s.cut.cur[k] + 1) == Falls(s.cut, k) + |EmitTerm(t)|
  {
    hide Emit, TopLevel, DepthFrom, Start, Splits;
    FallsDepth(s, k);
    PartsAt(s.cut.blocks, s.cut.cur[k]);
  }

  // ---- moving between blocks ------------------------------------------------------------------

  /** A jump to a block, from depth zero, arrives behind the block's label. */
  lemma ToBlock(s: Pair, pc: nat, b: nat, regs: map<nat, Value>, env: seq<nat>, w: World)
    requires Splits(s.code, s.cut) && TopLevel(s.code) && UniqueLabels(s.Written().ops) && b < |s.cut.blocks|
    requires pc < |s.Written().ops| && Depth(s.Written().ops, pc) == 0
    ensures JumpTo(s.Written().ops, pc, BlockLabel(b), regs, env, w) == Run(Start(s.cut.blocks, b), regs, env, w)
    ensures Step(s.Written(), Run(Start(s.cut.blocks, b), regs, env, w))
            == Run(Start(s.cut.blocks, b) + 1, regs, env, w)
  {
    hide Emit, TopLevel, DepthFrom, Start, Splits, Depth;
    PartsAt(s.cut.blocks, b);
    StartDepth(s, b);
    LocalJump(s.Written(), pc, BlockLabel(b), Start(s.cut.blocks, b), regs, env, w);
  }

  /** From where the flat code falls to instruction `k`, its home is reached. */
  lemma ReachHome(s: Pair, k: nat, regs: map<nat, Value>, env: seq<nat>, w: World)
    requires Splits(s.code, s.cut) && TopLevel(s.code) && UniqueLabels(s.Written().ops) && k <= |s.code|
    ensures Inside(s.cut, k) && (k < |s.code| && s.code[k].LabelAt? ==> Known(s.cut, s.code[k].l))
    ensures Reaches(s.Written(), Run(Falls(s.cut, k), regs, env, w), Run(Home(s.code, s.cut, k), regs, env, w))
  {
    hide Emit, TopLevel, DepthFrom, Start, Splits, Depth, OpsAt;
    FallsDepth(s, k);
    if k < |s.code| { PieceOf(s, k); }
    var q := s.Written();
    var c := Run(Falls(s.cut, k), regs, env, w);
    if k < |s.code| && s.code[k].LabelAt? {
      var b := s.cut.labels[s.code[k].l];
      EndOps(s, k, GoTo(b));
      assert EmitTerm(GoTo(b)) == [OpJump(BlockLabel(b))] + [];
      HeadAt(q.ops, Falls(s.cut, k), OpJump(BlockLabel(b)), []);
      ToBlock(s, Falls(s.cut, k), b, regs, env, w);
      One(q, Run(Start(s.cut.blocks, b), regs, env, w), Run(Start(s.cut.blocks, b) + 1, regs, env, w));
      StepThen(q, c, Run(Start(s.cut.blocks, b), regs, env, w), Run(Start(s.cut.blocks, b) + 1, regs, env, w));
    } else {
      Refl(q, c);
    }
  }

  // ---- step by step -------------------------------------------------------------------------------

  /** The written code stands where the flat code does: in instruction `k`, `o` operations
      into it, or behind the last one; all else is the same. */
  ghost predicate Match(s: Pair, k: nat, o: nat, c: Config, d: Config) {
    && c.Run? && d.Run? && c.regs == d.regs && c.env == d.env && c.w == d.w && k <= |s.code|
    && Inside(s.cut, k) && (k < |s.code| && s.code[k].LabelAt? ==> Known(s.cut, s.code[k].l))
    && (if k < |s.code| then o < |LinearOne(s.code[k])| else o == 0)
    && c.pc == FlatAt(s.code, k) + o && d.pc == Home(s.code, s.cut, k) + o
  }

  /** The written code gets, in some steps, to where the flat code is, or ends as it does. */
  ghost predicate Tracks(s: Pair, c: Config, d: Config) {
    if c.Done? then Reaches(s.Written(), d, c)
    else exists k: nat, o: nat, d' :: Match(s, k, o, c, d') && Reaches(s.Written(), d, d')
  }

  /** The flat code has come to instruction `k`, the written code to where it falls from there. */
  lemma TrackFalls(s: Pair, k: nat, d: Config, regs: map<nat, Value>, env: seq<nat>, w: World)
    requires WellCut(s) && k <= |s.code| && Inside(s.cut, k)
             && Reaches(s.Written(), d, Run(Falls(s.cut, k), regs, env, w))
    ensures Tracks(s, Run(FlatAt(s.code, k), regs, env, w), d)
  {
    hide Emit, TopLevel, Start, Splits, Depth, OpsAt, FlatAt, Falls, LinearOne, Reaches, Safe;
    BothUnique(s);
    ReachHome(s, k, regs, env, w);
    var d' := Run(Home(s.code, s.cut, k), regs, env, w);
    Trans(s.Written(), d, Run(Falls(s.cut, k), regs, env, w), d');
    if k < |s.code| { LinearSome(s.code[k]); }
    assert Match(s, k, 0, Run(FlatAt(s.code, k), regs, env, w), d');
  }

  /** The same, at the instruction's own place. */
  lemma TrackHome(s: Pair, k: nat, o: nat, c: Config, d: Config)
    requires Match(s, k, o, c, d)
    ensures Tracks(s, c, d)
  {
    Refl(s.Written(), d);
  }

  /** Inside an instruction that is copied, both codes are at the same scope depth. */
  lemma SameDepth(s: Pair, k: nat, o: nat)
    requires WellCut(s) && k < |s.code| && (s.code[k].LabelAt? || !IsControl(s.code[k])) && o < |LinearOne(s.code[k])|
    ensures Inside(s.cut, k) && (s.code[k].LabelAt? ==> Known(s.cut, s.code[k].l))
    ensures var i, j := FlatAt(s.code, k) + o, Home(s.code, s.cut, k) + o;
            && i < |s.Flat().ops| && j < |s.Written().ops|
            && s.Flat().ops[i] == LinearOne(s.code[k])[o] == s.Written().ops[j]
               && Depth(s.Flat().ops, i) == Depth(s.Written().ops, j)
  {
    hide Depth, DepthFrom, FlatAt, Falls, Home, LinearOne, Safe, LabelCount, OpsAt;
    FlatPiece(s.code, k);
    HomeOps(s, k);
    var f := LinearOne(s.code[k]);
    OpsPart(s.Flat().ops, FlatAt(s.code, k), f, o);
    OpsPart(s.Written().ops, Home(s.code, s.cut, k), f, o);
    DepthAfter(s.Flat().ops, FlatAt(s.code, k), f[..o]);
    DepthAfter(s.Written().ops, Home(s.code, s.cut, k), f[..o]);
  }

  lemma OpsPart(ops: seq<Op>, i: nat, f: seq<Op>, o: nat)
    requires OpsAt(ops, i, f) && o < |f|
    ensures OpsAt(ops, i, f[..o]) && i + o < |ops| && ops[i + o] == f[o]
  {
  }

  /** A label of the flat code, found in both. */
  lemma FoundInBoth(s: Pair, l: Label) returns (k: nat, o: nat)
    requires WellCut(s) && Find(s.Flat().ops, l, 0).Some?
    ensures k < |s.code| && (s.code[k].LabelAt? || !IsControl(s.code[k])) && o < |LinearOne(s.code[k])|
    ensures Inside(s.cut, k) && (s.code[k].LabelAt? ==> Known(s.cut, s.code[k].l))
    ensures Find(s.Flat().ops, l, 0) == Some(FlatAt(s.code, k) + o)
    ensures Find(s.Written().ops, l, 0) == Some(Home(s.code, s.cut, k) + o)
  {
    hide Emit, TopLevel, Splits, Depth, DepthFrom, Home, Safe, LabelCount, Inside;
    var t := Find(s.Flat().ops, l, 0).value;
    AllOfIt(s.code);
    k, o := Locate(s.code, |s.code|, t);
    FlatPiece(s.code, k);
    OpsPart(s.Flat().ops, FlatAt(s.code, k), LinearOne(s.code[k]), o);
    LabelNotControl(s.code[k], o);
    SameDepth(s, k, o);
    BothUnique(s);
    FindAt(s.Written().ops, l, 0, Home(s.code, s.cut, k) + o);
  }

  lemma AllOfIt(code: seq<Instr>)
    ensures FlatAt(code, |code|) == Size(code)
  {
    assert code[..|code|] == code;
  }

  lemma LabelNotControl(i: Instr, o: nat)
    requires o < |LinearOne(i)| && LinearOne(i)[o].OpLabel?
    ensures i.LabelAt? || !IsControl(i)
  {
  }

  /** One operation that is no jump does the same wherever it stands. */
  lemma SameStep(p: Program, q: Program, op: Op, i: nat, j: nat, regs: map<nat, Value>, env: seq<nat>, w: World)
    requires p.m == q.m && i < |p.ops| && j < |q.ops| && !op.OpJump? && !op.OpJumpIfFalse?
    ensures var a, b := StepOp(p, op, i, regs, env, w), StepOp(q, op, j, regs, env, w);
            if a.Done? then b == a else a.pc == i + 1 && b == a.(pc := j + 1)
  {
  }

  /** A jump nested in an instruction that is copied. */
  lemma SameJump(s: Pair, l: Label, i: nat, j: nat, regs: map<nat, Value>, env: seq<nat>, w: World)
    requires WellCut(s) && i < |s.Flat().ops| && j < |s.Written().ops|
             && Depth(s.Flat().ops, i) == Depth(s.Written().ops, j)
    requires Find(s.Flat().ops, l, 0).Some?
    ensures Tracks(s, JumpTo(s.Flat().ops, i, l, regs, env, w), JumpTo(s.Written().ops, j, l, regs, env, w))
  {
    hide Emit, TopLevel, Splits, Depth, DepthFrom, FlatAt, Home, LinearOne, Safe, LabelCount, Reaches;
    var k, o := FoundInBoth(s, l);
    SameDepth(s, k, o);
    TrackHome(s, k, o, JumpTo(s.Flat().ops, i, l, regs, env, w), JumpTo(s.Written().ops, j, l, regs, env, w));
  }

  /** On to the next operation of the instruction, or to the next instruction. */
  lemma NextOp(s: Pair, k: nat, o: nat, regs: map<nat, Value>, env: seq<nat>, w: World)
    requires WellCut(s) && k < |s.code| && (s.code[k].LabelAt? || !IsControl(s.code[k])) && o < |LinearOne(s.code[k])|
    ensures Inside(s.cut, k) && (s.code[k].LabelAt? ==> Known(s.cut, s.code[k].l))
    ensures Tracks(s, Run(FlatAt(s.code, k) + o + 1, regs, env, w), Run(Home(s.code, s.cut, k) + o + 1, regs, env, w))
  {
    hide Emit, TopLevel, Splits, Falls, Home, LinearOne, Safe, LabelCount, Reaches;
    FlatPiece(s.code, k);
    HomeOps(s, k);
    var c, d := Run(FlatAt(s.code, k) + o + 1, regs, env, w), Run(Home(s.code, s.cut, k) + o + 1, regs, env, w);
    if o + 1 < |LinearOne(s.code[k])| {
      TrackHome(s, k, o + 1, c, d);
    } else {
      Refl(s.Written(), d);
      TrackFalls(s, k + 1, d, regs, env, w);
    }
  }

  /** An instruction copied into a block, one operation at a time. */
  lemma CopyStep(s: Pair, k: nat, o: nat, c: Config, d: Config)
    requires WellCut(s) && Match(s, k, o, c, d) && k < |s.code| && (s.code[k].LabelAt? || !IsControl(s.code[k]))
    ensures Tracks(s, Step(s.Flat(), c), Step(s.Written(), d))
  {
    hide Depth, DepthFrom, FlatAt, Home, LinearOne, LabelCount, Reaches, StepOp, JumpTo, Tracks;
    SameDepth(s, k, o);
    var op := LinearOne(s.code[k])[o];
    assert SafeAt(s.Flat(), c.pc);
    if op.OpJump? {
      SameJump(s, op.l, c.pc, d.pc, c.regs, c.env, c.w);
      JumpSteps(s.Flat(), c);
      JumpSteps(s.Written(), d);
    } else if op.OpJumpIfFalse? {
      if Truthy(Read(op.test, c.regs)) { NextOp(s, k, o, c.regs, c.env, c.w); }
          else { SameJump(s, op.l, c.pc, d.pc, c.regs, c.env, c.w); }
      JumpSteps(s.Flat(), c);
      JumpSteps(s.Written(), d);
    } else {
      SameStep(s.Flat(), s.Written(), op, c.pc, d.pc, c.regs, c.env, c.w);
      var a := StepOp(s.Flat(), op, c.pc, c.regs, c.env, c.w);
      if a.Done? { EndsAlike(s, a); } else { NextOp(s, k, o, a.regs, a.env, a.w); }
    }
  }

  lemma EndsAlike(s: Pair, a: Config)
    requires a.Done?
    ensures Tracks(s, a, a)
  {
    Refl(s.Written(), a);
  }

  lemma JumpSteps(p: Program, c: Config)
    requires c.Run? && c.pc < |p.ops|
    ensures p.ops[c.pc].OpJump? ==> Step(p, c) == JumpTo(p.ops, c.pc, p.ops[c.pc].l, c.regs, c.env, c.w)
    ensures p.ops[c.pc].OpJumpIfFalse? ==>
              Step(p, c) == if Truthy(Read(p.ops[c.pc].test, c.regs)) then Run(c.pc + 1, c.regs, c.env, c.w)
                            else JumpTo(p.ops, c.pc, p.ops[c.pc].l, c.regs, c.env, c.w)
  {
    hide JumpTo;
  }

  /** A jump of the top level: to the label's block, and into it. */
  lemma ToLabel(s: Pair, l: Label, i: nat, j: nat, regs: map<nat, Value>, env: seq<nat>, w: World)
    requires WellCut(s) && Ahead(s.code, 0, l) && Known(s.cut, l)
    requires i < |s.Flat().ops| && Depth(s.Flat().ops, i) == 0 && j < |s.Written().ops|
             && Depth(s.Written().ops, j) == 0
    ensures Tracks(s, JumpTo(s.Flat().ops, i, l, regs, env, w),
            JumpTo(s.Written().ops, j, BlockLabel(s.cut.labels[l]), regs, env, w))
  {
    hide Emit, TopLevel, Start, Splits, Depth, DepthFrom, FlatAt, Falls, Safe, LabelCount, Reaches;
    var k :| 0 <= k < |s.code| && s.code[k] == LabelAt(l);
    BothUnique(s);
    FlatPiece(s.code, k);
    OpsPart(s.Flat().ops, FlatAt(s.code, k), LinearOne(s.code[k]), 0);
    LocalJump(s.Flat(), i, l, FlatAt(s.code, k), regs, env, w);
    PieceOf(s, k);
    var b := s.cut.labels[l];
    ToBlock(s, j, b, regs, env, w);
    var d, d' := Run(Start(s.cut.blocks, b), regs, env, w), Run(Start(s.cut.blocks, b) + 1, regs, env, w);
    One(s.Written(), d, d');
    assert Match(s, k, 0, Run(FlatAt(s.code, k), regs, env, w), d');
  }

  lemma ControlStep(s: Pair, k: nat, c: Config, d: Config)
    requires WellCut(s) && Match(s, k, 0, c, d) && k < |s.code| && IsControl(s.code[k]) && !s.code[k].LabelAt?
    ensures Tracks(s, Step(s.Flat(), c), Step(s.Written(), d))
  {
    hide Depth, DepthFrom, FlatAt, Falls, LabelCount, Reaches, Tracks, Safe, StepOp;
    FlatPiece(s.code, k);
    OpsPart(s.Flat().ops, FlatAt(s.code, k), LinearOne(s.code[k]), 0);
    PieceOf(s, k);
    EndOps(s, k, s.cut.blocks[s.cut.cur[k]].term);
    match s.code[k]
    case Jump(l) => JumpStep(s, k, l, c, d);
    case JumpIfFalse(t, l) => BranchStep(s, k, t, l, c, d);
    case ReturnInstr(v) => EndStep(s, k, OpReturn(v), c, d);
    case ThrowInstr(v) => EndStep(s, k, OpThrow(v), c, d);
  }

  lemma JumpStep(s: Pair, k: nat, l: Label, c: Config, d: Config)
    requires WellCut(s) && k < |s.code| && s.code[k] == Jump(l) && Inside(s.cut, k) && Known(s.cut, l) && c.Run?
             && d == c.(pc := Falls(s.cut, k))
    requires c.pc < |s.Flat().ops| && s.Flat().ops[c.pc] == OpJump(l) && Depth(s.Flat().ops, c.pc) == 0
    requires OpsAt(s.Written().ops, d.pc, EmitTerm(GoTo(s.cut.labels[l]))) && Depth(s.Written().ops, d.pc) == 0
    ensures Tracks(s, Step(s.Flat(), c), Step(s.Written(), d))
  {
    hide Emit, Splits, Depth, DepthFrom, Falls, LabelCount, Reaches, Tracks, Safe, StepOp, JumpTo;
    OpsPart(s.Written().ops, d.pc, EmitTerm(GoTo(s.cut.labels[l])), 0);
    ToLabel(s, l, c.pc, d.pc, c.regs, c.env, c.w);
    JumpSteps(s.Flat(), c);
    JumpSteps(s.Written(), d);
  }

  /** A conditional jump: a false test goes to the label's block, a true one to the block
      that the code falls into. */
  lemma BranchStep(s: Pair, k: nat, t: Operand, l: Label, c: Config, d: Config)
    requires WellCut(s) && k < |s.code| && s.code[k] == JumpIfFalse(t, l) && Piece(s.code, s.cut, k) && c.Run?
             && d == c.(pc := Falls(s.cut, k))
    requires c.pc == FlatAt(s.code, k) < |s.Flat().ops| && s.Flat().ops[c.pc] == OpJumpIfFalse(t, l)
             && Depth(s.Flat().ops, c.pc) == 0
    requires OpsAt(s.Written().ops, d.pc, EmitTerm(Branch(t, s.cut.cur[k + 1], s.cut.labels[l])))
             && Depth(s.Written().ops, d.pc) == 0
    ensures Tracks(s, Step(s.Flat(), c), Step(s.Written(), d))
  {
    hide Emit, Splits, Depth, DepthFrom, Tracks, StepOp, JumpTo, Ahead, Find, Truthy;
    var q := s.Written();
    var term := EmitTerm(Branch(t, s.cut.cur[k + 1], s.cut.labels[l]));
    OpsPart(q.ops, d.pc, term, 0);
    OpsPart(q.ops, d.pc, term, 1);
    JumpSteps(s.Flat(), c);
    JumpSteps(q, d);
    if Truthy(Read(t, c.regs)) {
      FlatPiece(s.code, k);
      TruthySteps(s, k, d.pc, c.regs, c.env, c.w);
      TrackFalls(s, k + 1, Run(d.pc + 1, c.regs, c.env, c.w), c.regs, c.env, c.w);
    } else {
      ToLabel(s, l, c.pc, d.pc, c.regs, c.env, c.w);
    }
  }

  lemma TruthySteps(s: Pair, k: nat, pc: nat, regs: map<nat, Value>, env: seq<nat>, w: World)
    requires WellCut(s) && k < |s.code| && s.code[k].JumpIfFalse? && Piece(s.code, s.cut, k)
    requires pc + 1 < |s.Written().ops| && s.Written().ops[pc + 1] == OpJump(BlockLabel(s.cut.cur[k + 1]))
             && Depth(s.Written().ops, pc) == 0
    requires s.Written().ops[pc].OpJumpIfFalse?
    ensures Reaches(s.Written(), Run(pc + 1, regs, env, w), Run(Falls(s.cut, k + 1), regs, env, w))
  {
    hide Emit, Start, Splits, DepthFrom, LabelCount, Reaches, Safe, JumpTo;
    var q := s.Written();
    var b := s.cut.cur[k + 1];
    BothUnique(s);
    assert Depth(q.ops, pc + 1) == 0;
    ToBlock(s, pc + 1, b, regs, env, w);
    var d, d' := Run(Start(s.cut.blocks, b), regs, env, w), Run(Start(s.cut.blocks, b) + 1, regs, env, w);
    One(q, d, d');
    StepThen(q, Run(pc + 1, regs, env, w), d, d');
  }

  lemma EndStep(s: Pair, k: nat, op: Op, c: Config, d: Config)
    requires c.Run? && d.Run? && d == c.(pc := d.pc) && (op.OpReturn? || op.OpThrow?)
    requires c.pc < |s.Flat().ops| && s.Flat().ops[c.pc] == op && OpsAt(s.Written().ops, d.pc, [op])
    ensures Tracks(s, Step(s.Flat(), c), Step(s.Written(), d))
  {
    OpsPart(s.Written().ops, d.pc, [op], 0);
    EndsAlike(s, Step(s.Flat(), c));
  }

  /** Behind the last instruction both complete. */
  lemma LastStep(s: Pair, c: Config, d: Config)
    requires WellCut(s) && Match(s, |s.code|, 0, c, d)
    ensures Tracks(s, Step(s.Flat(), c), Step(s.Written(), d))
  {
    hide Emit, TopLevel, Start, BlockLabels, Reaches, Safe, JumpTo, Pieces, Covered, InRange;
    var q := s.Written();
    var blocks := s.cut.blocks;
    var exit := |blocks| - 1;
    AllOfIt(s.code);
    BothUnique(s);
    PartsAt(blocks, exit);
    EndOps(s, |s.code|, blocks[s.cut.cur[|s.code|]].term);
    EmitsAll(blocks);
    var e, f := Run(Start(blocks, exit), c.regs, c.env, c.w), Run(Start(blocks, exit) + 1, c.regs, c.env, c.w);
    One(q, f, Done(Completed, c.w));
    if s.cut.off[|s.code|] == 0 {
      Refl(q, f);
      assert Step(q, d) == f;
    } else {
      ToBlock(s, d.pc, exit, c.regs, c.env, c.w);
      OpsPart(q.ops, d.pc, EmitTerm(GoTo(exit)), 0);
      JumpSteps(q, d);
      StepThen(q, e, f, Done(Completed, c.w));
    }
  }

  lemma EmitsAll(blocks: seq<BasicBlock>)
    ensures Start(blocks, |blocks|) == |Emit(blocks)|
  {
    assert blocks[..|blocks|] == blocks;
  }

  /** Every step of the flat code is followed by one or more of the written code. */
  lemma Follow(s: Pair, k: nat, o: nat, c: Config, d: Config)
    requires WellCut(s) && Match(s, k, o, c, d)
    ensures Tracks(s, Step(s.Flat(), c), Step(s.Written(), d))
  {
    hide WellCut, Step, Tracks;
    if k == |s.code| { LastStep(s, c, d); }
    else if s.code[k].LabelAt? || !IsControl(s.code[k]) { CopyStep(s, k, o, c, d); }
    else { ControlSingle(s.code[k]); ControlStep(s, k, c, d); }
  }

  lemma ControlSingle(i: Instr)
    requires IsControl(i)
    ensures |LinearOne(i)| == 1
  {
  }

  // ---- whole runs -----------------------------------------------------------------------------------

  lemma {:induction false} EndsTogether(s: Pair, c: Config, d: Config, n: nat)
    requires WellCut(s) && Tracks(s, c, d) && RunN(s.Flat(), c, n).Done?
    ensures Reaches(s.Written(), d, RunN(s.Flat(), c, n))
    decreases n
  {
    hide WellCut, Step, Match;
    if c.Done? {
      DoneStays(s.Flat(), c, n);
    } else {
      var k: nat, o: nat, d' :| Match(s, k, o, c, d') && Reaches(s.Written(), d, d');
      Follow(s, k, o, c, d');
      if n > 0 {
        EndsTogether(s, Step(s.Flat(), c), Step(s.Written(), d'), n - 1);
        One(s.Written(), d', Step(s.Written(), d'));
        Trans(s.Written(), d', Step(s.Written(), d'), RunN(s.Flat(), c, n));
        Trans(s.Written(), d, d', RunN(s.Flat(), c, n));
      }
    }
  }

  lemma {:induction false} LastsTogether(s: Pair, c: Config, d: Config, n: nat)
    requires WellCut(s) && Tracks(s, c, d) && Lasts(s.Flat(), c, n)
    ensures Lasts(s.Written(), d, n)
    decreases n
  {
    hide WellCut, Step;
    if c.Done? {
      DoneStays(s.Flat(), c, n);
    } else {
      var k: nat, o: nat, d' :| Match(s, k, o, c, d') && Reaches(s.Written(), d, d');
      Follow(s, k, o, c, d');
      if n > 0 {
        LastsTogether(s, Step(s.Flat(), c), Step(s.Written(), d'), n - 1);
        LastsOneMore(s.Written(), d', Step(s.Written(), d'), n - 1);
      }
      LastsAfter(s.Written(), d, d', n);
    }
  }

  lemma Beginning(s: Pair, regs: map<nat, Value>, env: seq<nat>, w: World)
    requires WellCut(s)
    ensures Tracks(s, Run(0, regs, env, w), Run(0, regs, env, w))
  {
    hide TopLevel, Start, DepthFrom, LabelCount, BlockLabels, Safe, Pieces, Covered, InRange, Tracks, Depth;
    var q := s.Written();
    PartsAt(s.cut.blocks, 0);
    NoBlocks(s.cut.blocks);
    assert FlatAt(s.code, 0) == 0 by { assert s.code[..0] == []; NoSize(); }
    One(q, Run(0, regs, env, w), Run(1, regs, env, w));
    TrackFalls(s, 0, Run(0, regs, env, w), regs, env, w);
  }

  /** The blocks, run from the first one, end exactly as the flat code does: same outcome,
      same world, both directions. */
  lemma BlocksPreserveMeaning(s: Pair, regs: map<nat, Value>, env: seq<nat>, w: World, out: Outcome, w': World)
    requires WellCut(s)
    ensures Halts(s.Flat(), Run(0, regs, env, w), out, w') <==> Halts(s.Written(), Run(0, regs, env, w), out, w')
  {
    hide WellCut, RunN, Step, Tracks;
    var c := Run(0, regs, env, w);
    Beginning(s, regs, env, w);
    if Halts(s.Flat(), c, out, w') {
      var n: nat :| RunN(s.Flat(), c, n) == Done(out, w');
      EndsTogether(s, c, c, n);
    }
    if Halts(s.Written(), c, out, w') {
      var n: nat :| RunN(s.Written(), c, n) == Done(out, w');
      if Lasts(s.Flat(), c, n) {
        LastsTogether(s, c, c, n);
        HaltsEndsLasting(s.Written(), c, out, w', n, n);
      }
      var r := RunN(s.Flat(), c, n);
      EndsTogether(s, c, c, n);
      assert Halts(s.Written(), c, r.out, r.w);
      HaltsOnce(s.Written(), c, out, w', r.out, r.w);
      assert Halts(s.Flat(), c, out, w');
    }
  }

  /** They run for ever together. */
  lemma BlocksPreserveDivergence(s: Pair, regs: map<nat, Value>, env: seq<nat>, w: World)
    requires WellCut(s)
    ensures (forall k: nat :: Lasts(s.Flat(), Run(0, regs, env, w), k))
            <==> (forall k: nat :: Lasts(s.Written(), Run(0, regs, env, w), k))
  {
    hide WellCut, RunN, Step, Tracks;
    var c := Run(0, regs, env, w);
    Beginning(s, regs, env, w);
    if forall k: nat :: Lasts(s.Flat(), c, k) {
      forall k: nat ensures Lasts(s.Written(), c, k) { LastsTogether(s, c, c, k); }
    }
    if forall k: nat :: Lasts(s.Written(), c, k) {
      forall k: nat ensures Lasts(s.Flat(), c, k) {
        if !Lasts(s.Flat(), c, k) {
          var r := RunN(s.Flat(), c, k);
          EndsTogether(s, c, c, k);
          var n: nat :| RunN(s.Written(), c, n) == r;
          HaltsEndsLasting(s.Written(), c, r.out, r.w, n, n);
        }
      }
    }
  }
}
