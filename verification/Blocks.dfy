/** The second pass: flat code cut into basic blocks, and the order in which blocks are
    written out again as bytecode. */
module Blocks {
  import opened Syntax
  import opened Ir
  import opened Machine
  import opened LabelUniqueness

  datatype Terminator =
    | Unreachable
    | GoTo(block: nat)
    | Branch(test: Operand, truthy: nat, falsy: nat)
    | ReturnEnd(result: Option<Operand>)
    | ThrowEnd(value: Operand)

  datatype BasicBlock = BasicBlock(ops: seq<Op>, term: Terminator)

  const EMPTY_BLOCK := BasicBlock([], Unreachable)

  /** Instructions that end a block or begin one; the rest are copied into it. */
  predicate IsControl(i: Instr) {
    i.LabelAt? || i.Jump? || i.JumpIfFalse? || i.ReturnInstr? || i.ThrowInstr?
  }

  // ---- what the cut must satisfy -------------------------------------------------------

  /** `cur[k]` and `off[k]`: the block, and how far into it, where the cut stands before
      instruction `k`. */
  datatype Cut = Cut(blocks: seq<BasicBlock>, labels: map<Label, nat>, cur: seq<nat>, off: seq<nat>)

  predicate Inside(c: Cut, k: nat) {
    k < |c.cur| && k < |c.off| && c.cur[k] < |c.blocks| && c.off[k] <= |c.blocks[c.cur[k]].ops|
  }

  /** The block before instruction `k` ends there, in this way. */
  predicate EndsWith(c: Cut, k: nat, t: Terminator)
    requires Inside(c, k)
  {
    |c.blocks[c.cur[k]].ops| == c.off[k] && c.blocks[c.cur[k]].term == t
  }

  /** The block of a label begins with it. */
  predicate Leads(c: Cut, l: Label) {
    l in c.labels && c.labels[l] < |c.blocks| && |c.blocks[c.labels[l]].ops| > 0
        && c.blocks[c.labels[l]].ops[0] == OpLabel(l)
  }

  predicate Known(c: Cut, l: Label) {
    l in c.labels && c.labels[l] < |c.blocks|
  }

  /** Instruction `k` is where the cut puts it, and control leaves it as it must. */
  predicate Piece(code: seq<Instr>, c: Cut, k: nat)
    requires k < |code|
  {
    Inside(c, k) && Inside(c, k + 1) &&
    match code[k]
    case LabelAt(l) => Leads(c, l) && EndsWith(c, k, GoTo(c.labels[l])) && c.cur[k + 1] == c.labels[l]
        && c.off[k + 1] == 1
    case Jump(l) => Known(c, l) && EndsWith(c, k, GoTo(c.labels[l])) && c.off[k + 1] == 0
    case JumpIfFalse(t, l) => Known(c, l) && EndsWith(c, k, Branch(t, c.cur[k + 1], c.labels[l])) && c.off[k + 1] == 0
    case ReturnInstr(v) => EndsWith(c, k, ReturnEnd(v)) && c.off[k + 1] == 0
    case ThrowInstr(v) => EndsWith(c, k, ThrowEnd(v)) && c.off[k + 1] == 0
    case _ => c.cur[k + 1] == c.cur[k] && c.off[k + 1] == c.off[k] + |LinearOne(code[k])|
              && OpsAt(c.blocks[c.cur[k]].ops, c.off[k], LinearOne(code[k]))
  }

  predicate Pieces(code: seq<Instr>, c: Cut, n: nat)
    requires n <= |code|
  {
    forall k :: 0 <= k < n ==> Piece(code, c, k)
  }

  predicate InRange(blocks: seq<BasicBlock>) {
    forall b :: 0 <= b < |blocks| ==>
      match blocks[b].term
      case GoTo(t) => t < |blocks|
      case Branch(_, t, f) => t < |blocks| && f < |blocks|
      case _ => true
  }

  /** A block holds what was put into it up to some instruction, and nothing more. */
  predicate Covered(c: Cut, n: nat) {
    forall b :: 0 <= b < |c.blocks| && c.blocks[b].ops != [] ==> Fills(c, n, b)
  }

  predicate Fills(c: Cut, n: nat, b: nat)
    requires b < |c.blocks|
  {
    exists k :: 0 <= k <= n && k < |c.cur| && k < |c.off| && c.cur[k] == b && c.off[k] == |c.blocks[b].ops|
  }

  /** All the labels of the blocks' own operations, with their numbers of occurrences. */
  function BlockLabels(blocks: seq<BasicBlock>): multiset<Label> {
    if blocks == [] then multiset{} else LabelCount(blocks[0].ops) + BlockLabels(blocks[1..])
  }

  /** The finished cut: every instruction in its place, the code's end leading to an
      empty exit block, every target a block, no label lost or repeated. */
  predicate Splits(code: seq<Instr>, c: Cut) {
    && |c.cur| == |c.off| == |code| + 1 && c.cur[0] == 0 && c.off[0] == 0 && |c.blocks| >= 2
    && Inside(c, |code|) && Pieces(code, c, |code|) && Covered(c, |code|)
    && c.blocks[|c.blocks| - 1] == EMPTY_BLOCK
    && (if c.off[|code|] == 0 then EndsWith(c, |code|, Unreachable) && c.cur[|code|] == |c.blocks| - 2
        else EndsWith(c, |code|, GoTo(|c.blocks| - 1)))
    && InRange(c.blocks)
    && BlockLabels(c.blocks) == LabelCount(Linear(code))
  }

  // ---- building it ---------------------------------------------------------------------

  /** The labels of instructions `from` on, at the top level. */
  predicate Ahead(code: seq<Instr>, from: nat, l: Label) {
    exists k :: from <= k < |code| && code[k] == LabelAt(l)
  }

  predicate Distinct(code: seq<Instr>) {
    forall i, j :: 0 <= i < j < |code| && code[i].LabelAt? ==> code[i] != code[j]
  }

  /** The state of the pass before instruction `n`. */
  ghost predicate Building(code: seq<Instr>, n: nat, c: Cut, current: nat) {
    && n <= |code| && |c.cur| == |c.off| == n + 1 && c.cur[0] == 0 && c.off[0] == 0
    && current == c.cur[n] && Inside(c, n) && EndsWith(c, n, Unreachable) && Pieces(code, c, n) && Covered(c, n)
    && (c.off[n] == 0 ==> current == |c.blocks| - 1 || n == 0) && (code == [] ==> |c.blocks| == 1)
    && InRange(c.blocks)
    && (forall b :: 0 <= b < |c.blocks| && b != current && c.blocks[b].term.Unreachable? ==> c.blocks[b].ops == [])
    && Waiting(code, n, c, current)
    && BlockLabels(c.blocks) == LabelCount(Linear(code[..n]))
  }

  /** Every label still ahead has a block of its own, still empty. */
  ghost predicate Waiting(code: seq<Instr>, n: nat, c: Cut, current: nat) {
    && (forall l :: l in c.labels ==> c.labels[l] < |c.blocks|)
    && (forall l, m :: l in c.labels && m in c.labels && l != m ==> c.labels[l] != c.labels[m])
    && (forall l :: Ahead(code, n, l) ==> l in c.labels && c.labels[l] != current
                                          && c.blocks[c.labels[l]] == EMPTY_BLOCK)
  }

  /** Blocks still open may have grown; the others are as they were. */
  predicate Grown(bs: seq<BasicBlock>, cs: seq<BasicBlock>) {
    |bs| <= |cs| && forall b :: 0 <= b < |bs| ==>
      cs[b] == bs[b] || (bs[b].term.Unreachable? && bs[b].ops <= cs[b].ops)
  }

  predicate Later(c: Cut, d: Cut, n: nat) {
    && Grown(c.blocks, d.blocks) && (forall l :: l in c.labels ==> l in d.labels && d.labels[l] == c.labels[l])
    && n < |c.cur| <= |d.cur| && n < |c.off| <= |d.off| && d.cur[..n + 1] == c.cur[..n + 1]
       && d.off[..n + 1] == c.off[..n + 1]
  }

  /** A piece once in place stays in place. */
  lemma PieceStays(code: seq<Instr>, c: Cut, d: Cut, n: nat, k: nat)
    requires Later(c, d, n) && k < n <= |code| && Piece(code, c, k)
    ensures Piece(code, d, k)
  {
    hide LinearOne;
    assert d.cur[k] == d.cur[..n + 1][k] && d.cur[k + 1] == d.cur[..n + 1][k + 1];
    assert d.off[k] == d.off[..n + 1][k] && d.off[k + 1] == d.off[..n + 1][k + 1];
    var b := c.cur[k];
    if !IsControl(code[k]) && d.blocks[b] != c.blocks[b] {
      OpsExtend(c.blocks[b].ops, d.blocks[b].ops, c.off[k], LinearOne(code[k]));
    }
  }

  lemma OpsExtend(ops: seq<Op>, more: seq<Op>, at: nat, f: seq<Op>)
    requires ops <= more && OpsAt(ops, at, f)
    ensures OpsAt(more, at, f)
  {
    forall i | 0 <= i < |f| ensures more[at + i] == f[i] { assert more[at + i] == ops[at + i]; }
  }

  lemma {:induction false} LabelsPut(blocks: seq<BasicBlock>, b: nat, x: BasicBlock)
    requires b < |blocks|
    ensures BlockLabels(blocks[b := x]) + LabelCount(blocks[b].ops) == BlockLabels(blocks) + LabelCount(x.ops)
  {
    hide LabelCount;
    var cs := blocks[b := x];
    if b > 0 {
      assert cs[1..] == blocks[1..][b - 1 := x] && cs[0] == blocks[0] && blocks[1..][b - 1] == blocks[b];
      LabelsPut(blocks[1..], b - 1, x);
      Front(LabelCount(blocks[0].ops), BlockLabels(cs[1..]), LabelCount(blocks[b].ops), BlockLabels(blocks[1..]),
          LabelCount(x.ops));
    } else {
      assert cs[1..] == blocks[1..];
    }
  }

  lemma Front(a: multiset<Label>, x: multiset<Label>, b: multiset<Label>, y: multiset<Label>, c: multiset<Label>)
    requires x + b == y + c
    ensures (a + x) + b == (a + y) + c
  {
    assert (a + x) + b == a + (x + b);
    assert (a + y) + c == a + (y + c);
  }

  /** One block with more operations than before. */
  lemma LabelsAdd(blocks: seq<BasicBlock>, b: nat, x: BasicBlock, f: seq<Op>)
    requires b < |blocks| && x.ops == blocks[b].ops + f
    ensures BlockLabels(blocks[b := x]) == BlockLabels(blocks) + LabelCount(f)
  {
    hide BlockLabels, LabelCount;
    LabelsPut(blocks, b, x);
    CountConcat(blocks[b].ops, f);
    Cancel(BlockLabels(blocks[b := x]), LabelCount(blocks[b].ops), BlockLabels(blocks), LabelCount(f));
  }

  lemma Cancel(x: multiset<Label>, a: multiset<Label>, b: multiset<Label>, f: multiset<Label>)
    requires x + a == b + (a + f)
    ensures x == b + f
  {
    forall l ensures x[l] == (b + f)[l] { assert (x + a)[l] == (b + (a + f))[l]; }
  }

  lemma LabelsSame(blocks: seq<BasicBlock>, b: nat, x: BasicBlock)
    requires b < |blocks| && x.ops == blocks[b].ops
    ensures BlockLabels(blocks[b := x]) == BlockLabels(blocks)
  {
    assert x.ops == blocks[b].ops + [];
    LabelsAdd(blocks, b, x, []);
  }

  lemma {:induction false} LabelsAppend(blocks: seq<BasicBlock>, x: BasicBlock)
    ensures BlockLabels(blocks + [x]) == BlockLabels(blocks) + LabelCount(x.ops)
  {
    if blocks == [] {
      assert [x][1..] == [] && blocks + [x] == [x];
    } else {
      assert (blocks + [x])[1..] == blocks[1..] + [x];
      LabelsAppend(blocks[1..], x);
    }
  }

  lemma CountNext(code: seq<Instr>, n: nat)
    requires n < |code|
    ensures LabelCount(Linear(code[..n + 1])) == LabelCount(Linear(code[..n])) + LabelCount(LinearOne(code[n]))
  {
    assert code[..n + 1] == code[..n] + [code[n]];
    LinearConcat(code[..n], [code[n]]);
    assert Linear([code[n]]) == LinearOne(code[n]) + Linear([]);
    CountConcat(Linear(code[..n]), LinearOne(code[n]) + []);
    assert LinearOne(code[n]) + [] == LinearOne(code[n]);
  }

  /** Blocks that did not grow were filled before, those that did are filled now. */
  lemma CoveredStays(c: Cut, d: Cut, n: nat)
    requires Later(c, d, n) && Covered(c, n) && |c.cur| == |c.off| == n + 1 && |d.cur| == |d.off| == n + 2
    requires d.cur[n + 1] < |d.blocks| && d.off[n + 1] == |d.blocks[d.cur[n + 1]].ops|
    requires forall b :: 0 <= b < |d.blocks| && b != d.cur[n + 1] ==>
               d.blocks[b].ops == (if b < |c.blocks| then c.blocks[b].ops else [])
    ensures Covered(d, n + 1)
  {
    forall b | 0 <= b < |d.blocks| && d.blocks[b].ops != [] ensures Fills(d, n + 1, b) {
      if b == d.cur[n + 1] {
        assert d.off[n + 1] == |d.blocks[b].ops|;
      } else {
        assert Fills(c, n, b);
        var k :| 0 <= k <= n && k < |c.cur| && k < |c.off| && c.cur[k] == b && c.off[k] == |c.blocks[b].ops|;
        assert d.cur[k] == d.cur[..n + 1][k] && d.off[k] == d.off[..n + 1][k];
      }
    }
  }

  /** What one turn of the loop must have done. */
  ghost predicate Turn(code: seq<Instr>, n: nat, c: Cut, d: Cut)
    requires n < |code|
  {
    && |d.cur| == |d.off| == n + 2 && Later(c, d, n) && Piece(code, d, n) && Covered(d, n + 1)
    && Inside(d, n + 1) && EndsWith(d, n + 1, Unreachable) && (d.off[n + 1] == 0 ==> d.cur[n + 1] == |d.blocks| - 1)
    && InRange(d.blocks)
    && (forall b :: 0 <= b < |d.blocks| && b != d.cur[n + 1] && d.blocks[b].term.Unreachable? ==> d.blocks[b].ops == [])
    && Waiting(code, n + 1, d, d.cur[n + 1])
    && BlockLabels(d.blocks) == BlockLabels(c.blocks) + LabelCount(LinearOne(code[n]))
  }

  lemma Advance(code: seq<Instr>, n: nat, c: Cut, current: nat, d: Cut)
    requires n < |code| && Building(code, n, c, current) && Turn(code, n, c, d)
    ensures Building(code, n + 1, d, d.cur[n + 1])
  {
    hide LinearOne, LabelCount, BlockLabels, Piece, Waiting, InRange;
    forall k | 0 <= k < n + 1 ensures Piece(code, d, k) {
      if k < n { PieceStays(code, c, d, n, k); }
    }
    CountNext(code, n);
    assert d.cur[0] == d.cur[..n + 1][0] && d.off[0] == d.off[..n + 1][0];
  }

  // ---- the cases of a turn ------------------------------------------------------------

  function Copied(c: Cut, current: nat, ops: seq<Op>): Cut
    requires current < |c.blocks| && |c.off| > 0
  {
    var b := c.blocks[current];
    Cut(c.blocks[current := b.(ops := b.ops + ops)], c.labels, c.cur + [current], c.off + [c.off[|c.off| - 1] + |ops|])
  }

  lemma CopyTurn(code: seq<Instr>, n: nat, c: Cut, current: nat)
    requires n < |code| && Building(code, n, c, current) && !IsControl(code[n])
    ensures Turn(code, n, c, Copied(c, current, LinearOne(code[n])))
  {
    hide LinearOne, LabelCount, BlockLabels, Covered;
    var f := LinearOne(code[n]);
    var d := Copied(c, current, f);
    var b := c.blocks[current];
    LabelsAdd(c.blocks, current, b.(ops := b.ops + f), f);
    assert OpsAt(b.ops + f, c.off[n], f);
    LinearSome(code[n]);
    CoveredStays(c, d, n);
    assert forall l :: Ahead(code, n + 1, l) ==> Ahead(code, n, l);
  }

  lemma LinearSome(i: Instr)
    ensures LinearOne(i) != []
  {
  }

  /** The current block ended, and a fresh block current. */
  function Closed(c: Cut, current: nat, t: Terminator, labels: map<Label, nat>, more: seq<BasicBlock>): Cut
    requires current < |c.blocks|
  {
    var blocks := c.blocks[current := c.blocks[current].(term := t)] + more + [EMPTY_BLOCK];
    Cut(blocks, labels, c.cur + [|blocks| - 1], c.off + [0])
  }

  lemma {:induction false} LabelsAppendEmpty(blocks: seq<BasicBlock>, more: seq<BasicBlock>)
    requires forall i :: 0 <= i < |more| ==> more[i] == EMPTY_BLOCK
    ensures BlockLabels(blocks + more) == BlockLabels(blocks)
    decreases |more|
  {
    if more == [] {
      assert blocks + more == blocks;
    } else {
      assert blocks + more == (blocks + [more[0]]) + more[1..];
      LabelsAppend(blocks, more[0]);
      LabelsAppendEmpty(blocks + [more[0]], more[1..]);
    }
  }

  /** A jump's label gets a block if it has none. */
  predicate Found(c: Cut, l: Label, labels: map<Label, nat>, more: seq<BasicBlock>) {
    if l in c.labels then labels == c.labels && more == []
    else labels == c.labels[l := |c.blocks|] && more == [EMPTY_BLOCK]
  }

  /** No labels are lost when a block is closed, and none are added. */
  lemma CloseLabels(code: seq<Instr>, n: nat, c: Cut, current: nat, t: Terminator, labels: map<Label, nat>,
                    more: seq<BasicBlock>)
    requires n < |code| && current < |c.blocks| && (more == [] || more == [EMPTY_BLOCK])
    requires code[n].Jump? || code[n].JumpIfFalse? || code[n].ReturnInstr? || code[n].ThrowInstr?
    ensures BlockLabels(Closed(c, current, t, labels, more).blocks) == BlockLabels(c.blocks)
            + LabelCount(LinearOne(code[n]))
  {
    hide LinearOne, LabelCount, BlockLabels;
    var b := c.blocks[current];
    var closed := c.blocks[current := b.(term := t)];
    LabelsSame(c.blocks, current, b.(term := t));
    LabelsAppendEmpty(closed, more + [EMPTY_BLOCK]);
    assert Closed(c, current, t, labels, more).blocks == closed + (more + [EMPTY_BLOCK]);
    NoLabels(code[n]);
  }

  lemma CloseWaiting(code: seq<Instr>, n: nat, c: Cut, current: nat, t: Terminator, labels: map<Label, nat>,
                     more: seq<BasicBlock>)
    requires n < |code| && current < |c.blocks| && Waiting(code, n, c, current)
    requires (labels == c.labels && more == []) || exists l :: Found(c, l, labels, more)
    ensures var d := Closed(c, current, t, labels, more); Waiting(code, n + 1, d, |d.blocks| - 1)
  {
    assert forall l :: Ahead(code, n + 1, l) ==> Ahead(code, n, l);
  }

  lemma LabelsInside(code: seq<Instr>, n: nat, c: Cut, current: nat)
    requires Waiting(code, n, c, current)
    ensures forall l :: l in c.labels ==> c.labels[l] < |c.blocks|
  {
  }

  lemma CloseTurn(code: seq<Instr>, n: nat, c: Cut, current: nat, t: Terminator, labels: map<Label, nat>,
                  more: seq<BasicBlock>)
    requires n < |code| && Building(code, n, c, current)
    requires match code[n]
             case Jump(l) => Found(c, l, labels, more) && t == GoTo(labels[l])
             case JumpIfFalse(v, l) => Found(c, l, labels, more) && t == Branch(v, |c.blocks| + |more|, labels[l])
             case ReturnInstr(v) => labels == c.labels && more == [] && t == ReturnEnd(v)
             case ThrowInstr(v) => labels == c.labels && more == [] && t == ThrowEnd(v)
             case _ => false
    ensures Turn(code, n, c, Closed(c, current, t, labels, more))
  {
    hide LinearOne, LabelCount, BlockLabels, Covered, Linear, Pieces, Waiting;
    var d := Closed(c, current, t, labels, more);
    CloseLabels(code, n, c, current, t, labels, more);
    LabelsInside(code, n, c, current);
    CloseWaiting(code, n, c, current, t, labels, more);
    CoveredStays(c, d, n);
  }

  lemma NoLabels(i: Instr)
    requires i.Jump? || i.JumpIfFalse? || i.ReturnInstr? || i.ThrowInstr?
    ensures LabelCount(LinearOne(i)) == multiset{}
  {
    assert LinearOne(i)[1..] == [];
  }

  /** The current block ended with a jump to the label's, which is current from here. */
  function Entered(c: Cut, current: nat, l: Label): Cut
    requires current < |c.blocks| && Known(c, l)
  {
    var target := c.labels[l];
    var closed := c.blocks[current := c.blocks[current].(term := GoTo(target))];
    Cut(closed[target := closed[target].(ops := closed[target].ops + [OpLabel(l)])], c.labels, c.cur + [target],
        c.off + [1])
  }

  lemma EnterTurn(code: seq<Instr>, n: nat, c: Cut, current: nat, l: Label)
    requires n < |code| && Building(code, n, c, current) && Distinct(code) && code[n] == LabelAt(l)
    ensures Known(c, l) && c.labels[l] != current && c.blocks[current].term.Unreachable?
    ensures Turn(code, n, c, Entered(c, current, l))
  {
    hide LabelCount, BlockLabels, Covered, Pieces;
    assert Ahead(code, n, l);
    var target := c.labels[l];
    var d := Entered(c, current, l);
    var closed := c.blocks[current := c.blocks[current].(term := GoTo(target))];
    LabelsSame(c.blocks, current, c.blocks[current].(term := GoTo(target)));
    LabelsAdd(closed, target, closed[target].(ops := closed[target].ops + [OpLabel(l)]), [OpLabel(l)]);
    assert closed[target].ops + [OpLabel(l)] == [OpLabel(l)];
    CoveredStays(c, d, n);
    EnterWaiting(code, n, c, current, l);
  }

  lemma EnterWaiting(code: seq<Instr>, n: nat, c: Cut, current: nat, l: Label)
    requires n < |code| && Waiting(code, n, c, current) && Distinct(code) && code[n] == LabelAt(l)
             && current < |c.blocks| && Known(c, l)
    ensures Waiting(code, n + 1, Entered(c, current, l), c.labels[l])
  {
    forall m | Ahead(code, n + 1, m) ensures Ahead(code, n, m) && m != l {
      var k :| n + 1 <= k < |code| && code[k] == LabelAt(m);
      assert code[n] != code[k];
    }
  }

  // ---- sealing ------------------------------------------------------------------------

  /** A block that was still open and holds something leads to the exit. */
  function Sealed(b: BasicBlock, exit: nat): BasicBlock {
    if b.term.Unreachable? && b.ops != [] then b.(term := GoTo(exit)) else b
  }

  predicate AllSealed(bs: seq<BasicBlock>, cs: seq<BasicBlock>) {
    |cs| == |bs| + 1 && cs[|bs|] == EMPTY_BLOCK && forall b :: 0 <= b < |bs| ==> cs[b] == Sealed(bs[b], |bs|)
  }

  lemma PieceSealed(code: seq<Instr>, c: Cut, d: Cut, k: nat)
    requires k < |code| && Piece(code, c, k) && AllSealed(c.blocks, d.blocks) && d == c.(blocks := d.blocks)
    ensures Piece(code, d, k)
  {
    hide LinearOne;
  }

  lemma {:induction false} SealedLabels(bs: seq<BasicBlock>, cs: seq<BasicBlock>)
    requires |cs| == |bs| && forall b :: 0 <= b < |bs| ==> cs[b].ops == bs[b].ops
    ensures BlockLabels(cs) == BlockLabels(bs)
  {
    if bs != [] { SealedLabels(bs[1..], cs[1..]); }
  }

  lemma SealSplits(code: seq<Instr>, c: Cut, current: nat, d: Cut)
    requires Building(code, |code|, c, current) && AllSealed(c.blocks, d.blocks) && d == c.(blocks := d.blocks)
    ensures Splits(code, d)
  {
    hide LinearOne, LabelCount, BlockLabels, Piece, Waiting;
    forall k | 0 <= k < |code| ensures Piece(code, d, k) { PieceSealed(code, c, d, k); }
    assert code[..|code|] == code;
    var exit := |c.blocks|;
    assert d.blocks == d.blocks[..exit] + [EMPTY_BLOCK];
    SealedLabels(c.blocks, d.blocks[..exit]);
    forall b | 0 <= b < |d.blocks| && d.blocks[b].ops != [] ensures Fills(d, |code|, b) { assert Fills(c, |code|, b); }
    LabelsAppendEmpty(d.blocks[..exit], [EMPTY_BLOCK]);
  }

  // ---- the pass -----------------------------------------------------------------------

  predicate Behind(code: seq<Instr>, n: nat, l: Label)
    requires n <= |code|
  {
    exists k :: 0 <= k < n && code[k] == LabelAt(l)
  }

  lemma BehindNext(code: seq<Instr>, n: nat)
    requires n < |code|
    ensures forall l :: Behind(code, n + 1, l) <==> Behind(code, n, l) || code[n] == LabelAt(l)
  {
    forall l ensures Behind(code, n + 1, l) <==> Behind(code, n, l) || code[n] == LabelAt(l) {
      if Behind(code, n, l) {
        var k :| 0 <= k < n && code[k] == LabelAt(l);
      }
    }
  }

  /** Gives every label of the top level a block of its own, after the entry's. */
  method NumberLabels(code: seq<Instr>) returns (labels: map<Label, nat>)
    ensures forall l :: l in labels <==> Ahead(code, 0, l)
    ensures forall l :: l in labels ==> 1 <= labels[l] <= |labels|
    ensures forall l, m :: l in labels && m in labels && l != m ==> labels[l] != labels[m]
  {
    labels := map[];
    for n := 0 to |code|
      invariant forall l :: l in labels <==> Behind(code, n, l)
      invariant forall l :: l in labels ==> 1 <= labels[l] <= |labels|
      invariant forall l, m :: l in labels && m in labels && l != m ==> labels[l] != labels[m]
    {
      hide Behind;
      BehindNext(code, n);
      if code[n].LabelAt? && code[n].l !in labels {
        labels := labels[code[n].l := |labels| + 1];
      }
    }
    assert forall l :: Behind(code, |code|, l) <==> Ahead(code, 0, l);
  }

  /** The block a jump's label stands for, a fresh one if the label is not known. */
  method LabelBlock(labels: map<Label, nat>, blocks: seq<BasicBlock>, l: Label)
    returns (labels': map<Label, nat>, blocks': seq<BasicBlock>, id: nat, ghost more: seq<BasicBlock>)
    ensures l in labels' && id == labels'[l] && blocks' == blocks + more
    ensures if l in labels then labels' == labels && more == [] else labels' == labels[l := |blocks|]
                                                                     && more == [EMPTY_BLOCK]
  {
    if l in labels {
      assert blocks + [] == blocks;
      return labels, blocks, labels[l], [];
    }
    return labels[l := |blocks|], blocks + [EMPTY_BLOCK], |blocks|, [EMPTY_BLOCK];
  }

  method FreshBlock(blocks: seq<BasicBlock>) returns (blocks': seq<BasicBlock>, id: nat)
    ensures blocks' == blocks + [EMPTY_BLOCK] && id == |blocks|
  {
    return blocks + [EMPTY_BLOCK], |blocks|;
  }

  /** A jump ends a block; another, fresh one follows. */
  method CutJump(code: seq<Instr>, n: nat, labels: map<Label, nat>, blocks: seq<BasicBlock>, current: nat,
                 ghost cut: Cut)
    returns (labels': map<Label, nat>, blocks': seq<BasicBlock>, current': nat, ghost cut': Cut)
    requires n < |code| && Building(code, n, cut, current) && cut.blocks == blocks && cut.labels == labels
    requires code[n].Jump?
    ensures Turn(code, n, cut, cut') && cut'.blocks == blocks' && cut'.labels == labels'
    ensures |cut'.cur| == n + 2 && current' == cut'.cur[n + 1]
  {
    CurrentInside(code, n, cut, current);
    hide Building, Turn;
    var id;
    ghost var more;
    labels', blocks', id, more := LabelBlock(labels, blocks, code[n].l);
    assert Found(cut, code[n].l, labels', more);
    cut' := ClosedCut(code, n, cut, current, GoTo(id), labels', more);
    blocks' := blocks'[current := blocks'[current].(term := GoTo(id))];
    blocks', current' := FreshBlock(blocks');
  }

  /** So does a conditional jump, and the fresh block is where it goes on. */
  method CutBranch(code: seq<Instr>, n: nat, labels: map<Label, nat>, blocks: seq<BasicBlock>, current: nat,
                   ghost cut: Cut)
    returns (labels': map<Label, nat>, blocks': seq<BasicBlock>, current': nat, ghost cut': Cut)
    requires n < |code| && Building(code, n, cut, current) && cut.blocks == blocks && cut.labels == labels
    requires code[n].JumpIfFalse?
    ensures Turn(code, n, cut, cut') && cut'.blocks == blocks' && cut'.labels == labels'
    ensures |cut'.cur| == n + 2 && current' == cut'.cur[n + 1]
  {
    CurrentInside(code, n, cut, current);
    hide Building, Turn;
    var falsy, truthy;
    ghost var more;
    labels', blocks', falsy, more := LabelBlock(labels, blocks, code[n].l);
    assert Found(cut, code[n].l, labels', more);
    cut' := ClosedCut(code, n, cut, current, Branch(code[n].test, |blocks'|, falsy), labels', more);
    blocks', truthy := FreshBlock(blocks');
    blocks' := blocks'[current := blocks'[current].(term := Branch(code[n].test, truthy, falsy))];
    current' := truthy;
  }

  /** And so do the instructions that leave the function. */
  method CutExit(code: seq<Instr>, n: nat, labels: map<Label, nat>, blocks: seq<BasicBlock>, current: nat,
                 ghost cut: Cut)
    returns (blocks': seq<BasicBlock>, current': nat, ghost cut': Cut)
    requires n < |code| && Building(code, n, cut, current) && cut.blocks == blocks && cut.labels == labels
    requires code[n].ReturnInstr? || code[n].ThrowInstr?
    ensures Turn(code, n, cut, cut') && cut'.blocks == blocks' && cut'.labels == labels
    ensures |cut'.cur| == n + 2 && current' == cut'.cur[n + 1]
  {
    CurrentInside(code, n, cut, current);
    hide Building, Turn;
    var end := if code[n].ReturnInstr? then ReturnEnd(code[n].result) else ThrowEnd(code[n].value);
    cut' := ClosedCut(code, n, cut, current, end, labels, []);
    blocks' := blocks[current := blocks[current].(term := end)];
    assert cut.blocks + [] == blocks;
    blocks', current' := FreshBlock(blocks');
  }

  lemma CurrentInside(code: seq<Instr>, n: nat, c: Cut, current: nat)
    requires Building(code, n, c, current)
    ensures current < |c.blocks| && |c.off| > 0
  {
    hide Piece, InRange, Waiting, Covered, BlockLabels, LabelCount;
  }

  /** A label ends the block before it, if that is still open, and begins its own. */
  method CutLabel(code: seq<Instr>, n: nat, labels: map<Label, nat>, blocks: seq<BasicBlock>, current: nat,
                  ghost cut: Cut)
    returns (blocks': seq<BasicBlock>, current': nat, ghost cut': Cut)
    requires Distinct(code) && n < |code| && Building(code, n, cut, current) && cut.blocks == blocks
             && cut.labels == labels
    requires code[n].LabelAt?
    ensures Turn(code, n, cut, cut') && cut'.blocks == blocks' && cut'.labels == labels
    ensures |cut'.cur| == n + 2 && current' == cut'.cur[n + 1]
  {
    var l := code[n].l;
    blocks' := blocks;
    CurrentInside(code, n, cut, current);
    EnterTurn(code, n, cut, current, l);
    hide Turn, Distinct;
    cut' := Entered(cut, current, l);
    var target := labels[l];
    if current != target && blocks'[current].term.Unreachable? {
      blocks' := blocks'[current := blocks'[current].(term := GoTo(target))];
    }
    current' := target;
    blocks' := blocks'[current' := blocks'[current'].(ops := blocks'[current'].ops + [OpLabel(l)])];
  }

  /** One instruction of the pass: control flow ends or begins a block, the rest is
      copied into the current one. */
  method CutInstruction(code: seq<Instr>, n: nat, labels: map<Label, nat>, blocks: seq<BasicBlock>, current: nat,
                        ghost cut: Cut)
    returns (labels': map<Label, nat>, blocks': seq<BasicBlock>, current': nat, ghost cut': Cut)
    requires Distinct(code) && n < |code| && Building(code, n, cut, current) && cut.blocks == blocks
             && cut.labels == labels
    ensures Building(code, n + 1, cut', current') && cut'.blocks == blocks' && cut'.labels == labels'
  {
    hide Building, Turn, Distinct, LinearOne;
    labels', blocks', current' := labels, blocks, current;
    var i := code[n];
    if i.LabelAt? {
      blocks', current', cut' := CutLabel(code, n, labels, blocks, current, cut);
    } else if i.Jump? {
      labels', blocks', current', cut' := CutJump(code, n, labels, blocks, current, cut);
    } else if i.JumpIfFalse? {
      labels', blocks', current', cut' := CutBranch(code, n, labels, blocks, current, cut);
    } else if i.ReturnInstr? || i.ThrowInstr? {
      blocks', current', cut' := CutExit(code, n, labels, blocks, current, cut);
    } else {
      CurrentInside(code, n, cut, current);
      CopyTurn(code, n, cut, current);
      cut' := Copied(cut, current, LinearOne(i));
      blocks' := blocks'[current := blocks'[current].(ops := blocks'[current].ops + LinearOne(i))];
      CopiedTo(code, n, cut, current);
    }
    Advance(code, n, cut, current, cut');
  }

  lemma CopiedTo(code: seq<Instr>, n: nat, c: Cut, current: nat)
    requires n < |code| && Building(code, n, c, current)
    ensures current < |c.blocks| && |c.cur| == n + 1 && Copied(c, current, LinearOne(code[n])).cur[n + 1] == current
  {
    hide Piece, InRange, Waiting, Covered, BlockLabels, LabelCount, LinearOne;
  }

  ghost method ClosedCut(code: seq<Instr>, n: nat, c: Cut, current: nat, t: Terminator, labels: map<Label, nat>,
                         more: seq<BasicBlock>) returns (d: Cut)
    requires n < |code| && Building(code, n, c, current)
    requires match code[n]
             case Jump(l) => Found(c, l, labels, more) && t == GoTo(labels[l])
             case JumpIfFalse(v, l) => Found(c, l, labels, more) && t == Branch(v, |c.blocks| + |more|, labels[l])
             case ReturnInstr(v) => labels == c.labels && more == [] && t == ReturnEnd(v)
             case ThrowInstr(v) => labels == c.labels && more == [] && t == ThrowEnd(v)
             case _ => false
    ensures Turn(code, n, c, d) && d.labels == labels && |d.cur| == n + 2 && d.cur[n + 1] == |c.blocks| + |more|
    ensures d.blocks == (c.blocks + more)[current := c.blocks[current].(term := t)] + [EMPTY_BLOCK]
  {
    hide Turn, Piece, InRange, Waiting;
    CloseTurn(code, n, c, current, t, labels, more);
    d := Closed(c, current, t, labels, more);
    assert (c.blocks + more)[current := c.blocks[current].(term := t)]
           == c.blocks[current := c.blocks[current].(term := t)] + more;
  }

  /** The blocks are a finished cut of the code. */
  ghost predicate CutInto(code: seq<Instr>, blocks: seq<BasicBlock>) {
    exists cut: Cut :: cut.blocks == blocks && Splits(code, cut)
  }

  method LowerBlocks(code: seq<Instr>) returns (blocks: seq<BasicBlock>)
    requires Distinct(code)
    ensures CutInto(code, blocks)
  {
    hide Building, Splits, Distinct;
    var labels := NumberLabels(code);
    blocks := seq(|labels| + 1, _ => EMPTY_BLOCK);
    var current: nat := 0;
    ghost var cut := Cut(blocks, labels, [0], [0]);
    NothingBuilt(code, cut);
    for n := 0 to |code|
      invariant Building(code, n, cut, current) && cut.blocks == blocks && cut.labels == labels
    {
      labels, blocks, current, cut := CutInstruction(code, n, labels, blocks, current, cut);
    }
    blocks, cut := SealBlocks(code, blocks, current, cut);
  }

  /** Blocks left open lead to one exit block. */
  method SealBlocks(code: seq<Instr>, open: seq<BasicBlock>, current: nat, ghost cut: Cut)
    returns (blocks: seq<BasicBlock>, ghost cut': Cut)
    requires Building(code, |code|, cut, current) && cut.blocks == open
    ensures cut'.blocks == blocks && Splits(code, cut')
  {
    hide Building, Splits;
    var exit := |open|;
    blocks := open + [EMPTY_BLOCK];
    for index := 0 to exit
      invariant |blocks| == exit + 1 && blocks[exit] == EMPTY_BLOCK
      invariant forall b :: 0 <= b < exit ==> blocks[b] == if b < index then Sealed(open[b], exit) else open[b]
    {
      if blocks[index].term.Unreachable? && blocks[index].ops != [] {
        blocks := blocks[index := blocks[index].(term := GoTo(exit))];
      }
    }
    cut' := cut.(blocks := blocks);
    SealSplits(code, cut, current, cut');
  }

  lemma NothingBuilt(code: seq<Instr>, c: Cut)
    requires c.cur == [0] && c.off == [0] && |c.blocks| == |c.labels| + 1
             && forall b :: 0 <= b < |c.blocks| ==> c.blocks[b] == EMPTY_BLOCK
    requires forall l :: l in c.labels <==> Ahead(code, 0, l)
    requires forall l :: l in c.labels ==> 1 <= c.labels[l] <= |c.labels|
    requires forall l, m :: l in c.labels && m in c.labels && l != m ==> c.labels[l] != c.labels[m]
    ensures Building(code, 0, c, 0)
  {
    hide LabelCount, BlockLabels, Ahead, Waiting;
    NothingWaiting(code, c);
    NoNames(code, c.labels);
    NoLabelsYet();
    assert [] + c.blocks == c.blocks;
    LabelsAppendEmpty([], c.blocks);
    assert code[..0] == [];
  }

  lemma NothingWaiting(code: seq<Instr>, c: Cut)
    requires |c.blocks| == |c.labels| + 1 && forall b :: 0 <= b < |c.blocks| ==> c.blocks[b] == EMPTY_BLOCK
    requires forall l :: l in c.labels <==> Ahead(code, 0, l)
    requires forall l :: l in c.labels ==> 1 <= c.labels[l] <= |c.labels|
    requires forall l, m :: l in c.labels && m in c.labels && l != m ==> c.labels[l] != c.labels[m]
    ensures Waiting(code, 0, c, 0)
  {
    hide Ahead;
  }

  lemma NoLabelsYet()
    ensures BlockLabels([]) == multiset{} && LabelCount(Linear([])) == multiset{}
  {
  }

  lemma NoNames(code: seq<Instr>, labels: map<Label, nat>)
    requires forall l :: l in labels <==> Ahead(code, 0, l)
    ensures code == [] ==> |labels| == 0
  {
    if code == [] {
      assert labels.Keys == {};
    }
  }
}
