/** Both passes in a row: from the statements of a function body to its basic blocks. */
module Compile {
  import opened Syntax
  import opened Semantics
  import opened Ir
  import opened Lower
  import opened Machine
  import opened Blocks
  import opened BlocksMeaning
  import opened LabelUniqueness
  import opened StmtSimulation
  import opened FunctionMeaning
  import opened BytecodeMeaning
  import opened Readings
  import LoweringContext

  /** The bytecode of the blocks means what the body means: as the compiler reads it,
      always; as the standard reads it, dead zone and `const` errors apart, if the readings
      agree on the body. */
  method CompileBody(q: seq<nat>, body: seq<Stmt>, ghost m: CodeSetting) returns (blocks: seq<BasicBlock>)
    requires Legal(body) && m.base > 0
    ensures SameMeaning(Program(Emit(blocks), m), m, body) && SameDivergence(Program(Emit(blocks), m), m, body)
    ensures Bumps(m.host) && AlikeList(body) ==>
              StandardMeaning(Program(Emit(blocks), m), m, body)
                  && StandardDivergence(Program(Emit(blocks), m), m, body)
  {
    hide Legal, LowerList, Linear, Splits, SameMeaning, SameDivergence, StandardMeaning, StandardDivergence, Bumps,
         AlikeList, Distinct;
    var context := new LoweringContext.Context(q);
    context.LowerStatements(body);
    var code := context.instructions;
    assert code == LowerList(q, [], body, Ids(0, 0, 0)).code;
    LegalSingle(body);
    DistinctCode(q, body);
    blocks := LowerBlocks(code);
    ghost var cut: Cut :| cut.blocks == blocks && Splits(code, cut);
    BodySame(Pair(code, cut, m), q, body);
    if Bumps(m.host) && AlikeList(body) { ReadingsAgree(Program(Emit(blocks), m), m, body); }
  }

  lemma LegalSingle(body: seq<Stmt>)
    requires Legal(body)
    ensures ListSingle(body)
  {
    ListSingleOf(body, Jumps({}, {}));
  }

  lemma BodySame(s: Pair, q: seq<nat>, body: seq<Stmt>)
    requires Legal(body) && s.m.base > 0 && s.code == LowerList(q, [], body, Ids(0, 0, 0)).code && Splits(s.code, s.cut)
    ensures SameMeaning(s.Written(), s.m, body) && SameDivergence(s.Written(), s.m, body)
  {
    hide Legal, LowerList, Linear, Splits, Halts, Ends, RunsForever, Diverges, Emit;
    forall regs: map<nat, Value>, env: seq<nat>, w: World, out, w' | |env| == s.m.base
      ensures Halts(s.Written(), Run(0, regs, env, w), out, w')
              <==> exists fuel :: Ends(s.m, body, env, w, fuel, out, w')
    {
      BytecodePreservesMeaning(s, q, body, regs, env, w, out, w');
    }
    forall regs: map<nat, Value>, env: seq<nat>, w: World | |env| == s.m.base
      ensures RunsForever(s.Written(), Run(0, regs, env, w)) <==> Diverges(s.m, body, env, w)
    {
      BytecodePreservesDivergence(s, q, body, regs, env, w);
    }
  }

  /** A labelled loop with both jumps. */
  function Loop(t: Expr): Stmt {
    Labeled("a", While(t, Block([If(t, Continue(Some("a")), Some(Break(None)))])))
  }

  /** A choice with a default. */
  function Choice(t: Expr): Stmt { Switch(t, [Case(Some(t), []), Case(None, [Break(None)])]) }

  lemma LoopLegal(t: Expr)
    ensures WellFormed(Loop(t), [], Jumps({}, {}))
  {
    var inner := If(t, Continue(Some("a")), Some(Break(None)));
    var j := InLoop(Jumps({}, {}), [] + ["a"]);
    assert ([] + ["a"])[0] == "a" && Some("a") in Named([] + ["a"]);
    assert WellFormed(Continue(Some("a")), [], j) && WellFormed(Break(None), [], j);
    assert WellFormed(inner, [], j);
    assert [inner][1..] == [] && ListWellFormed([], j);
    assert ListWellFormed([inner], j);
    assert WellFormed(Block([inner]), [], j);
    assert WellFormed(While(t, Block([inner])), [] + ["a"], Jumps({}, {}));
  }

  lemma LoopAlike(t: Expr)
    requires Alike(t)
    ensures AlikeStmt(Loop(t))
  {
    hide Alike;
    var inner := If(t, Continue(Some("a")), Some(Break(None)));
    assert AlikeStmt(Continue(Some("a"))) && AlikeStmt(Break(None));
    assert AlikeStmt(inner);
    assert [inner][1..] == [] && AlikeList([]);
    assert AlikeList([inner]);
    assert AlikeStmt(Block([inner]));
    assert AlikeStmt(While(t, Block([inner])));
  }

  lemma ChoiceLegal(t: Expr)
    ensures WellFormed(Choice(t), [], Jumps({}, {}))
  {
    var cases := Choice(t).cases;
    var k := InSwitch(Jumps({}, {}), []);
    assert [Break(None)][1..] == [] && ListWellFormed([], k) && WellFormed(Break(None), [], k);
    assert ListWellFormed([Break(None)], k);
    assert cases[1..] == [cases[1]] && cases[1..][1..] == [];
    assert CasesWellFormed([], k) && CasesWellFormed(cases[1..], k) && CasesWellFormed(cases, k);
  }

  lemma ChoiceAlike(t: Expr)
    requires Alike(t)
    ensures AlikeStmt(Choice(t))
  {
    hide Alike;
    var cases := Choice(t).cases;
    assert [Break(None)][1..] == [] && AlikeList([]) && AlikeStmt(Break(None));
    assert AlikeList([Break(None)]);
    assert cases[1..] == [cases[1]] && cases[1..][1..] == [];
    assert AlikeCases([]) && AlikeCases(cases[1..]) && AlikeCases(cases);
    assert !Lexical(cases);
  }

  /** Labelled loops with both jumps, a `switch` with a default and lexical declarations are in
      the class that the theorems on both readings speak of. */
  lemma InTheClass(t: Expr, x: string)
    requires Alike(t)
    ensures var body := [Decl(LetKind, [Declarator(x, Some(t))]), Loop(t), Choice(t), Return(Some(t))];
            Legal(body) && AlikeList(body)
  {
    hide Alike, Loop, Choice;
    var decl, ret := Decl(LetKind, [Declarator(x, Some(t))]), Return(Some(t));
    var body := [decl, Loop(t), Choice(t), ret];
    LoopLegal(t);
    LoopAlike(t);
    ChoiceLegal(t);
    ChoiceAlike(t);
    assert decl.decls[1..] == [] && AlikeDecls(LetKind, []) && AlikeStmt(decl) && AlikeStmt(ret);
    var two, three := [Choice(t), ret], [Loop(t), Choice(t), ret];
    assert body[1..] == three && three[1..] == two && two[1..] == [ret] && [ret][1..] == [];
    assert AlikeList([]) && AlikeList([ret]) && AlikeList(two) && AlikeList(three);
    var none := Jumps({}, {});
    assert ListWellFormed([], none) && ListWellFormed([ret], none) && ListWellFormed(two, none)
           && ListWellFormed(three, none);
    assert WellFormed(decl, [], none) && body[0] == decl && ListWellFormed(body, none);
  }
}
