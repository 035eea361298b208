/** A jump displaced in an accepted template, from its tokens to a rendering that throws where the
    template means nothing at all:

      {% if x %}{{ default(1, context()) }}{% endif %} */
module LostConditions {
  import opened Options
  import opened Json
  import opened Bytecodes
  import opened Tokens
  import opened Machine
  import opened Syntax
  import opened Assembler
  import opened Linear
  import opened RoundTripBlocks
  import opened Patching
  import opened Targets
  import Grammar

  function One(): Expr {
    Lit(Shown(Number, "1"), Int(1))
  }

  function OneOrContext(): Expr {
    Expr.Apply(DefaultFn, [One(), Call("context", [])])
  }

  function Lost(): seq<Stmt> {
    [If(BlockTag, Branches(Lookup("x"), [Print(OneOrContext())], EndIf(BlockTag)))]
  }

  // ----- what the parser makes of it -----

  function Front(): seq<Action> {
    [PushVar("x"), OpenIf, PushLit(Int(1)), EmitCall("context", 0)]
  }

  function Back(): seq<Action> {
    [SwapLast, EmitFn(DefaultFn, 2), EmitPrint, CloseIf]
  }

  lemma {:induction false} ActsOfOneOrContext()
    ensures Acts(OneOrContext()) == [PushLit(Int(1)), EmitCall("context", 0), SwapLast, EmitFn(DefaultFn, 2)]
  {
    var args := [One(), Call("context", [])];
    assert ActsArgs(args, 0) == [] && ActsArgs([], 0) == [];
    assert ActsArgs(args, 1) == [PushLit(Int(1))];
    assert ActsArgs(args, 2) == [PushLit(Int(1)), EmitCall("context", 0)];
  }

  lemma {:induction false} ActsOfLost()
    ensures ActsBlock(Lost(), 0) == Front() + Back()
  {
    var body := [Print(OneOrContext())];
    ActsOfOneOrContext();
    assert ActsBlock(body, 1) == [] && ActsBlock(Lost(), 1) == [];
    assert ActsBlock(body, 0) == Acts(OneOrContext()) + [EmitPrint];
  }

  /** The call and the literal in one bytecode: endif will set its `args`, taking it for the jump. */
  function Merged(): Bytecode {
    PushLiteral(Int(1)).(op := Callback, str := "context")
  }

  function Half(notation: Notation): Asm {
    Asm([PushLookup(notation, "x"), Instr(ConditionalJump, 0), Merged()], [IfData(Some(1), [])], [])
  }

  function LostCode(notation: Notation): seq<Bytecode> {
    [PushLookup(notation, "x"),
     Merged().(args := 5),
     Instr(ConditionalJump, 0),
     Instr(Fn(DefaultFn), 2),
     Instr(PrintValue, 1)]
  }

  lemma {:induction false} BuildFront(notation: Notation)
    ensures Assemble(notation, EMPTY, Front()) == Fine(Half(notation))
  {
    var next, x, jump := Emitter(notation), PushLookup(notation, "x"), Instr(ConditionalJump, 0);
    assert DoFirst(next, EMPTY, Front(), 0) == Fine(EMPTY);
    assert DoFirst(next, EMPTY, Front(), 1) == Fine(Asm([x], [], []));
    assert DoFirst(next, EMPTY, Front(), 2) == Fine(Asm([x, jump], [IfData(Some(1), [])], []));
    assert DoFirst(next, EMPTY, Front(), 3) == Fine(Asm([x, jump, PushLiteral(Int(1))], [IfData(Some(1), [])], []));
  }

  lemma {:induction false} BuildBack(notation: Notation)
    ensures Assemble(notation, Half(notation), Back()) == Fine(Asm(LostCode(notation), [], []))
  {
    var next, asm := Emitter(notation), Half(notation);
    var code := [PushLookup(notation, "x"), Merged(), Instr(ConditionalJump, 0)];
    var full := code + [Instr(Fn(DefaultFn), 2), Instr(PrintValue, 1)];
    assert DoFirst(next, asm, Back(), 0) == Fine(asm);
    assert DoFirst(next, asm, Back(), 1) == Fine(asm.(code := code));
    assert DoFirst(next, asm, Back(), 2) == Fine(asm.(code := code + [Instr(Fn(DefaultFn), 2)]));
    assert DoFirst(next, asm, Back(), 3) == Fine(asm.(code := full));
    assert full[1 := full[1].(args := 5)] == LostCode(notation);
  }

  /** default is registered, context is a callback, and the JSON parser reads 1. */
  predicate Ordinary(g: Grammar.Source) {
    && ("default", 2) in g.builtins && g.builtins[("default", 2)] == DefaultFn
    && ("context", 0) !in g.builtins && g.parseJson("1") == Some(Int(1))
  }

  lemma {:induction false} LostIsPrintable(g: Grammar.Source)
    requires Ordinary(g)
    ensures PrintableBlock(g, Lost()) && PrintableBlock(g, [Print(OneOrContext())])
  {
    assert Printable(g, One()) && Printable(g, Call("context", []));
    assert Printable(g, OneOrContext());
    assert PrintableStmt(g, Print(OneOrContext()));
    assert PrintableBlock(g, [Print(OneOrContext())]);
    assert PrintableBranches(g, Branches(Lookup("x"), [Print(OneOrContext())], EndIf(BlockTag)));
  }

  /** The template is accepted, and its condition's jump has no target: endif has set another
      bytecode in its place. */
  lemma {:induction false} AcceptedButNotSet(g: Grammar.Source, notation: Notation)
    requires Ordinary(g) && Holds(g, 0, WrittenBlock(Lost(), 0)) && |g.toks| == |WrittenBlock(Lost(), 0)| + 1
    ensures Grammar.Parse(g, notation) == Grammar.Accepted(LostCode(notation)) && !AllSet(LostCode(notation))
  {
    LostIsPrintable(g);
    TemplateRoundTrip(g, Lost());
    ActsOfLost();
    BuildFront(notation);
    BuildBack(notation);
    DoThen(Emitter(notation), EMPTY, Front(), Half(notation), Back());
    assert Spot(2) && !JumpSet(LostCode(notation), 2, {});
  }

  // ----- what the renderer makes of it -----

  lemma {:induction false} LostMeansNothing(cx: Context, v: Value)
    requires Resolve(cx.env, cx.root, cx.notation, "x") == Some(v) && Truthy(v) == Some(false)
    ensures Exec(cx, cx.root, Lost(), 0) == Some("")
  {
    assert Exec(cx, cx.root, Lost(), 1) == Some("");
    assert Eval(cx, cx.root, Lookup("x")) == Some(v);
    var br := Branches(Lookup("x"), [Print(OneOrContext())], EndIf(BlockTag));
    assert ExecElse(cx, cx.root, br.els) == Some("");
    assert ExecBranches(cx, cx.root, br) == Some("");
    assert ExecStmt(cx, cx.root, Lost()[0]) == Some("");
    assert "" + "" == "";
  }

  /** Whatever x is, rendering throws: it looks for a callback with as many arguments as the jump's
      target says. */
  lemma {:induction false} LostThrows(notation: Notation, env: Env, root: Value)
    requires !env.hasCallback("context", 5)
    ensures EndsWith(LostCode(notation), env, root, Failed)
  {
    var code := LostCode(notation);
    var next := Stepper(code, env, root);
    if v :| Resolve(env, root, notation, "x") == Some(v) {
      var second := State(1, [v], [], "");
      assert START.stack[..0] + [v] == [v];
      assert next(START) == At(second) && next(second) == Failed;
      assert Run(next, |code|, second, 1) == Failed;
      assert Rendering(code, env, root, 2) == Failed;
    } else {
      assert next(START) == Failed;
      assert Rendering(code, env, root, 1) == Failed;
    }
  }
}
