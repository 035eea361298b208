/** From a template's text to what is rendered: scanner, parser, emission, patching and the
    renderer put together. */
module EndToEnd {
  import opened Options
  import opened Json
  import opened Bytecodes
  import opened Tokens
  import opened Machine
  import opened Syntax
  import opened Compiler
  import opened Correctness
  import opened Assembler
  import opened Assembly
  import opened Lexing
  import opened Scanning
  import opened Openings
  import opened Grammar
  import opened Linear
  import opened RoundTrip
  import opened RoundTripBlocks

  /** What a parser is set up with. */
  datatype Setup = Setup(
    cfg: Config,
    builtins: map<(string, nat), Function>,
    parseJson: string -> Option<Value>,
    notation: Notation)

  function SourceOf(setup: Setup, text: string): Source
    requires Usable(setup.cfg)
  {
    Source(text, Tokenize(setup.cfg, text), setup.builtins, setup.parseJson)
  }

  function ParseText(setup: Setup, text: string): Outcome
    requires Usable(setup.cfg)
  {
    Parse(SourceOf(setup, text), setup.notation)
  }

  /** The text is the tree, written out: its tokens are the tree's. */
  ghost predicate Writes(setup: Setup, text: string, b: seq<Stmt>)
    requires Usable(setup.cfg)
  {
    var g := SourceOf(setup, text);
    && PrintableBlock(g, b)
    && |g.toks| == |WrittenBlock(b, 0)| + 1 && Reads(g, 0, WrittenBlock(b, 0))
  }

  lemma {:induction false} TokensAreFaithful(setup: Setup, text: string)
    requires Usable(setup.cfg)
    ensures Faithful(SourceOf(setup, text)) && Ended(SourceOf(setup, text))
  {
    var g := SourceOf(setup, text);
    forall i | 0 <= i < |g.toks| ensures JsonText(g.inp, g.toks[i], g.toks[i]) == g.toks[i].text {
      LexOrdered(setup.cfg, text, LexState(0, InText), i);
    }
  }

  /** The whole front end on a written tree: the text parses to the tree's laid-out code. */
  lemma {:induction false} WrittenTextParses(setup: Setup, text: string, b: seq<Stmt>)
    requires Usable(setup.cfg) && Writes(setup, text, b)
    requires SafeBlock(setup.notation, b, 0) && |TemplateCode(setup.notation, b)| < ARGS_LIMIT
    ensures ParseText(setup, text) == Accepted(TemplateCode(setup.notation, b))
  {
    var g := SourceOf(setup, text);
    TokensAreFaithful(setup, text);
    TemplateRoundTrip(g, b);
    AssembledTemplate(setup.notation, b);
    Accepts(g, setup.notation, |g.toks| - 1, ActsBlock(b, 0), TemplateCode(setup.notation, b));
  }

  lemma {:induction false} Accepts(g: Source, notation: Notation, next: nat, acts: seq<Action>, code: seq<Bytecode>)
    requires Ended(g) && ParseTemplate(g, 0) == Took(next, acts)
    requires Assemble(notation, EMPTY, acts) == Fine(Asm(code, [], []))
    ensures Parse(g, notation) == Accepted(code)
  {
  }

  /** A template's text, parsed and rendered: the interpreter's output for the tree it writes, or
      an exception exactly when the interpreter fails. */
  lemma {:induction false} WrittenTextRenders(setup: Setup, text: string, b: seq<Stmt>, env: Env, root: Value)
    requires Usable(setup.cfg) && Writes(setup, text, b)
    requires SafeBlock(setup.notation, b, 0) && Fits(0, b, 0) && |TemplateCode(setup.notation, b)| < ARGS_LIMIT
    ensures var r := ParseText(setup, text);
            r.Accepted? && EndsWith(r.code, env, root,
                                    Finished(Exec(Context(env, root, setup.notation), root, b, 0), |r.code|))
  {
    WrittenTextParses(setup, text, b);
    CompiledTemplateRuns(Context(env, root, setup.notation), b);
  }

  // ----- text without openings -----

  function PlainTree(text: string): seq<Stmt> {
    if text == "" then [] else [Text(text)]
  }

  lemma {:induction false} PlainTreeIsWritten(setup: Setup, text: string)
    requires Usable(setup.cfg) && forall i | 0 <= i < |text| :: OpenerAt(setup.cfg, text, i).None?
    ensures Writes(setup, text, PlainTree(text))
  {
    if text != "" {
      PlainSource(setup.cfg, text);
      assert WrittenBlock([Text(text)], 1) == [];
      assert WrittenBlock([Text(text)], 0) == [Exactly(TextKind, text)];
    }
  }

  lemma {:induction false} PlainTreeMeans(cx: Context, text: string)
    ensures SafeBlock(cx.notation, PlainTree(text), 0) && Fits(0, PlainTree(text), 0)
    ensures |TemplateCode(cx.notation, PlainTree(text))| <= 1
    ensures Exec(cx, cx.root, PlainTree(text), 0) == Some(text)
  {
    if text != "" {
      var b := [Text(text)];
      assert Exec(cx, cx.root, b, 1) == Some("");
      assert Layout(Expressions(cx.notation), b, 1, 1) == [];
      assert SafeBlock(cx.notation, b, 1) && Fits(0, b, 1);
      assert text + "" == text;
    }
  }

  /** A template in which nothing opens renders to itself, whatever the data. */
  lemma {:induction false} PlainTextIsItself(setup: Setup, text: string, env: Env, root: Value)
    requires Usable(setup.cfg) && forall i | 0 <= i < |text| :: OpenerAt(setup.cfg, text, i).None?
    ensures var r := ParseText(setup, text);
            r.Accepted? && EndsWith(r.code, env, root, At(State(|r.code|, [], [], text)))
  {
    PlainTreeIsWritten(setup, text);
    PlainTreeMeans(Context(env, root, setup.notation), text);
    WrittenTextRenders(setup, text, PlainTree(text), env, root);
  }
}
