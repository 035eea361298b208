/** The end-to-end theorem for the parser as the filter sets it up: with the built-in functions it
    registers, and what a tree must be for it. */
module FilterTrees {
  import opened Options
  import opened Json
  import opened Bytecodes
  import opened Tokens
  import opened Syntax
  import opened Compiler
  import opened Correctness
  import opened Lexing
  import opened Scanning
  import opened Functions
  import opened Linear
  import opened Grammar
  import opened EndToEnd
  import opened Writing
  import opened Registry
  import Machine

  /** Arguments in the right number, no reserved words for names, no callback under a built-in's name
      and number of arguments, literals that the JSON parser reads as their values. */
  ghost predicate Sound(parseJson: string -> Option<Value>, e: Expr)
    decreases e, parseJson
  {
    match e
    case Lit(t, v) =>
      && (t.kind == Number || t.kind == String
          || (t.kind == Id && (t.text == "true" || t.text == "false" || t.text == "null")))
      && parseJson(t.text) == Some(v)
    case Lookup(name) => name != "not" && name != "true" && name != "false" && name != "null"
    case Apply(f, args) => |args| == Arity(f) && forall k | 0 <= k < |args| :: Sound(parseJson, args[k])
    case Call(name, args) =>
      && name != "not" && !(exists f :: IsCalled(f) && NameOf(f) == name && Arity(f) == |args|)
      && forall k | 0 <= k < |args| :: Sound(parseJson, args[k])
  }

  ghost predicate SoundBlock(parseJson: string -> Option<Value>, b: seq<Stmt>)
    decreases b, parseJson
  {
    forall i | 0 <= i < |b| :: SoundStmt(parseJson, b[i])
  }

  ghost predicate SoundStmt(parseJson: string -> Option<Value>, s: Stmt)
    decreases s, parseJson
  {
    match s
    case Text(_) => true
    case Comment(_) => true
    case Print(e) => Sound(parseJson, e)
    case If(_, br) => SoundBranches(parseJson, br)
    case For(_, vars, e, body, _) =>
      (vars.PairVars? ==> vars.key != "") && Sound(parseJson, e) && SoundBlock(parseJson, body)
  }

  ghost predicate SoundBranches(parseJson: string -> Option<Value>, br: Branches)
    decreases br, parseJson
  {
    Sound(parseJson, br.cond) && SoundBlock(parseJson, br.thn) && SoundElse(parseJson, br.els)
  }

  ghost predicate SoundElse(parseJson: string -> Option<Value>, els: Else)
    decreases els, parseJson
  {
    match els
    case EndIf(_) => true
    case ElseDo(_, b, _) => SoundBlock(parseJson, b)
    case ElseIf(_, br) => SoundBranches(parseJson, br)
  }

  // ----- such trees can be printed -----

  lemma {:induction false} SoundIsPrintable(g: Source, e: Expr)
    requires g.builtins == Builtins() && Sound(g.parseJson, e)
    ensures Printable(g, e)
    decreases e
  {
    match e
    case Lit(_, _) =>
    case Lookup(_) =>
    case Apply(f, args) =>
      forall k | 0 <= k < |args| ensures Printable(g, args[k]) {
        SoundIsPrintable(g, args[k]);
      }
      if Level(e) == 4 {
        CalledIsRegistered(f);
      }
    case Call(name, args) =>
      forall k | 0 <= k < |args| ensures Printable(g, args[k]) {
        SoundIsPrintable(g, args[k]);
      }
      NotCalledIsNotRegistered(name, |args|);
  }

  lemma {:induction false} CalledIsRegistered(f: Function)
    requires f != OrFn && f != AndFn && f != NotFn && (f.Pure? ==> !IsInfix(f.builtin))
    ensures NameOf(f) != "not"
    ensures (NameOf(f), Arity(f)) in Builtins() && Builtins()[(NameOf(f), Arity(f))] == f
  {
    TableExactly(NameOf(f), Arity(f), f);
    if NameOf(f) == "not" {
      NamesDiffer(f, NotFn);
    }
  }

  lemma {:induction false} NotCalledIsNotRegistered(name: string, n: nat)
    requires !(exists f :: IsCalled(f) && NameOf(f) == name && Arity(f) == n)
    ensures (name, n) !in Builtins()
  {
    if (name, n) in Builtins() {
      TableExactly(name, n, Builtins()[(name, n)]);
      assert false;
    }
  }

  lemma {:induction false} SoundBlockIsPrintable(g: Source, b: seq<Stmt>)
    requires g.builtins == Builtins() && SoundBlock(g.parseJson, b)
    ensures PrintableBlock(g, b)
    decreases b
  {
    forall i | 0 <= i < |b| ensures PrintableStmt(g, b[i]) {
      SoundStmtIsPrintable(g, b[i]);
    }
  }

  lemma {:induction false} SoundStmtIsPrintable(g: Source, s: Stmt)
    requires g.builtins == Builtins() && SoundStmt(g.parseJson, s)
    ensures PrintableStmt(g, s)
    decreases s
  {
    match s
    case Text(_) =>
    case Comment(_) =>
    case Print(e) => SoundIsPrintable(g, e);
    case If(_, br) => SoundBranchesArePrintable(g, br);
    case For(_, _, e, body, _) =>
      SoundIsPrintable(g, e);
      SoundBlockIsPrintable(g, body);
  }

  lemma {:induction false} SoundBranchesArePrintable(g: Source, br: Branches)
    requires g.builtins == Builtins() && SoundBranches(g.parseJson, br)
    ensures PrintableBranches(g, br)
    decreases br
  {
    SoundIsPrintable(g, br.cond);
    SoundBlockIsPrintable(g, br.thn);
    match br.els
    case EndIf(_) =>
    case ElseDo(_, b, _) => SoundBlockIsPrintable(g, b);
    case ElseIf(_, next) => SoundBranchesArePrintable(g, next);
  }

  /** The parser that the filter makes: the default delimiters and the registered built-ins. */
  predicate IsFilter(setup: Setup) {
    setup.cfg == DEFAULT && setup.builtins == Builtins()
  }

  /** Every such tree, written out and given to the filter's parser, renders to what it means. */
  lemma {:induction false} FilterTreeRenders(setup: Setup, b: seq<Stmt>, env: Machine.Env, root: Value)
    requires IsFilter(setup) && Spellable(b, 0) && SoundBlock(setup.parseJson, b)
    requires SafeBlock(setup.notation, b, 0) && Fits(0, b, 0) && |TemplateCode(setup.notation, b)| < ARGS_LIMIT
    ensures Usable(DEFAULT)
    ensures var r := EndToEnd.ParseText(setup, TextOf(b));
            r.Accepted? && Machine.EndsWith(r.code, env, root,
                                            Finished(Exec(Context(env, root, setup.notation), root, b, 0), |r.code|))
  {
    SoundBlockIsPrintable(SourceOf(setup, TextOf(b)), b);
    TreeTextRenders(setup, b, env, root);
  }
}
