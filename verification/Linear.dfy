/** Trees written out as tokens, with the parentheses the grammar needs and no others. */
module Linear {
  import opened Options
  import opened Json
  import opened Bytecodes
  import opened Tokens
  import opened Syntax
  import opened Grammar

  /** A token of a kind, with a given text or with any. */
  datatype Pattern = Exactly(kind: Kind, text: string) | OfKind(kind: Kind)

  predicate Matches(t: Token, p: Pattern) {
    t.kind == p.kind && (p.Exactly? ==> t.text == p.text)
  }

  // ----- expressions -----

  predicate IsInfix(b: Builtin) {
    b == In || b == Equal || b == Different || b == Greater || b == GreaterEqual || b == Less || b == LessEqual
  }

  /** How tightly an expression binds as it is written: or, and, not, comparison, datum. */
  function Level(e: Expr): nat {
    match e
    case Apply(OrFn, _) => 0
    case Apply(AndFn, _) => 1
    case Apply(NotFn, _) => 2
    case Apply(Pure(b), _) => if IsInfix(b) then 3 else 4
    case _ => 4
  }

  function Symbol(f: Function): Pattern {
    match f
    case OrFn => Exactly(Id, "or")
    case AndFn => Exactly(Id, "and")
    case NotFn => Exactly(Id, "not")
    case Pure(b) =>
      if b == In then Exactly(Id, "in")
      else if b == Equal then OfKind(EqualKind)
      else if b == Different then OfKind(NotEqual)
      else if b == Greater then OfKind(GreaterThan)
      else if b == GreaterEqual then OfKind(GreaterEqualKind)
      else if b == Less then OfKind(LessThan)
      else OfKind(LessEqualKind)
    case _ => OfKind(Unknown)
  }

  /** What the grammar asks of a tree: arities, names that are not read as something else,
      literals that the JSON parser reads as their values, built-ins that are registered. */
  predicate Printable(g: Source, e: Expr)
    decreases e, g
  {
    match e
    case Lit(t, v) =>
      && (t.kind == Number || t.kind == String
          || (t.kind == Id && (t.text == "true" || t.text == "false" || t.text == "null")))
      && g.parseJson(t.text) == Some(v)
    case Lookup(name) => name != "not" && name != "true" && name != "false" && name != "null"
    case Apply(f, args) =>
      && |args| == Arity(f) && (forall k | 0 <= k < |args| :: Printable(g, args[k]))
      && (Level(e) == 4 ==>
            NameOf(f) != "not" && (NameOf(f), |args|) in g.builtins && g.builtins[(NameOf(f), |args|)] == f)
    case Call(name, args) =>
      && name != "not" && (name, |args|) !in g.builtins && (forall k | 0 <= k < |args| :: Printable(g, args[k]))
  }

  /** e where an expression of at least the given level is expected. */
  function Written(e: Expr, level: nat): seq<Pattern>
    decreases e, 1, 0, level
  {
    if Level(e) >= level then Bare(e) else [OfKind(LeftParen)] + (Bare(e) + [OfKind(RightParen)])
  }

  function Bare(e: Expr): seq<Pattern>
    decreases e, 0, 0, 0
  {
    match e
    case Lit(t, _) => [Exactly(t.kind, t.text)]
    case Lookup(name) => [Exactly(Id, name)]
    case Apply(f, args) =>
      if |args| != Arity(f) then []
      else if f == OrFn then Written(args[0], 1) + ([Symbol(f)] + Written(args[1], 1))
      else if f == AndFn then Written(args[0], 2) + ([Symbol(f)] + Written(args[1], 2))
      else if f == NotFn then [Symbol(f)] + Written(args[0], 2)
      else if Level(e) == 3 then Written(args[0], 4) + ([Symbol(f)] + Written(args[1], 4))
      else WrittenCall(NameOf(f), args)
    case Call(name, args) => WrittenCall(name, args)
  }

  function WrittenCall(name: string, args: seq<Expr>): seq<Pattern>
    decreases args, 3, 0, name
  {
    [Exactly(Id, name)] + ([OfKind(LeftParen)] + WrittenArgs(args, 0))
  }

  /** The arguments from the k-th on, and the closing parenthesis. */
  function WrittenArgs(args: seq<Expr>, k: nat): seq<Pattern>
    requires k <= |args|
    decreases args, 2, |args| - k
  {
    if k == |args| then [OfKind(RightParen)]
    else if k + 1 == |args| then Written(args[k], 0) + [OfKind(RightParen)]
    else Written(args[k], 0) + ([OfKind(Comma)] + WrittenArgs(args, k + 1))
  }

  // ----- statements -----

  function OpenOf(d: Delim): Pattern {
    if d == BlockTag then OfKind(StatementOpen) else OfKind(LineStatementOpen)
  }

  function CloseOf(d: Delim): Pattern {
    if d == BlockTag then OfKind(StatementClose) else OfKind(LineStatementClose)
  }

  function Tag(d: Delim, inner: seq<Pattern>): seq<Pattern> {
    [OpenOf(d)] + (inner + [CloseOf(d)])
  }

  function Word(w: string): Pattern {
    Exactly(Id, w)
  }

  function WrittenVars(vars: LoopVars): seq<Pattern> {
    match vars
    case ItemVar(value) => [Word(value)]
    case PairVars(key, value) => [Word(key), OfKind(Comma), Word(value)]
  }

  /** A for tag up to its expression. */
  function ForFront(vars: LoopVars): seq<Pattern> {
    [Word("for")] + (WrittenVars(vars) + [Word("in")])
  }

  predicate PrintableBlock(g: Source, b: seq<Stmt>)
    decreases b, g
  {
    forall i | 0 <= i < |b| :: PrintableStmt(g, b[i])
  }

  predicate PrintableStmt(g: Source, s: Stmt)
    decreases s, g
  {
    match s
    case Text(_) => true
    case Comment(_) => true
    case Print(e) => Printable(g, e)
    case If(_, br) => PrintableBranches(g, br)
    case For(_, vars, e, body, _) =>
      (vars.PairVars? ==> vars.key != "") && Printable(g, e) && PrintableBlock(g, body)
  }

  predicate PrintableBranches(g: Source, br: Branches)
    decreases br, g
  {
    Printable(g, br.cond) && PrintableBlock(g, br.thn) && PrintableElse(g, br.els)
  }

  predicate PrintableElse(g: Source, els: Else)
    decreases els, g
  {
    match els
    case EndIf(_) => true
    case ElseDo(_, b, _) => PrintableBlock(g, b)
    case ElseIf(_, br) => PrintableBranches(g, br)
  }

  /** The statements from the i-th on. */
  function WrittenBlock(b: seq<Stmt>, i: nat): seq<Pattern>
    requires i <= |b|
    decreases b, |b| - i
  {
    if i == |b| then [] else WrittenStmt(b[i]) + WrittenBlock(b, i + 1)
  }

  function WrittenStmt(s: Stmt): seq<Pattern>
    decreases s
  {
    match s
    case Text(text) => [Exactly(TextKind, text)]
    case Comment(text) => [OfKind(CommentOpen), Exactly(CommentClose, text)]
    case Print(e) => [OfKind(ExpressionOpen)] + (Written(e, 0) + [OfKind(ExpressionClose)])
    case If(d, br) => Tag(d, [Word("if")] + Written(br.cond, 0)) + WrittenBranch(br)
    case For(d, vars, e, body, dEnd) =>
      Tag(d, ForFront(vars) + Written(e, 0))
      + (WrittenBlock(body, 0) + Tag(dEnd, [Word("endfor")]))
  }

  /** A branch behind its condition's tag, and the rest of its chain. */
  function WrittenBranch(br: Branches): seq<Pattern>
    decreases br
  {
    WrittenBlock(br.thn, 0) + WrittenElse(br.els)
  }

  function WrittenElse(els: Else): seq<Pattern>
    decreases els
  {
    match els
    case EndIf(d) => Tag(d, [Word("endif")])
    case ElseDo(d, b, dEnd) => Tag(d, [Word("else")]) + (WrittenBlock(b, 0) + Tag(dEnd, [Word("endif")]))
    case ElseIf(d, br) =>
      Tag(d, [Word("else"), Word("if")] + Written(br.cond, 0)) + WrittenBranch(br)
  }
}
