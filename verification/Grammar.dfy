/** The parser's grammar: which tokens it takes, and which emissions it makes on the way, for every
    sequence of tokens, accepted or not. */
module Grammar {
  import opened Options
  import opened Json
  import opened Bytecodes
  import opened Tokens
  import opened Assembler

  /** What a parser reads from: a source, its tokens, the registry of built-in functions, and the
      foreign JSON parser (None: it throws). */
  datatype Source = Source(
    inp: string,
    toks: seq<Token>,
    builtins: map<(string, nat), Function>,
    parseJson: string -> Option<Value>)

  /** The tokens end in an end-of-source token. */
  predicate Ended(g: Source) {
    g.toks != [] && g.toks[|g.toks| - 1].kind == Eof
  }

  /** A recursive-descent function took something, returned false, or threw; in each case after
      some emissions. `next` is the position of the current token afterwards. */
  datatype Parsed =
    | Took(next: nat, acts: seq<Action>)
    | Refused(next: nat, acts: seq<Action>)
    | Threw(acts: seq<Action>)

  function After(acts: seq<Action>, r: Parsed): Parsed {
    match r
    case Took(next, more) => Took(next, acts + more)
    case Refused(next, more) => Refused(next, acts + more)
    case Threw(more) => Threw(acts + more)
  }

  function AndEmit(r: Parsed, acts: seq<Action>): Parsed {
    match r
    case Took(next, before) => Took(next, before + acts)
    case Refused(_, _) => r
    case Threw(_) => r
  }

  /** The token after position i; the end-of-source token repeats. */
  function Next(g: Source, i: nat): (j: nat)
    requires i < |g.toks|
    ensures j < |g.toks| && i <= j <= i + 1
  {
    if i + 1 < |g.toks| then i + 1 else i
  }

  predicate At(g: Source, i: nat) {
    Ended(g) && i < |g.toks|
  }

  function KindAt(g: Source, i: nat): Kind
    requires i < |g.toks|
  {
    g.toks[i].kind
  }

  predicate IsWord(t: Token, word: string) {
    t.kind == Id && t.text == word
  }

  predicate IsJsonWord(t: Token) {
    t.text == "true" || t.text == "false" || t.text == "null"
  }

  /** The comparison a token stands for. */
  function Comparison(t: Token): Option<Builtin> {
    match t.kind
    case Id => if t.text == "in" then Some(In) else None
    case EqualKind => Some(Equal)
    case GreaterThan => Some(Greater)
    case LessThan => Some(Less)
    case LessEqualKind => Some(LessEqual)
    case GreaterEqualKind => Some(GreaterEqual)
    case NotEqual => Some(Different)
    case _ => None
  }

  /** The source text from one token's start to another's end. */
  function JsonText(inp: string, first: Token, last: Token): string {
    if first.start <= End(last) <= |inp| then inp[first.start..End(last)] else ""
  }

  function Literal(g: Source, first: nat, i: nat): Parsed
    requires At(g, i) && first < |g.toks|
  {
    match g.parseJson(JsonText(g.inp, g.toks[first], g.toks[i]))
    case None => Threw([])
    case Some(v) => Took(Next(g, i), [PushLit(v)])
  }

  /** The emissions that end a call, built-in or not. */
  function CallActs(g: Source, name: string, n: nat): seq<Action> {
    if (name, n) in g.builtins then
      var f := g.builtins[(name, n)];
      (if f == DefaultFn then [SwapLast] else []) + [EmitFn(f, n)]
    else
      [EmitCall(name, n)]
  }

  /** parse_expression */
  function ParseOr(g: Source, i: nat): (r: Parsed)
    requires At(g, i)
    ensures r.Took? ==> i < r.next < |g.toks|
    ensures r.Refused? ==> i <= r.next < |g.toks|
    decreases |g.toks| - i, 5, g
  {
    var left := ParseAnd(g, i);
    if !left.Took? || !IsWord(g.toks[left.next], "or") then left
    else After(left.acts, AndEmit(ParseAnd(g, Next(g, left.next)), [EmitFn(OrFn, 2)]))
  }

  function ParseAnd(g: Source, i: nat): (r: Parsed)
    requires At(g, i)
    ensures r.Took? ==> i < r.next < |g.toks|
    ensures r.Refused? ==> i <= r.next < |g.toks|
    decreases |g.toks| - i, 4, g
  {
    var left := ParseNot(g, i);
    if !left.Took? || !IsWord(g.toks[left.next], "and") then left
    else After(left.acts, AndEmit(ParseNot(g, Next(g, left.next)), [EmitFn(AndFn, 2)]))
  }

  function ParseNot(g: Source, i: nat): (r: Parsed)
    requires At(g, i)
    ensures r.Took? ==> i < r.next < |g.toks|
    ensures r.Refused? ==> i <= r.next < |g.toks|
    decreases |g.toks| - i, 3, g
  {
    if IsWord(g.toks[i], "not") then AndEmit(ParseNot(g, i + 1), [EmitFn(NotFn, 1)])
    else ParseComparison(g, i)
  }

  function ParseComparison(g: Source, i: nat): (r: Parsed)
    requires At(g, i)
    ensures r.Took? ==> i < r.next < |g.toks|
    ensures r.Refused? ==> i <= r.next < |g.toks|
    decreases |g.toks| - i, 2, g
  {
    var left := ParseDatum(g, i, i, 0, 0);
    if !left.Took? then left
    else match Comparison(g.toks[left.next])
      case None => left
      case Some(b) =>
        var j := Next(g, left.next);
        After(left.acts, AndEmit(ParseDatum(g, j, j, 0, 0), [EmitFn(Pure(b), 2)]))
  }

  /** One datum; `first` is where an open JSON array or object began, the counters say how deep
      inside it position i is. */
  function ParseDatum(g: Source, i: nat, first: nat, brackets: nat, braces: nat): (r: Parsed)
    requires At(g, i) && first < |g.toks|
    ensures r.Took? ==> i < r.next < |g.toks|
    ensures r.Refused? ==> i <= r.next < |g.toks|
    decreases |g.toks| - i, 1, g
  {
    var top := brackets == 0 && braces == 0;
    match KindAt(g, i)
    case LeftParen => ParseParens(g, i)
    case Id =>
      if KindAt(g, i + 1) == LeftParen then ParseCall(g, i)
      else if IsJsonWord(g.toks[i]) then
        if top then Literal(g, i, i) else ParseDatum(g, i + 1, first, brackets, braces)
      else Took(i + 1, [PushVar(g.toks[i].text)])
    case Number => if top then Literal(g, i, i) else ParseDatum(g, i + 1, first, brackets, braces)
    case String => if top then Literal(g, i, i) else ParseDatum(g, i + 1, first, brackets, braces)
    case Comma => if top then Threw([]) else ParseDatum(g, i + 1, first, brackets, braces)
    case Colon => if top then Threw([]) else ParseDatum(g, i + 1, first, brackets, braces)
    case LeftBracket => ParseDatum(g, i + 1, if top then i else first, brackets + 1, braces)
    case LeftBrace => ParseDatum(g, i + 1, if top then i else first, brackets, braces + 1)
    case RightBracket =>
      if brackets == 0 then Threw([])
      else if brackets == 1 && braces == 0 then Literal(g, first, i)
      else ParseDatum(g, i + 1, first, brackets - 1, braces)
    case RightBrace =>
      if braces == 0 then Threw([])
      else if brackets == 0 && braces == 1 then Literal(g, first, i)
      else ParseDatum(g, i + 1, first, brackets, braces - 1)
    case _ => if top then Refused(i, []) else Threw([])
  }

  function ParseParens(g: Source, i: nat): (r: Parsed)
    requires At(g, i) && KindAt(g, i) == LeftParen
    ensures r.Took? ==> i < r.next < |g.toks|
    ensures r.Refused? ==> i <= r.next < |g.toks|
    decreases |g.toks| - i, 0, g
  {
    var inner := ParseOr(g, i + 1);
    if !inner.Took? then inner
    else if KindAt(g, inner.next) == RightParen then Took(Next(g, inner.next), inner.acts)
    else Threw(inner.acts)
  }

  function ParseCall(g: Source, i: nat): (r: Parsed)
    requires At(g, i) && KindAt(g, i) == Id && KindAt(g, i + 1) == LeftParen
    ensures r.Took? ==> i < r.next < |g.toks|
    ensures !r.Refused?
    decreases |g.toks| - i, 0, g
  {
    var name := g.toks[i].text;
    if KindAt(g, i + 2) == RightParen then Took(Next(g, i + 2), CallActs(g, name, 0))
    else CallAfter(g, name, ParseArgs(g, i + 2, 0))
  }

  /** A call whose arguments have been read. */
  function CallAfter(g: Source, name: string, args: ParsedArgs): Parsed {
    match args
    case ArgsThrew(acts) => Threw(acts)
    case Args(next, n, acts) => Took(next, acts + CallActs(g, name, n))
  }

  datatype ParsedArgs = Args(next: nat, n: nat, acts: seq<Action>) | ArgsThrew(acts: seq<Action>)

  function ArgsAfter(acts: seq<Action>, r: ParsedArgs): ParsedArgs {
    match r
    case Args(next, n, more) => Args(next, n, acts + more)
    case ArgsThrew(more) => ArgsThrew(acts + more)
  }

  /** The arguments from position i to the closing parenthesis, n of them read already. */
  function ParseArgs(g: Source, i: nat, n: nat): (r: ParsedArgs)
    requires At(g, i)
    ensures r.Args? ==> i < r.next < |g.toks| && n < r.n
    decreases |g.toks| - i, 6, g
  {
    var arg := ParseOr(g, i);
    if !arg.Took? then ArgsThrew(arg.acts)
    else if KindAt(g, arg.next) == RightParen then Args(Next(g, arg.next), n + 1, arg.acts)
    else if KindAt(g, arg.next) == Comma then ArgsAfter(arg.acts, ParseArgs(g, Next(g, arg.next), n + 1))
    else ArgsThrew(arg.acts)
  }

  // ----- statements -----

  function VarsOf(key: string, value: string): LoopVars {
    if key == "" then ItemVar(value) else PairVars(key, value)
  }

  function ParseFor(g: Source, i: nat): (r: Parsed)
    requires At(g, i)
    ensures r.Took? ==> i < r.next < |g.toks|
    ensures r.Refused? ==> i <= r.next < |g.toks|
  {
    if KindAt(g, i) != Id then Threw([])
    else if KindAt(g, i + 1) != Comma then ParseForIn(g, i + 1, VarsOf("", g.toks[i].text))
    else if KindAt(g, i + 2) != Id then Threw([])
    else ParseForIn(g, i + 3, VarsOf(g.toks[i].text, g.toks[i + 2].text))
  }

  function ParseForIn(g: Source, i: nat, vars: LoopVars): (r: Parsed)
    requires At(g, i)
    ensures r.Took? ==> i < r.next < |g.toks|
    ensures r.Refused? ==> i <= r.next < |g.toks|
  {
    if !IsWord(g.toks[i], "in") then Threw([])
    else AndEmit(ParseOr(g, i + 1), [OpenFor(vars)])
  }

  function ElseTag(g: Source, i: nat): (r: Parsed)
    requires At(g, i) && KindAt(g, i) != Eof
    ensures r.Took? ==> i < r.next < |g.toks|
    ensures r.Refused? ==> i <= r.next < |g.toks|
  {
    if IsWord(g.toks[i + 1], "if") then After([BeginElse], AndEmit(ParseOr(g, i + 2), [ChainIf]))
    else Took(i + 1, [BeginElse])
  }

  /** parse_statement. An include always throws: no template is registered and no file opens. */
  function ParseStatement(g: Source, i: nat): (r: Parsed)
    requires At(g, i)
    ensures r.Took? ==> i < r.next < |g.toks|
    ensures r.Refused? ==> i <= r.next < |g.toks|
  {
    var t := g.toks[i];
    if t.kind != Id then Refused(i, [])
    else if t.text == "if" then AndEmit(ParseOr(g, i + 1), [OpenIf])
    else if t.text == "endif" then Took(i + 1, [CloseIf])
    else if t.text == "else" then ElseTag(g, i)
    else if t.text == "for" then ParseFor(g, i + 1)
    else if t.text == "endfor" then Took(i + 1, [CloseFor])
    else if t.text == "include" then Threw([])
    else Refused(i, [])
  }

  // ----- templates -----

  /** A statement tag from its opening at i. In a line statement a refusal is not an error. */
  function ParseTag(g: Source, i: nat): (r: Parsed)
    requires At(g, i) && (KindAt(g, i) == StatementOpen || KindAt(g, i) == LineStatementOpen)
    ensures r.Took? ==> i < r.next < |g.toks|
    ensures !r.Refused?
  {
    var r := ParseStatement(g, i + 1);
    if r.Threw? then r
    else if KindAt(g, i) == StatementOpen then
      if r.Took? && KindAt(g, r.next) == StatementClose then Took(r.next, r.acts) else Threw(r.acts)
    else if KindAt(g, r.next) == LineStatementClose || KindAt(g, r.next) == Eof then Took(r.next, r.acts)
    else Threw(r.acts)
  }

  function ParsePrint(g: Source, i: nat): (r: Parsed)
    requires At(g, i) && KindAt(g, i) == ExpressionOpen
    ensures r.Took? ==> i < r.next < |g.toks|
    ensures !r.Refused?
  {
    var r := ParseOr(g, i + 1);
    if !r.Took? then Threw(r.acts)
    else if KindAt(g, r.next) == ExpressionClose then Took(r.next, r.acts + [EmitPrint])
    else Threw(r.acts + [EmitPrint])
  }

  /** One piece of a template; Took leaves its last token current. */
  function ParsePiece(g: Source, i: nat): (r: Parsed)
    requires At(g, i) && KindAt(g, i) != Eof
    ensures r.Took? ==> i <= r.next < |g.toks|
    ensures !r.Refused?
  {
    match KindAt(g, i)
    case TextKind => Took(i, [EmitText(g.toks[i].text)])
    case StatementOpen => ParseTag(g, i)
    case LineStatementOpen => ParseTag(g, i)
    case ExpressionOpen => ParsePrint(g, i)
    case CommentOpen => if KindAt(g, i + 1) == CommentClose then Took(i + 1, []) else Threw([])
    case _ => Threw([])
  }

  /** parse_into's loop, from the token at i. */
  function ParseTemplate(g: Source, i: nat): (r: Parsed)
    requires At(g, i)
    ensures !r.Refused?
    decreases |g.toks| - i, 7, g
  {
    if KindAt(g, i) == Eof then Took(i, [])
    else
      var piece := ParsePiece(g, i);
      if piece.Threw? then piece
      else After(piece.acts, ParseTemplate(g, Next(g, piece.next)))
  }

  /** What a whole parse comes to. */
  datatype Outcome = Accepted(code: seq<Bytecode>) | ParserError | Undefined

  function OutcomeOf(b: Built, r: Parsed): Outcome {
    match b
    case Fine(asm) => if r.Took? && asm.ifs == [] && asm.loops == [] then Accepted(asm.code) else ParserError
    case Rejected => ParserError
    case Broken => Undefined
  }

  function Parse(g: Source, notation: Notation): Outcome
    requires Ended(g)
  {
    var r := ParseTemplate(g, 0);
    OutcomeOf(Assemble(notation, EMPTY, r.acts), r)
  }
}
