/** The parser as the filter drives it: it pulls tokens from the scanner with one token of
    look-ahead, appends bytecodes to a template as it goes, and patches them through two stacks. */
module Parsers {
  import opened Options
  import opened Json
  import opened Bytecodes
  import opened Tokens
  import opened Lexing
  import opened Scanning
  import opened Lexers
  import opened Compiler
  import opened Assembler
  import opened Grammar

  class Template {
    var bytecodes: seq<Bytecode>
    var content: string

    constructor (content: string)
      ensures this.content == content && bytecodes == []
    {
      this.content := content;
      bytecodes := [];
    }
  }

  /** How a parse function comes back: true, false, by an exception, or not at all (an index the
      C++ standard leaves undefined). */
  datatype Verdict = True | False | Throw | Undef

  /** The tokens that remain when k have been taken; the end repeats. */
  function Remaining(inp: string, toks: seq<Token>, k: nat): (r: seq<Token>)
    ensures r != []
  {
    if k < |toks| then toks[k..] else [EofToken(inp)]
  }

  /** What a scanner in state st still has to give, when k tokens have been taken from it. */
  ghost predicate Ahead(cfg: Config, inp: string, st: LexState, toks: seq<Token>, k: nat) {
    && Usable(cfg) && ValidState(cfg, inp, st)
    && Lex(cfg, inp, st) == Remaining(inp, toks, k)
  }

  lemma {:induction false} AheadOne(cfg: Config, inp: string, st: LexState, toks: seq<Token>, k: nat)
    requires Ahead(cfg, inp, st, toks, k)
    ensures ScanFrom(cfg, inp, st).tok == Remaining(inp, toks, k)[0]
    ensures Ahead(cfg, inp, ScanFrom(cfg, inp, st).st, toks, k + 1)
    ensures |toks| <= k ==> Ahead(cfg, inp, ScanFrom(cfg, inp, st).st, toks, k)
  {
    ScanTakesFirst(cfg, inp, st);
    assert k < |toks| ==> toks[k..][1..] == toks[k + 1..];
  }

  /** A token stream being read: token `at` is current and the scanner is behind it. */
  ghost predicate Streams(cfg: Config, st: LexState, g: Source, at: nat) {
    && Grammar.At(g, at) && g.toks[|g.toks| - 1] == EofToken(g.inp)
    && Ahead(cfg, g.inp, st, g.toks, at + 1)
  }

  lemma {:induction false} StreamsNext(cfg: Config, st: LexState, g: Source, at: nat)
    requires Streams(cfg, st, g, at)
    ensures var r := ScanFrom(cfg, g.inp, st);
            r.tok == g.toks[Next(g, at)] && Streams(cfg, r.st, g, Next(g, at))
  {
    AheadOne(cfg, g.inp, st, g.toks, at + 1);
  }

  // ----- what a parse function leaves behind, as a value -----

  /** It comes back true or false, with `next` current and the assembly in a new state; or it
      throws; or it does something undefined. */
  datatype Effect = Back(took: bool, next: nat, asm: Asm) | Thrown | Gone

  function EffectOf(notation: Notation, asm: Asm, p: Parsed): Effect {
    match Assemble(notation, asm, p.acts)
    case Rejected => Thrown
    case Broken => Gone
    case Fine(after) =>
      match p
      case Took(next, _) => Back(true, next, after)
      case Refused(next, _) => Back(false, next, after)
      case Threw(_) => Thrown
  }

  function AfterBuilt(notation: Notation, b: Built, p: Parsed): Effect {
    match b
    case Fine(asm) => EffectOf(notation, asm, p)
    case Rejected => Thrown
    case Broken => Gone
  }

  lemma {:induction false} EffectAfter(notation: Notation, asm: Asm, acts: seq<Action>, p: Parsed)
    ensures EffectOf(notation, asm, After(acts, p)) == AfterBuilt(notation, Assemble(notation, asm, acts), p)
  {
    DoConcat(Emitter(notation), asm, acts, p.acts);
  }

  /** What comes after a function that came back true. */
  function AfterEffect(notation: Notation, e: Effect, acts: seq<Action>): Effect {
    match e
    case Back(took, next, asm) => if took then EffectOf(notation, asm, Took(next, acts)) else e
    case Thrown => Thrown
    case Gone => Gone
  }

  lemma {:induction false} EffectEmit(notation: Notation, asm: Asm, p: Parsed, acts: seq<Action>)
    ensures EffectOf(notation, asm, AndEmit(p, acts)) == AfterEffect(notation, EffectOf(notation, asm, p), acts)
  {
    DoConcat(Emitter(notation), asm, p.acts, acts);
  }

  lemma {:induction false} EffectNothing(notation: Notation, asm: Asm, next: nat)
    ensures EffectOf(notation, asm, Took(next, [])) == Back(true, next, asm)
    ensures EffectOf(notation, asm, Refused(next, [])) == Back(false, next, asm)
    ensures EffectOf(notation, asm, Threw([])) == Thrown
  {
  }

  lemma {:induction false} EffectOne(notation: Notation, asm: Asm, next: nat, a: Action)
    ensures EffectOf(notation, asm, Took(next, [a])) ==
            match Do(notation, asm, a)
            case Fine(after) => Back(true, next, after)
            case Rejected => Thrown
            case Broken => Gone
  {
    DoOne(Emitter(notation), asm, a);
  }

  /** A function appended after operands that came back true. */
  function Appended(e: Effect, f: Function, n: nat): Effect {
    match e
    case Back(took, next, asm) =>
      if took then Back(true, next, asm.(code := AppendFunction(asm.code, Fn(f), n))) else e
    case Thrown => Thrown
    case Gone => Gone
  }

  // The parser's contracts speak of effects and of the token stream through function values that
  // are kept abstract: the lemmas below are all its methods need to know of them.

  predicate Spied(st: LexState, g: Source, at: nat) {
    true
  }

  ghost predicate Watches(streams: (LexState, Source, nat) -> bool, cfg: Config) {
    forall st: LexState, g: Source, at: nat {:trigger Spied(st, g, at)} :: Spied(st, g, at) ==>
      streams(st, g, at) == Streams(cfg, st, g, at)
  }

  /** A scan makes the next token available; it is the next in the stream. */
  lemma {:induction false} ScanMoves(streams: (LexState, Source, nat) -> bool, cfg: Config, st: LexState, g: Source,
                                     at: nat)
    requires Watches(streams, cfg) && Grammar.At(g, at) && streams(st, g, at)
    ensures ValidState(cfg, g.inp, st)
    ensures ScanFrom(cfg, g.inp, st).tok == g.toks[Next(g, at)]
    ensures streams(ScanFrom(cfg, g.inp, st).st, g, Next(g, at))
  {
    assert Spied(st, g, at);
    StreamsNext(cfg, st, g, at);
    assert Spied(ScanFrom(cfg, g.inp, st).st, g, Next(g, at));
  }

  predicate Named(asm: Asm, p: Parsed) {
    true
  }

  ghost predicate Lawful(eff: (Asm, Parsed) -> Effect, notation: Notation) {
    forall asm: Asm, p: Parsed {:trigger Named(asm, p)} :: Named(asm, p) ==> eff(asm, p) == EffectOf(notation, asm, p)
  }

  /** An effect comes back where its parse function did. */
  lemma {:induction false} Returns(eff: (Asm, Parsed) -> Effect, notation: Notation, asm: Asm, p: Parsed)
    requires Lawful(eff, notation)
    ensures var e := eff(asm, p);
            e.Back? ==> !p.Threw? && e.next == p.next && (e.took <==> p.Took?)
  {
    assert Named(asm, p);
  }

  lemma {:induction false} Unary(eff: (Asm, Parsed) -> Effect, notation: Notation, asm: Asm, p: Parsed,
                                 f: Function, n: nat)
    requires Lawful(eff, notation)
    ensures eff(asm, AndEmit(p, [EmitFn(f, n)])) == Appended(eff(asm, p), f, n)
  {
    assert Named(asm, AndEmit(p, [EmitFn(f, n)])) && Named(asm, p);
    EffectEmit(notation, asm, p, [EmitFn(f, n)]);
    var e := EffectOf(notation, asm, p);
    if e.Back? {
      EffectOne(notation, e.asm, e.next, EmitFn(f, n));
    }
  }

  /** One parse function after another that took something. */
  lemma {:induction false} Sequel(eff: (Asm, Parsed) -> Effect, notation: Notation, asm: Asm, left: Parsed,
                                  right: Parsed)
    requires Lawful(eff, notation) && left.Took?
    ensures eff(asm, After(left.acts, right)) ==
            var e := eff(asm, left);
            if e.Back? then eff(e.asm, right) else e
  {
    assert Named(asm, left) && Named(asm, After(left.acts, right));
    EffectAfter(notation, asm, left.acts, right);
    var e := EffectOf(notation, asm, left);
    if e.Back? {
      assert Named(e.asm, right);
    }
  }

  /** Two operands and an operator. */
  lemma {:induction false} Binary(eff: (Asm, Parsed) -> Effect, notation: Notation, asm: Asm, left: Parsed,
                                  right: Parsed, f: Function)
    requires Lawful(eff, notation) && left.Took?
    ensures eff(asm, After(left.acts, AndEmit(right, [EmitFn(f, 2)]))) ==
            var e := eff(asm, left);
            if e.Back? then Appended(eff(e.asm, right), f, 2) else e
  {
    Sequel(eff, notation, asm, left, AndEmit(right, [EmitFn(f, 2)]));
    var e := eff(asm, left);
    if e.Back? {
      Unary(eff, notation, e.asm, right, f, 2);
    }
  }

  /** Effects of the small things. */
  lemma {:induction false} Nothing(eff: (Asm, Parsed) -> Effect, notation: Notation, asm: Asm, next: nat)
    requires Lawful(eff, notation)
    ensures eff(asm, Took(next, [])) == Back(true, next, asm)
    ensures eff(asm, Refused(next, [])) == Back(false, next, asm)
    ensures eff(asm, Threw([])) == Thrown
  {
    assert Named(asm, Took(next, [])) && Named(asm, Refused(next, [])) && Named(asm, Threw([]));
    EffectNothing(notation, asm, next);
  }

  lemma {:induction false} Single(eff: (Asm, Parsed) -> Effect, notation: Notation, asm: Asm, next: nat, a: Action)
    requires Lawful(eff, notation)
    ensures eff(asm, Took(next, [a])) ==
            match Do(notation, asm, a)
            case Fine(after) => Back(true, next, after)
            case Rejected => Thrown
            case Broken => Gone
  {
    assert Named(asm, Took(next, [a]));
    EffectOne(notation, asm, next, a);
  }

  lemma {:induction false} Pushes(eff: (Asm, Parsed) -> Effect, notation: Notation, asm: Asm, next: nat)
    requires Lawful(eff, notation)
    ensures forall name ::
              eff(asm, Took(next, [PushVar(name)])) == Back(true, next, Emit(asm, PushLookup(notation, name)))
    ensures forall v :: eff(asm, Took(next, [PushLit(v)])) == Back(true, next, Emit(asm, PushLiteral(v)))
  {
    forall name
      ensures eff(asm, Took(next, [PushVar(name)])) == Back(true, next, Emit(asm, PushLookup(notation, name)))
    {
      Single(eff, notation, asm, next, PushVar(name));
    }
    forall v ensures eff(asm, Took(next, [PushLit(v)])) == Back(true, next, Emit(asm, PushLiteral(v))) {
      Single(eff, notation, asm, next, PushLit(v));
    }
  }

  /** What was emitted before an exception does not matter to the exception. */
  lemma {:induction false} Escalates(eff: (Asm, Parsed) -> Effect, notation: Notation, asm: Asm, p: Parsed)
    requires Lawful(eff, notation)
    ensures eff(asm, Threw(p.acts)) == if eff(asm, p).Gone? then Gone else Thrown
  {
    assert Named(asm, p) && Named(asm, Threw(p.acts));
  }

  /** Taking one more token emits nothing. */
  lemma {:induction false} Steps(eff: (Asm, Parsed) -> Effect, notation: Notation, asm: Asm, p: Parsed, next: nat)
    requires Lawful(eff, notation) && p.Took?
    ensures eff(asm, Took(next, p.acts)) == if eff(asm, p).Back? then Back(true, next, eff(asm, p).asm) else eff(asm, p)
  {
    assert Named(asm, p) && Named(asm, Took(next, p.acts));
  }

  function CallEffect(g: Source, asm: Asm, next: nat, name: string, n: nat): Effect {
    if (name, n) in g.builtins then
      var f := g.builtins[(name, n)];
      if f == DefaultFn then
        match DoSwap(asm)
        case Fine(mid) => Back(true, next, mid.(code := AppendFunction(mid.code, Fn(f), n)))
        case Rejected => Thrown
        case Broken => Gone
      else Back(true, next, asm.(code := AppendFunction(asm.code, Fn(f), n)))
    else Back(true, next, asm.(code := AppendCallback(asm.code, name, n)))
  }

  lemma {:induction false} Calls(eff: (Asm, Parsed) -> Effect, notation: Notation, asm: Asm, g: Source, next: nat,
                                 name: string, n: nat)
    requires Lawful(eff, notation)
    ensures eff(asm, Took(next, CallActs(g, name, n))) == CallEffect(g, asm, next, name, n)
  {
    if (name, n) in g.builtins {
      var f := g.builtins[(name, n)];
      if f == DefaultFn {
        Single(eff, notation, asm, next, SwapLast);
        Sequel(eff, notation, asm, Took(next, [SwapLast]), Took(next, [EmitFn(f, n)]));
        if DoSwap(asm).Fine? {
          Single(eff, notation, DoSwap(asm).asm, next, EmitFn(f, n));
        }
      } else {
        Single(eff, notation, asm, next, EmitFn(f, n));
        assert [] + [EmitFn(f, n)] == [EmitFn(f, n)];
      }
    } else {
      Single(eff, notation, asm, next, EmitCall(name, n));
    }
  }

  /** One more action after a parse function that came back true. */
  function Acted(notation: Notation, e: Effect, a: Action): Effect {
    if !e.Back? || !e.took then e
    else match Do(notation, e.asm, a)
      case Fine(after) => Back(true, e.next, after)
      case Rejected => Thrown
      case Broken => Gone
  }

  lemma {:induction false} Acts1(eff: (Asm, Parsed) -> Effect, notation: Notation, asm: Asm, p: Parsed, a: Action)
    requires Lawful(eff, notation)
    ensures eff(asm, AndEmit(p, [a])) == Acted(notation, eff(asm, p), a)
  {
    assert Named(asm, AndEmit(p, [a])) && Named(asm, p);
    EffectEmit(notation, asm, p, [a]);
    var e := EffectOf(notation, asm, p);
    if e.Back? && e.took {
      EffectOne(notation, e.asm, e.next, a);
    }
  }

  /** An else that fails at once. */
  lemma {:induction false} ElseStuck(eff: (Asm, Parsed) -> Effect, notation: Notation, asm: Asm, g: Source, i: nat)
    requires Lawful(eff, notation) && Grammar.At(g, i) && KindAt(g, i) != Eof
    requires !Do(notation, asm, BeginElse).Fine?
    ensures eff(asm, ElseTag(g, i)) == if Do(notation, asm, BeginElse).Rejected? then Thrown else Gone
  {
    Single(eff, notation, asm, i + 1, BeginElse);
    if IsWord(g.toks[i + 1], "if") {
      Sequel(eff, notation, asm, Took(i + 1, [BeginElse]), AndEmit(ParseOr(g, i + 2), [ChainIf]));
    }
  }

  /** A statement tag, from what its statement did. */
  function TagEffect(g: Source, i: nat, e: Effect): Effect
    requires Grammar.At(g, i)
  {
    if !e.Back? || e.next >= |g.toks| then e
    else if KindAt(g, i) == StatementOpen then
      if e.took && KindAt(g, e.next) == StatementClose then e else Thrown
    else if KindAt(g, e.next) == LineStatementClose || KindAt(g, e.next) == Eof then Back(true, e.next, e.asm)
    else Thrown
  }

  lemma {:induction false} Tags(eff: (Asm, Parsed) -> Effect, notation: Notation, asm: Asm, g: Source, i: nat)
    requires Lawful(eff, notation) && Grammar.At(g, i)
    requires KindAt(g, i) == StatementOpen || KindAt(g, i) == LineStatementOpen
    ensures eff(asm, ParseTag(g, i)) == TagEffect(g, i, eff(asm, Grammar.ParseStatement(g, i + 1)))
  {
    var p := Grammar.ParseStatement(g, i + 1);
    Returns(eff, notation, asm, p);
    Escalates(eff, notation, asm, p);
    assert Named(asm, p) && Named(asm, ParseTag(g, i));
  }

  /** A printed expression, from what its expression did. */
  function PrintEffect(g: Source, e: Effect): Effect {
    if !e.Back? || e.next >= |g.toks| then e
    else if !e.took || KindAt(g, e.next) != ExpressionClose then Thrown
    else Back(true, e.next, e.asm.(code := AppendFunction(e.asm.code, PrintValue, 1)))
  }

  lemma {:induction false} Prints(eff: (Asm, Parsed) -> Effect, notation: Notation, asm: Asm, g: Source, i: nat)
    requires Lawful(eff, notation) && Grammar.At(g, i) && KindAt(g, i) == ExpressionOpen
    ensures eff(asm, ParsePrint(g, i)) == PrintEffect(g, eff(asm, ParseOr(g, i + 1)))
  {
    var p := ParseOr(g, i + 1);
    Returns(eff, notation, asm, p);
    Escalates(eff, notation, asm, p);
    Acts1(eff, notation, asm, p, EmitPrint);
    Escalates(eff, notation, asm, AndEmit(p, [EmitPrint]));
  }

  /** A piece and the rest of a template. */
  lemma {:induction false} Pieces(eff: (Asm, Parsed) -> Effect, notation: Notation, asm: Asm, g: Source, i: nat)
    requires Lawful(eff, notation) && Grammar.At(g, i) && KindAt(g, i) != Eof
    ensures var e := eff(asm, ParsePiece(g, i));
            && (e.Back? ==> e.took && e.next < |g.toks|
                            && eff(asm, ParseTemplate(g, i)) == eff(e.asm, ParseTemplate(g, Next(g, e.next)))
                            && (ParseTemplate(g, i).Took? <==> ParseTemplate(g, Next(g, e.next)).Took?))
            && (!e.Back? ==> eff(asm, ParseTemplate(g, i)) == e)
  {
    var piece := ParsePiece(g, i);
    Returns(eff, notation, asm, piece);
    if piece.Took? {
      Sequel(eff, notation, asm, piece, ParseTemplate(g, Next(g, piece.next)));
    }
  }

  /** The outcome of a parse, from the effect of its loop. */
  function OutcomeOfEffect(e: Effect): Outcome {
    match e
    case Back(_, _, asm) => if asm.ifs == [] && asm.loops == [] then Accepted(asm.code) else ParserError
    case Thrown => ParserError
    case Gone => Undefined
  }

  lemma {:induction false} Outcomes(eff: (Asm, Parsed) -> Effect, notation: Notation, g: Source)
    requires Lawful(eff, notation) && Ended(g)
    ensures Parse(g, notation) == OutcomeOfEffect(eff(EMPTY, ParseTemplate(g, 0)))
  {
    assert Named(EMPTY, ParseTemplate(g, 0));
  }

  function AsParsed(a: ParsedArgs): Parsed {
    match a
    case Args(next, _, acts) => Took(next, acts)
    case ArgsThrew(acts) => Threw(acts)
  }

  lemma {:induction false} CallAfterArgs(eff: (Asm, Parsed) -> Effect, notation: Notation, asm: Asm, g: Source,
                                         name: string, args: ParsedArgs)
    requires Lawful(eff, notation)
    ensures var e := eff(asm, AsParsed(args));
            eff(asm, CallAfter(g, name, args)) ==
            if args.Args? && e.Back? then eff(e.asm, Took(args.next, CallActs(g, name, args.n))) else e
  {
    if args.Args? {
      Sequel(eff, notation, asm, AsParsed(args), Took(args.next, CallActs(g, name, args.n)));
    }
  }

  /** One argument and what follows it. */
  function ArgumentEffect(eff: (Asm, Parsed) -> Effect, g: Source, asm: Asm, i: nat, n: nat): Effect
    requires Grammar.At(g, i)
  {
    var arg, e := ParseOr(g, i), eff(asm, ParseOr(g, i));
    if !e.Back? then e
    else if !arg.Took? then Thrown
    else if KindAt(g, arg.next) == RightParen then Back(true, Next(g, arg.next), e.asm)
    else if KindAt(g, arg.next) == Comma then eff(e.asm, AsParsed(ParseArgs(g, Next(g, arg.next), n + 1)))
    else Thrown
  }

  lemma {:induction false} Argument(eff: (Asm, Parsed) -> Effect, notation: Notation, asm: Asm, g: Source, i: nat,
                                    n: nat)
    requires Lawful(eff, notation) && Grammar.At(g, i)
    ensures eff(asm, AsParsed(ParseArgs(g, i, n))) == ArgumentEffect(eff, g, asm, i, n)
  {
    var arg := ParseOr(g, i);
    Returns(eff, notation, asm, arg);
    Escalates(eff, notation, asm, arg);
    if arg.Took? {
      Steps(eff, notation, asm, arg, Next(g, arg.next));
      if KindAt(g, arg.next) == Comma {
        Sequel(eff, notation, asm, arg, AsParsed(ParseArgs(g, Next(g, arg.next), n + 1)));
      }
    }
  }

  class Parser {
    const notation: Notation
    const builtins: map<(string, nat), Function>
    const parseJson: string -> Option<Value>
    const lexer: Lexer
    var tok: Token
    var peekTok: Token
    var havePeek: bool
    var ifStack: seq<IfData>
    var loopStack: seq<nat>
    ghost const eff: (Asm, Parsed) -> Effect
    ghost const streams: (LexState, Source, nat) -> bool
    ghost var toks: seq<Token>  // all tokens of the source being parsed
    ghost var at: nat           // which of them is current

    constructor (notation: Notation, cfg: Config, builtins: map<(string, nat), Function>,
                 parseJson: string -> Option<Value>)
      ensures this.notation == notation && this.builtins == builtins && this.parseJson == parseJson
      ensures fresh(lexer) && lexer.cfg == cfg && Idle() && Knows()
    {
      this.notation := notation;
      this.builtins := builtins;
      this.parseJson := parseJson;
      lexer := new Lexer(cfg);
      tok, peekTok := Token(Unknown, "", 0), Token(Unknown, "", 0);
      havePeek := false;
      ifStack, loopStack := [], [];
      toks, at := [], 0;
      eff := (asm: Asm, p: Parsed) => EffectOf(notation, asm, p);
      streams := (st: LexState, g: Source, at: nat) => Streams(cfg, st, g, at);
    }

    /** Ready for a new template: nothing pending, no token held. */
    predicate Idle()
      reads this
    {
      !havePeek && ifStack == [] && loopStack == []
    }

    // ----- tokens -----

    ghost function Src(): Source
      reads this, lexer
    {
      Source(lexer.inp, toks, builtins, parseJson)
    }

    ghost predicate Knows() {
      Lawful(eff, notation) && Watches(streams, lexer.cfg)
    }

    /** tok is the token at `at`, and the scanner stands behind it. */
    ghost predicate Reading()
      reads this, lexer
    {
      && !havePeek && Knows() && Grammar.At(Src(), at) && tok == toks[at]
      && lexer.Valid() && streams(lexer.State(), Src(), at)
    }

    /** One token further, peekTok is held. */
    ghost predicate Peeking()
      reads this, lexer
    {
      && havePeek && Knows() && Grammar.At(Src(), at) && at + 1 < |toks| && tok == toks[at] && peekTok == toks[at + 1]
      && lexer.Valid() && streams(lexer.State(), Src(), at + 1)
    }

    method GetNextToken()
      requires Reading() || Peeking()
      modifies this`tok, this`havePeek, this`at, lexer
      ensures Reading() && lexer.inp == old(lexer.inp)
      ensures at == Next(Src(), old(at))
    {
      if havePeek {
        tok := peekTok;
        havePeek := false;
      } else {
        ScanMoves(streams, lexer.cfg, lexer.State(), Src(), at);
        tok := lexer.Scan();
      }
      at := Next(Src(), at);
    }

    method GetPeekToken()
      requires Reading() && tok.kind != Eof
      modifies this`peekTok, this`havePeek, lexer
      ensures Peeking() && lexer.inp == old(lexer.inp)
    {
      if !havePeek {
        ScanMoves(streams, lexer.cfg, lexer.State(), Src(), at);
        peekTok := lexer.Scan();
        havePeek := true;
      }
    }

    // ----- emitting -----

    ghost function AsmOf(tmpl: Template): Asm
      reads this, tmpl
    {
      Asm(tmpl.bytecodes, ifStack, loopStack)
    }

    method AppendFunctionTo(tmpl: Template, op: Op, n: nat)
      modifies tmpl`bytecodes
      ensures tmpl.bytecodes == AppendFunction(old(tmpl.bytecodes), op, n)
    {
      if tmpl.bytecodes != [] {
        var last := tmpl.bytecodes[|tmpl.bytecodes| - 1];
        if last.op == Push {
          tmpl.bytecodes := tmpl.bytecodes[|tmpl.bytecodes| - 1 := last.(op := op, args := Arg30(n))];
          return;
        }
      }
      tmpl.bytecodes := tmpl.bytecodes + [Instr(op, n)];
    }

    method AppendCallbackTo(tmpl: Template, name: string, n: nat)
      modifies tmpl`bytecodes
      ensures tmpl.bytecodes == AppendCallback(old(tmpl.bytecodes), name, n)
    {
      if tmpl.bytecodes != [] {
        var last := tmpl.bytecodes[|tmpl.bytecodes| - 1];
        if last.op == Push && last.flags == Immediate {
          last := last.(op := Callback, args := Arg30(n), str := name);
          tmpl.bytecodes := tmpl.bytecodes[|tmpl.bytecodes| - 1 := last];
          return;
        }
      }
      tmpl.bytecodes := tmpl.bytecodes + [Instr(Callback, n).(str := name)];
    }

    // ----- expressions -----

    /** The parser came back as `e` says. */
    ghost predicate Agrees(r: Verdict, e: Effect, tmpl: Template)
      reads this, lexer, tmpl
    {
      match e
      case Thrown => r == Throw
      case Gone => r == Undef
      case Back(took, next, asm) =>
        r == (if took then True else False) && Reading() && at == next && AsmOf(tmpl) == asm
    }

    method ParseExpression(tmpl: Template) returns (r: Verdict)
      requires Reading()
      modifies this`tok, this`peekTok, this`havePeek, this`at, lexer, tmpl`bytecodes
      ensures lexer.inp == old(lexer.inp)
      ensures Agrees(r, eff(old(AsmOf(tmpl)), ParseOr(old(Src()), old(at))), tmpl)
      decreases |toks| - at, 5
    {
      ghost var g, asm, left := Src(), AsmOf(tmpl), ParseAnd(Src(), at);
      Returns(eff, notation, asm, left);
      r := ParseExpressionAnd(tmpl);
      if left.Took? && IsWord(g.toks[left.next], "or") {
        Binary(eff, notation, asm, left, ParseAnd(g, Next(g, left.next)), OrFn);
      }
      if r != True {
        return;
      }
      if tok.kind != Id || tok.text != "or" {
        return;
      }
      r := ParseExpressionAndRight(tmpl);
    }

    /** The operator and its right operand. */
    method ParseExpressionAndRight(tmpl: Template) returns (r: Verdict)
      requires Reading() && tok.kind != Eof
      modifies this`tok, this`peekTok, this`havePeek, this`at, lexer, tmpl`bytecodes
      ensures lexer.inp == old(lexer.inp)
      ensures Agrees(r, Appended(eff(old(AsmOf(tmpl)), ParseAnd(old(Src()), old(at) + 1)), OrFn, 2), tmpl)
      decreases |toks| - at, 0
    {
      GetNextToken();
      r := ParseExpressionAnd(tmpl);
      if r != True {
        return;
      }
      AppendFunctionTo(tmpl, Fn(OrFn), 2);
    }

    method ParseExpressionAnd(tmpl: Template) returns (r: Verdict)
      requires Reading()
      modifies this`tok, this`peekTok, this`havePeek, this`at, lexer, tmpl`bytecodes
      ensures lexer.inp == old(lexer.inp)
      ensures Agrees(r, eff(old(AsmOf(tmpl)), ParseAnd(old(Src()), old(at))), tmpl)
      decreases |toks| - at, 4
    {
      ghost var g, asm, left := Src(), AsmOf(tmpl), ParseNot(Src(), at);
      Returns(eff, notation, asm, left);
      r := ParseExpressionNot(tmpl);
      if left.Took? && IsWord(g.toks[left.next], "and") {
        Binary(eff, notation, asm, left, ParseNot(g, Next(g, left.next)), AndFn);
      }
      if r != True {
        return;
      }
      if tok.kind != Id || tok.text != "and" {
        return;
      }
      r := ParseExpressionNotRight(tmpl);
    }

    /** The operator and its right operand. */
    method ParseExpressionNotRight(tmpl: Template) returns (r: Verdict)
      requires Reading() && tok.kind != Eof
      modifies this`tok, this`peekTok, this`havePeek, this`at, lexer, tmpl`bytecodes
      ensures lexer.inp == old(lexer.inp)
      ensures Agrees(r, Appended(eff(old(AsmOf(tmpl)), ParseNot(old(Src()), old(at) + 1)), AndFn, 2), tmpl)
      decreases |toks| - at, 0
    {
      GetNextToken();
      r := ParseExpressionNot(tmpl);
      if r != True {
        return;
      }
      AppendFunctionTo(tmpl, Fn(AndFn), 2);
    }

    method ParseExpressionNot(tmpl: Template) returns (r: Verdict)
      requires Reading()
      modifies this`tok, this`peekTok, this`havePeek, this`at, lexer, tmpl`bytecodes
      ensures lexer.inp == old(lexer.inp)
      ensures Agrees(r, eff(old(AsmOf(tmpl)), ParseNot(old(Src()), old(at))), tmpl)
      decreases |toks| - at, 3
    {
      if tok.kind == Id && tok.text == "not" {
        Unary(eff, notation, AsmOf(tmpl), ParseNot(Src(), at + 1), NotFn, 1);
        GetNextToken();
        r := ParseExpressionNot(tmpl);
        if r != True {
          return;
        }
        AppendFunctionTo(tmpl, Fn(NotFn), 1);
      } else {
        r := ParseExpressionComparison(tmpl);
      }
    }
    method ParseExpressionComparison(tmpl: Template) returns (r: Verdict)
      requires Reading()
      modifies this`tok, this`peekTok, this`havePeek, this`at, lexer, tmpl`bytecodes
      ensures lexer.inp == old(lexer.inp)
      ensures Agrees(r, eff(old(AsmOf(tmpl)), ParseComparison(old(Src()), old(at))), tmpl)
      decreases |toks| - at, 2
    {
      ghost var g, asm, left := Src(), AsmOf(tmpl), ParseDatum(Src(), at, at, 0, 0);
      Returns(eff, notation, asm, left);
      r := ParseExpressionDatum(tmpl);
      if left.Took? && Comparison(g.toks[left.next]).Some? {
        ghost var j := Next(g, left.next);
        Binary(eff, notation, asm, left, ParseDatum(g, j, j, 0, 0), Pure(Comparison(g.toks[left.next]).value));
      }
      if r != True {
        return;
      }
      var op := Comparison(tok);
      if op.None? {
        return;
      }
      r := ParseExpressionDatumRight(tmpl, op.value);
    }

    method ParseExpressionDatumRight(tmpl: Template, op: Builtin) returns (r: Verdict)
      requires Reading() && tok.kind != Eof
      modifies this`tok, this`peekTok, this`havePeek, this`at, lexer, tmpl`bytecodes
      ensures lexer.inp == old(lexer.inp)
      ensures Agrees(r, Appended(eff(old(AsmOf(tmpl)), ParseDatum(old(Src()), old(at) + 1, old(at) + 1, 0, 0)),
                                 Pure(op), 2), tmpl)
      decreases |toks| - at, 0
    {
      GetNextToken();
      r := ParseExpressionDatum(tmpl);
      if r != True {
        return;
      }
      AppendFunctionTo(tmpl, Fn(Pure(op)), 2);
    }

    method ParseExpressionDatum(tmpl: Template) returns (r: Verdict)
      requires Reading()
      modifies this`tok, this`peekTok, this`havePeek, this`at, lexer, tmpl`bytecodes
      ensures lexer.inp == old(lexer.inp)
      ensures Agrees(r, eff(old(AsmOf(tmpl)), ParseDatum(old(Src()), old(at), old(at), 0, 0)), tmpl)
      decreases |toks| - at, 1
    {
      ghost var goal := ParseDatum(Src(), at, at, 0, 0);
      var jsonFirst := tok;
      ghost var first: nat := at;
      var brackets: nat, braces: nat := 0, 0;
      while true
        invariant Reading() && lexer.inp == old(lexer.inp) && AsmOf(tmpl) == old(AsmOf(tmpl)) && old(at) <= at
        invariant first < |toks| && jsonFirst == toks[first]
        invariant ParseDatum(Src(), at, first, brackets, braces) == goal
        decreases |toks| - at
      {
        var done: bool;
        done, r, jsonFirst, first, brackets, braces := DatumToken(tmpl, jsonFirst, first, brackets, braces);
        if done {
          return;
        }
      }
    }

    /** One round of the datum loop. */
    method DatumToken(tmpl: Template, jsonFirst0: Token, ghost first0: nat, brackets0: nat, braces0: nat)
      returns (done: bool, r: Verdict, jsonFirst: Token, ghost first: nat, brackets: nat, braces: nat)
      requires Reading() && first0 < |toks| && jsonFirst0 == toks[first0]
      modifies this`tok, this`peekTok, this`havePeek, this`at, lexer, tmpl`bytecodes
      ensures lexer.inp == old(lexer.inp)
      ensures done ==>
                Agrees(r, eff(old(AsmOf(tmpl)), ParseDatum(old(Src()), old(at), first0, brackets0, braces0)), tmpl)
      ensures !done ==> Reading() && at == old(at) + 1 && AsmOf(tmpl) == old(AsmOf(tmpl))
      ensures !done ==> first < |toks| && jsonFirst == toks[first]
      ensures !done ==>
                ParseDatum(old(Src()), old(at), first0, brackets0, braces0)
                == ParseDatum(Src(), at, first, brackets, braces)
      decreases |toks| - at, 0, 2
    {
      done := true;
      jsonFirst, first, brackets, braces := jsonFirst0, first0, brackets0, braces0;
      if tok.kind == LeftParen {
        r := ParseParenthesized(tmpl);
      } else if tok.kind == Id {
        done, r := ParseId(tmpl, brackets == 0 && braces == 0, first, brackets, braces);
      } else {
        done, r, jsonFirst, first, brackets, braces := ParseJson(tmpl, jsonFirst, first, brackets, braces);
      }
      if !done {
        GetNextToken();
      }
    }

    /** Any other token: part of a JSON value, or its end. Not done means that it goes on. */
    method ParseJson(tmpl: Template, jsonFirst0: Token, ghost first0: nat, brackets0: nat, braces0: nat)
      returns (done: bool, r: Verdict, jsonFirst: Token, ghost first: nat, brackets: nat, braces: nat)
      requires Reading() && tok.kind != Id && tok.kind != LeftParen
      requires first0 < |toks| && jsonFirst0 == toks[first0]
      modifies this`tok, this`havePeek, this`at, lexer, tmpl`bytecodes
      ensures lexer.inp == old(lexer.inp)
      ensures done ==>
                Agrees(r, eff(old(AsmOf(tmpl)), ParseDatum(old(Src()), old(at), first0, brackets0, braces0)), tmpl)
      ensures !done ==> Reading() && at == old(at) && AsmOf(tmpl) == old(AsmOf(tmpl)) && tok.kind != Eof
      ensures !done ==> first < |toks| && jsonFirst == toks[first]
      ensures !done ==>
                ParseDatum(Src(), at, first0, brackets0, braces0) == ParseDatum(Src(), at + 1, first, brackets, braces)
    {
      done, r := false, True;
      jsonFirst, first, brackets, braces := jsonFirst0, first0, brackets0, braces0;
      var top := brackets == 0 && braces == 0;
      Nothing(eff, notation, AsmOf(tmpl), at);
      match tok.kind {
        case LeftBracket =>
          if top {
            jsonFirst, first := tok, at;
          }
          brackets := brackets + 1;
        case LeftBrace =>
          if top {
            jsonFirst, first := tok, at;
          }
          braces := braces + 1;
        case RightBracket =>
          if brackets == 0 {
            return true, Throw, jsonFirst, first, brackets, braces;
          }
          brackets := brackets - 1;
        case RightBrace =>
          if braces == 0 {
            return true, Throw, jsonFirst, first, brackets, braces;
          }
          braces := braces - 1;
        case Number =>
          if top {
            jsonFirst, first := tok, at;
          }
        case String =>
          if top {
            jsonFirst, first := tok, at;
          }
        case _ =>
          if tok.kind != Comma && tok.kind != Colon {
            return true, if top then False else Throw, jsonFirst, first, brackets, braces;
          }
          if top {
            return true, Throw, jsonFirst, first, brackets, braces;
          }
      }
      if brackets == 0 && braces == 0 {
        done := true;
        r := ReturnJson(tmpl, jsonFirst, first);
      }
    }

    /** An identifier where a datum is expected: a call, a lookup, or a JSON word. Not done means
        that it is a JSON word inside an array or object. */
    method ParseId(tmpl: Template, top: bool, ghost first: nat, ghost brackets: nat, ghost braces: nat)
      returns (done: bool, r: Verdict)
      requires Reading() && tok.kind == Id && first < |toks| && (top <==> brackets == 0 && braces == 0)
      modifies this`tok, this`peekTok, this`havePeek, this`at, lexer, tmpl`bytecodes
      ensures lexer.inp == old(lexer.inp)
      ensures done ==>
                Agrees(r, eff(old(AsmOf(tmpl)), ParseDatum(old(Src()), old(at), first, brackets, braces)), tmpl)
      ensures !done ==> Peeking() && at == old(at) && AsmOf(tmpl) == old(AsmOf(tmpl))
      ensures !done ==>
                (ParseDatum(Src(), at, first, brackets, braces) == ParseDatum(Src(), at + 1, first, brackets, braces))
      decreases |toks| - at, 0, 1
    {
      done := true;
      GetPeekToken();
      if peekTok.kind == LeftParen {
        r := ParseFunctionCall(tmpl);
      } else if tok.text == "true" || tok.text == "false" || tok.text == "null" {
        if top {
          r := ReturnJson(tmpl, tok, at);
        } else {
          done, r := false, False;
        }
      } else {
        r := PushId(tmpl);
      }
    }

    /** A literal from jsonFirst to the current token. */
    method ReturnJson(tmpl: Template, jsonFirst: Token, ghost first: nat) returns (r: Verdict)
      requires Reading() || Peeking()
      requires first < |toks| && jsonFirst == toks[first]
      modifies this`tok, this`havePeek, this`at, lexer, tmpl`bytecodes
      ensures lexer.inp == old(lexer.inp)
      ensures Agrees(r, eff(old(AsmOf(tmpl)), Literal(old(Src()), first, old(at))), tmpl)
    {
      Nothing(eff, notation, AsmOf(tmpl), at);
      Pushes(eff, notation, AsmOf(tmpl), Next(Src(), at));
      var v := parseJson(JsonText(lexer.inp, jsonFirst, tok));
      if v.None? {
        return Throw;
      }
      tmpl.bytecodes := tmpl.bytecodes + [PushLiteral(v.value)];
      GetNextToken();
      return True;
    }

    method PushId(tmpl: Template) returns (r: Verdict)
      requires Peeking()
      modifies this`tok, this`havePeek, this`at, lexer, tmpl`bytecodes
      ensures lexer.inp == old(lexer.inp)
      ensures Agrees(r, eff(old(AsmOf(tmpl)), Took(old(at) + 1, [PushVar(old(tok).text)])), tmpl)
    {
      Pushes(eff, notation, AsmOf(tmpl), at + 1);
      tmpl.bytecodes := tmpl.bytecodes + [PushLookup(notation, tok.text)];
      GetNextToken();
      return True;
    }

    method ParseParenthesized(tmpl: Template) returns (r: Verdict)
      requires Reading() && tok.kind == LeftParen
      modifies this`tok, this`peekTok, this`havePeek, this`at, lexer, tmpl`bytecodes
      ensures lexer.inp == old(lexer.inp)
      ensures Agrees(r, eff(old(AsmOf(tmpl)), ParseParens(old(Src()), old(at))), tmpl)
      decreases |toks| - at, 0, 0
    {
      ghost var g, asm, inner := Src(), AsmOf(tmpl), ParseOr(Src(), at + 1);
      Returns(eff, notation, asm, inner);
      Escalates(eff, notation, asm, inner);
      if inner.Took? {
        Steps(eff, notation, asm, inner, Next(g, inner.next));
      }
      GetNextToken();
      r := ParseExpression(tmpl);
      if r != True {
        return;
      }
      if tok.kind != RightParen {
        return Throw;
      }
      GetNextToken();
    }

    method ParseFunctionCall(tmpl: Template) returns (r: Verdict)
      requires Peeking() && tok.kind == Id && peekTok.kind == LeftParen
      modifies this`tok, this`peekTok, this`havePeek, this`at, lexer, tmpl`bytecodes
      ensures lexer.inp == old(lexer.inp)
      ensures Agrees(r, eff(old(AsmOf(tmpl)), ParseCall(old(Src()), old(at))), tmpl)
      decreases |toks| - at, 0, 0
    {
      var name := tok.text;
      SkipNameAndParen();
      if tok.kind == RightParen {
        r := ParseEmptyCall(tmpl, name);
      } else {
        r := ParseArgumentsOf(tmpl, name);
      }
    }

    method SkipNameAndParen()
      requires Peeking() && tok.kind == Id && peekTok.kind == LeftParen
      modifies this`tok, this`havePeek, this`at, lexer
      ensures Reading() && lexer.inp == old(lexer.inp) && at == old(at) + 2
    {
      GetNextToken();
      GetNextToken();
    }

    method ParseEmptyCall(tmpl: Template, name: string) returns (r: Verdict)
      requires Reading() && tok.kind == RightParen
      modifies this`tok, this`havePeek, this`at, lexer, tmpl`bytecodes
      ensures lexer.inp == old(lexer.inp)
      ensures Agrees(r, eff(old(AsmOf(tmpl)), Took(Next(old(Src()), old(at)), CallActs(old(Src()), name, 0))), tmpl)
    {
      GetNextToken();
      Calls(eff, notation, AsmOf(tmpl), Src(), at, name, 0);
      r := EmitCallOf(tmpl, name, 0);
    }

    /** The arguments of a call, and the call. */
    method ParseArgumentsOf(tmpl: Template, name: string) returns (r: Verdict)
      requires Reading()
      modifies this`tok, this`peekTok, this`havePeek, this`at, lexer, tmpl`bytecodes
      ensures lexer.inp == old(lexer.inp)
      ensures Agrees(r, eff(old(AsmOf(tmpl)), CallAfter(old(Src()), name, ParseArgs(old(Src()), old(at), 0))), tmpl)
      decreases |toks| - at, 7
    {
      ghost var g, asm, args := Src(), AsmOf(tmpl), ParseArgs(Src(), at, 0);
      Returns(eff, notation, asm, AsParsed(args));
      CallAfterArgs(eff, notation, asm, g, name, args);
      var n: nat;
      r, n := ParseArguments(tmpl);
      if r != True {
        return;
      }
      Calls(eff, notation, AsmOf(tmpl), g, at, name, n);
      r := EmitCallOf(tmpl, name, n);
    }

    /** The end of a call: a built-in function, swapping the arguments of default, or a callback. */
    method EmitCallOf(tmpl: Template, name: string, n: nat) returns (r: Verdict)
      requires Reading()
      modifies tmpl`bytecodes
      ensures Agrees(r, CallEffect(Src(), old(AsmOf(tmpl)), at, name, n), tmpl)
    {
      if (name, n) in builtins {
        var f := builtins[(name, n)];
        if f == DefaultFn {
          var size := |tmpl.bytecodes|;
          if size < 2 {
            return Undef;
          }
          tmpl.bytecodes := tmpl.bytecodes[..size - 2] + [tmpl.bytecodes[size - 1], tmpl.bytecodes[size - 2]];
        }
        AppendFunctionTo(tmpl, Fn(f), n);
      } else {
        AppendCallbackTo(tmpl, name, n);
      }
      return True;
    }

    /** Arguments up to the closing parenthesis, counted. */
    method ParseArguments(tmpl: Template) returns (r: Verdict, n: nat)
      requires Reading()
      modifies this`tok, this`peekTok, this`havePeek, this`at, lexer, tmpl`bytecodes
      ensures lexer.inp == old(lexer.inp)
      ensures var args := ParseArgs(old(Src()), old(at), 0);
              && Agrees(r, eff(old(AsmOf(tmpl)), AsParsed(args)), tmpl)
              && (r == True ==> args.Args? && n == args.n)
      decreases |toks| - at, 6
    {
      ghost var g, goal := Src(), ParseArgs(Src(), at, 0);
      n := 0;
      while true
        invariant Reading() && lexer.inp == old(lexer.inp) && old(at) <= at
        invariant eff(AsmOf(tmpl), AsParsed(ParseArgs(g, at, n))) == eff(old(AsmOf(tmpl)), AsParsed(goal))
        invariant goal.Args? <==> ParseArgs(g, at, n).Args?
        invariant goal.Args? ==> goal.n == ParseArgs(g, at, n).n
        decreases |toks| - at
      {
        ghost var arg := ParseOr(g, at);
        Argument(eff, notation, AsmOf(tmpl), g, at, n);
        Returns(eff, notation, AsmOf(tmpl), arg);
        r := ParseExpression(tmpl);
        if r == Throw || r == Undef {
          return;
        }
        if r == False {
          return Throw, n;
        }
        n := n + 1;
        if tok.kind == RightParen {
          GetNextToken();
          return;
        }
        if tok.kind != Comma {
          return Throw, n;
        }
        GetNextToken();
      }
    }

    // ----- statements -----

    method ParseStatement(tmpl: Template) returns (r: Verdict)
      requires Reading()
      modifies this`tok, this`peekTok, this`havePeek, this`at, this`ifStack, this`loopStack, lexer, tmpl`bytecodes
      ensures lexer.inp == old(lexer.inp)
      ensures Agrees(r, eff(old(AsmOf(tmpl)), Grammar.ParseStatement(old(Src()), old(at))), tmpl)
    {
      Nothing(eff, notation, AsmOf(tmpl), at);
      if tok.kind != Id {
        return False;
      }
      if tok.text == "if" {
        r := ParseIf(tmpl);
      } else if tok.text == "endif" {
        r := ParseEndif(tmpl);
      } else if tok.text == "else" {
        r := ParseElse(tmpl);
      } else if tok.text == "for" {
        r := ParseForStatement(tmpl);
      } else if tok.text == "endfor" {
        r := ParseEndfor(tmpl);
      } else if tok.text == "include" {
        return Throw;
      } else {
        return False;
      }
    }

    method ParseIf(tmpl: Template) returns (r: Verdict)
      requires Reading() && tok.kind != Eof
      modifies this`tok, this`peekTok, this`havePeek, this`at, this`ifStack, lexer, tmpl`bytecodes
      ensures lexer.inp == old(lexer.inp)
      ensures Agrees(r, eff(old(AsmOf(tmpl)), AndEmit(ParseOr(old(Src()), old(at) + 1), [OpenIf])), tmpl)
    {
      Acts1(eff, notation, AsmOf(tmpl), ParseOr(Src(), at + 1), OpenIf);
      GetNextToken();
      r := ParseExpression(tmpl);
      if r != True {
        return;
      }
      ifStack := ifStack + [IfData(Some(|tmpl.bytecodes|), [])];
      tmpl.bytecodes := tmpl.bytecodes + [Instr(ConditionalJump, 0)];
    }

    method ParseEndif(tmpl: Template) returns (r: Verdict)
      requires Reading() && tok.kind != Eof
      modifies this`tok, this`havePeek, this`at, this`ifStack, lexer, tmpl`bytecodes
      ensures lexer.inp == old(lexer.inp)
      ensures Agrees(r, eff(old(AsmOf(tmpl)), Took(old(at) + 1, [CloseIf])), tmpl)
    {
      Single(eff, notation, AsmOf(tmpl), at + 1, CloseIf);
      if ifStack == [] {
        return Throw;
      }
      GetNextToken();
      r := CloseIfOn(tmpl);
    }

    /** Patches all that the innermost if still holds, and forgets it. */
    method CloseIfOn(tmpl: Template) returns (r: Verdict)
      requires ifStack != []
      modifies this`ifStack, tmpl`bytecodes
      ensures match DoCloseIf(old(AsmOf(tmpl)))
              case Fine(asm) => r == True && AsmOf(tmpl) == asm
              case Rejected => r == Throw
              case Broken => r == Undef
    {
      var data := ifStack[|ifStack| - 1];
      if !InRange(data, |tmpl.bytecodes|) {
        return Undef;
      }
      if data.prev.Some? {
        tmpl.bytecodes := Patch(tmpl.bytecodes, data.prev.value, |tmpl.bytecodes|);
      }
      ghost var code := tmpl.bytecodes;
      for k := 0 to |data.jumps|
        invariant ifStack == old(ifStack) && tmpl.bytecodes == PatchAll(code, data.jumps, k, |code|)
      {
        tmpl.bytecodes := Patch(tmpl.bytecodes, data.jumps[k], |tmpl.bytecodes|);
      }
      ifStack := ifStack[..|ifStack| - 1];
      return True;
    }

    method ParseElse(tmpl: Template) returns (r: Verdict)
      requires Reading() && tok.kind != Eof
      modifies this`tok, this`peekTok, this`havePeek, this`at, this`ifStack, lexer, tmpl`bytecodes
      ensures lexer.inp == old(lexer.inp)
      ensures Agrees(r, eff(old(AsmOf(tmpl)), ElseTag(old(Src()), old(at))), tmpl)
    {
      ghost var g, i, asm := Src(), at, AsmOf(tmpl);
      Single(eff, notation, asm, i + 1, BeginElse);
      if ifStack == [] {
        ElseStuck(eff, notation, asm, g, i);
        return Throw;
      }
      GetNextToken();
      r := BeginElseOn(tmpl);
      if r != True {
        ElseStuck(eff, notation, asm, g, i);
        return;
      }
      if tok.kind == Id && tok.text == "if" {
        Sequel(eff, notation, asm, Took(i + 1, [BeginElse]), AndEmit(ParseOr(g, i + 2), [ChainIf]));
        r := ParseChainedIf(tmpl);
      }
    }

    /** Ends the branch before an else with a jump, and sends its condition's jump here. */
    method BeginElseOn(tmpl: Template) returns (r: Verdict)
      requires ifStack != []
      modifies this`ifStack, tmpl`bytecodes
      ensures match DoBeginElse(old(AsmOf(tmpl)))
              case Fine(asm) => r == True && AsmOf(tmpl) == asm
              case Rejected => r == Throw
              case Broken => r == Undef
    {
      var data := ifStack[|ifStack| - 1];
      if data.prev.None? || !InRange(data, |tmpl.bytecodes|) {
        return Undef;
      }
      ifStack := ifStack[..|ifStack| - 1] + [IfData(None, data.jumps + [|tmpl.bytecodes|])];
      tmpl.bytecodes := tmpl.bytecodes + [Instr(Jump, 0)];
      tmpl.bytecodes := Patch(tmpl.bytecodes, data.prev.value, |tmpl.bytecodes|);
      return True;
    }

    method ParseChainedIf(tmpl: Template) returns (r: Verdict)
      requires Reading() && tok.kind != Eof && ifStack != []
      modifies this`tok, this`peekTok, this`havePeek, this`at, this`ifStack, lexer, tmpl`bytecodes
      ensures lexer.inp == old(lexer.inp)
      ensures Agrees(r, eff(old(AsmOf(tmpl)), AndEmit(ParseOr(old(Src()), old(at) + 1), [ChainIf])), tmpl)
    {
      Acts1(eff, notation, AsmOf(tmpl), ParseOr(Src(), at + 1), ChainIf);
      GetNextToken();
      r := ParseExpression(tmpl);
      if r != True {
        return;
      }
      var data := ifStack[|ifStack| - 1];
      ifStack := ifStack[..|ifStack| - 1] + [data.(prev := Some(|tmpl.bytecodes|))];
      tmpl.bytecodes := tmpl.bytecodes + [Instr(ConditionalJump, 0)];
    }

    method ParseEndfor(tmpl: Template) returns (r: Verdict)
      requires Reading() && tok.kind != Eof
      modifies this`tok, this`havePeek, this`at, this`loopStack, lexer, tmpl`bytecodes
      ensures lexer.inp == old(lexer.inp)
      ensures Agrees(r, eff(old(AsmOf(tmpl)), Took(old(at) + 1, [CloseFor])), tmpl)
    {
      Single(eff, notation, AsmOf(tmpl), at + 1, CloseFor);
      GetNextToken();
      if loopStack == [] {
        return Throw;
      }
      var start := loopStack[|loopStack| - 1];
      if start >= |tmpl.bytecodes| {
        return Undef;
      }
      tmpl.bytecodes := Patch(tmpl.bytecodes, start, |tmpl.bytecodes|) + [Instr(EndLoop, start + 1)];
      loopStack := loopStack[..|loopStack| - 1];
      return True;
    }

    method ParseForStatement(tmpl: Template) returns (r: Verdict)
      requires Reading() && tok.kind != Eof
      modifies this`tok, this`peekTok, this`havePeek, this`at, this`loopStack, lexer, tmpl`bytecodes
      ensures lexer.inp == old(lexer.inp)
      ensures Agrees(r, eff(old(AsmOf(tmpl)), ParseFor(old(Src()), old(at) + 1)), tmpl)
    {
      Nothing(eff, notation, AsmOf(tmpl), at);
      GetNextToken();
      if tok.kind != Id {
        return Throw;
      }
      var valueToken := tok;
      GetNextToken();
      var key := "";
      if tok.kind == Comma {
        GetNextToken();
        if tok.kind != Id {
          return Throw;
        }
        key := valueToken.text;
        valueToken := tok;
        GetNextToken();
      }
      r := ParseForRest(tmpl, VarsOf(key, valueToken.text));
    }

    method ParseForRest(tmpl: Template, vars: LoopVars) returns (r: Verdict)
      requires Reading()
      modifies this`tok, this`peekTok, this`havePeek, this`at, this`loopStack, lexer, tmpl`bytecodes
      ensures lexer.inp == old(lexer.inp)
      ensures Agrees(r, eff(old(AsmOf(tmpl)), ParseForIn(old(Src()), old(at), vars)), tmpl)
    {
      Nothing(eff, notation, AsmOf(tmpl), at);
      if tok.kind != Id || tok.text != "in" {
        return Throw;
      }
      Acts1(eff, notation, AsmOf(tmpl), ParseOr(Src(), at + 1), OpenFor(vars));
      GetNextToken();
      r := ParseExpression(tmpl);
      if r != True {
        return;
      }
      loopStack := loopStack + [|tmpl.bytecodes|];
      tmpl.bytecodes := tmpl.bytecodes + [StartInstr(vars)];
    }

    // ----- templates -----

    method ParseTagOf(tmpl: Template) returns (r: Verdict)
      requires Reading() && (tok.kind == StatementOpen || tok.kind == LineStatementOpen)
      modifies this`tok, this`peekTok, this`havePeek, this`at, this`ifStack, this`loopStack, lexer, tmpl`bytecodes
      ensures lexer.inp == old(lexer.inp)
      ensures Agrees(r, eff(old(AsmOf(tmpl)), ParseTag(old(Src()), old(at))), tmpl)
    {
      Tags(eff, notation, AsmOf(tmpl), Src(), at);
      var line := tok.kind == LineStatementOpen;
      GetNextToken();
      r := ParseStatement(tmpl);
      if r == Throw || r == Undef {
        return;
      }
      if line {
        return if tok.kind != LineStatementClose && tok.kind != Eof then Throw else True;
      }
      if r == False || tok.kind != StatementClose {
        return Throw;
      }
    }

    method ParsePrintOf(tmpl: Template) returns (r: Verdict)
      requires Reading() && tok.kind == ExpressionOpen
      modifies this`tok, this`peekTok, this`havePeek, this`at, lexer, tmpl`bytecodes
      ensures lexer.inp == old(lexer.inp)
      ensures Agrees(r, eff(old(AsmOf(tmpl)), ParsePrint(old(Src()), old(at))), tmpl)
    {
      Prints(eff, notation, AsmOf(tmpl), Src(), at);
      GetNextToken();
      r := ParseExpression(tmpl);
      if r == False {
        return Throw;
      }
      if r != True {
        return;
      }
      AppendFunctionTo(tmpl, PrintValue, 1);
      if tok.kind != ExpressionClose {
        return Throw;
      }
    }

    method ParsePieceOf(tmpl: Template) returns (r: Verdict)
      requires Reading() && tok.kind != Eof
      modifies this`tok, this`peekTok, this`havePeek, this`at, this`ifStack, this`loopStack, lexer, tmpl`bytecodes
      ensures lexer.inp == old(lexer.inp)
      ensures Agrees(r, eff(old(AsmOf(tmpl)), ParsePiece(old(Src()), old(at))), tmpl)
    {
      match tok.kind
      case TextKind =>
        Single(eff, notation, AsmOf(tmpl), at, EmitText(tok.text));
        tmpl.bytecodes := tmpl.bytecodes + [TextInstr(tok.text)];
        r := True;
      case StatementOpen => r := ParseTagOf(tmpl);
      case LineStatementOpen => r := ParseTagOf(tmpl);
      case ExpressionOpen => r := ParsePrintOf(tmpl);
      case CommentOpen =>
        Nothing(eff, notation, AsmOf(tmpl), at + 1);
        GetNextToken();
        r := if tok.kind == CommentClose then True else Throw;
      case _ =>
        Nothing(eff, notation, AsmOf(tmpl), at);
        r := Throw;
    }

    /** The scanner at the start of a source, and its first token. */
    method StartReading(source: string)
      requires Knows() && Usable(lexer.cfg) && !havePeek
      modifies this`tok, this`at, this`toks, lexer
      ensures lexer.inp == source && Reading() && at == 0
      ensures toks == Tokenize(lexer.cfg, source)
    {
      lexer.Start(source);
      toks, at := Tokenize(lexer.cfg, source), 0;
      AheadOne(lexer.cfg, source, lexer.State(), toks, 0);
      tok := lexer.Scan();
      assert Spied(lexer.State(), Src(), 0);
    }

    method ParseInto(tmpl: Template) returns (r: Verdict)
      requires Knows() && Usable(lexer.cfg) && Idle() && tmpl.bytecodes == []
      modifies this`tok, this`peekTok, this`havePeek, this`at, this`toks, this`ifStack, this`loopStack
      modifies lexer, tmpl`bytecodes
      ensures match Parse(Source(tmpl.content, Tokenize(lexer.cfg, tmpl.content), builtins, parseJson), notation)
              case Accepted(code) => r == True && tmpl.bytecodes == code && Idle()
              case ParserError => r == Throw
              case Undefined => r == Undef
    {
      StartReading(tmpl.content);
      Outcomes(eff, notation, Src());
      r := ParsePieces(tmpl);
    }

    method ParsePieces(tmpl: Template) returns (r: Verdict)
      requires Reading()
      modifies this`tok, this`peekTok, this`havePeek, this`at, this`ifStack, this`loopStack, lexer, tmpl`bytecodes
      ensures match OutcomeOfEffect(eff(old(AsmOf(tmpl)), ParseTemplate(old(Src()), old(at))))
              case Accepted(code) => r == True && tmpl.bytecodes == code && Idle()
              case ParserError => r == Throw
              case Undefined => r == Undef
    {
      ghost var goal := eff(AsmOf(tmpl), ParseTemplate(Src(), at));
      while true
        invariant Reading() && lexer.inp == old(lexer.inp)
        invariant eff(AsmOf(tmpl), ParseTemplate(Src(), at)) == goal
        decreases |toks| - at
      {
        if tok.kind == Eof {
          Nothing(eff, notation, AsmOf(tmpl), at);
          return if ifStack != [] || loopStack != [] then Throw else True;
        }
        r := ParseOnePiece(tmpl);
        if r != True {
          return;
        }
      }
    }

    /** A piece, and the token after it. */
    method ParseOnePiece(tmpl: Template) returns (r: Verdict)
      requires Reading() && tok.kind != Eof
      modifies this`tok, this`peekTok, this`havePeek, this`at, this`ifStack, this`loopStack, lexer, tmpl`bytecodes
      ensures lexer.inp == old(lexer.inp)
      ensures var e := eff(old(AsmOf(tmpl)), ParseTemplate(old(Src()), old(at)));
              && (r == True ==> Reading() && old(at) < at && eff(AsmOf(tmpl), ParseTemplate(Src(), at)) == e)
              && (r == Throw ==> e == Thrown) && (r == Undef ==> e == Gone) && r != False
    {
      Pieces(eff, notation, AsmOf(tmpl), Src(), at);
      Returns(eff, notation, AsmOf(tmpl), ParsePiece(Src(), at));
      r := ParsePieceOf(tmpl);
      if r == True {
        GetNextToken();
      }
    }

    /** A template's text, parsed by this parser: the same outcome as a fresh parser's, and when
        it is accepted the parser is ready for another. */
    method ParseText(content: string) returns (r: Verdict, tmpl: Template)
      requires Knows() && Usable(lexer.cfg) && Idle()
      modifies this`tok, this`peekTok, this`havePeek, this`at, this`toks, this`ifStack, this`loopStack, lexer
      ensures fresh(tmpl) && tmpl.content == content
      ensures match Parse(Source(content, Tokenize(lexer.cfg, content), builtins, parseJson), notation)
              case Accepted(code) => r == True && tmpl.bytecodes == code && Idle()
              case ParserError => r == Throw
              case Undefined => r == Undef
    {
      tmpl := new Template(content);
      r := ParseInto(tmpl);
    }
  }
}
