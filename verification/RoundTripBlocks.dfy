/** Parser faithfulness for whole templates. */
module RoundTripBlocks {
  import opened Bytecodes
  import opened Tokens
  import opened Syntax
  import opened Assembler
  import opened Grammar
  import opened Linear
  import opened RoundTrip

  /** A source whose tokens stand for its text, and some of the patterns it holds with more to come. */
  ghost predicate Holds(g: Source, i: nat, ps: seq<Pattern>) {
    Ended(g) && Faithful(g) && Reads(g, i, ps) && i + |ps| < |g.toks|
  }

  lemma {:induction false} HoldsSplit(g: Source, i: nat, a: seq<Pattern>, b: seq<Pattern>)
    requires Holds(g, i, a + b)
    ensures Holds(g, i, a) && Holds(g, i + |a|, b)
  {
    ReadsSplit(g, i, a, b);
  }

  // ----- sequencing -----

  lemma {:induction false} AfterNothing(r: Parsed)
    ensures After([], r) == r
  {
    assert [] + r.acts == r.acts;
  }

  lemma {:induction false} AfterTwice(xs: seq<Action>, ys: seq<Action>, r: Parsed)
    ensures After(xs, After(ys, r)) == After(xs + ys, r)
  {
    assert xs + (ys + r.acts) == (xs + ys) + r.acts;
  }

  // How a template is parsed from each position on. It is kept abstract: a piece is all that the
  // lemmas about statements need to know of it.

  predicate Reached(i: nat) {
    true
  }

  ghost predicate Parses(parse: nat -> Parsed, g: Source) {
    Ended(g) && forall i: nat {:trigger Reached(i)} :: Reached(i) && i < |g.toks| ==> parse(i) == ParseTemplate(g, i)
  }

  /** The template from i on starts with tokens that end at j and make these emissions. */
  predicate Leads(parse: nat -> Parsed, i: nat, j: nat, acts: seq<Action>) {
    parse(i) == After(acts, parse(j))
  }

  lemma {:induction false} LeadsNowhere(parse: nat -> Parsed, i: nat)
    ensures Leads(parse, i, i, [])
  {
    AfterNothing(parse(i));
  }

  lemma {:induction false} LeadsOn(parse: nat -> Parsed, i: nat, j: nat, k: nat, xs: seq<Action>, ys: seq<Action>)
    requires Leads(parse, i, j, xs) && Leads(parse, j, k, ys)
    ensures Leads(parse, i, k, xs + ys)
  {
    AfterTwice(xs, ys, parse(k));
  }

  lemma {:induction false} PieceLeads(parse: nat -> Parsed, g: Source, i: nat, last: nat, acts: seq<Action>)
    requires Parses(parse, g) && At(g, i) && KindAt(g, i) != Eof && last + 1 < |g.toks|
    requires ParsePiece(g, i) == Took(last, acts)
    ensures Leads(parse, i, last + 1, acts)
  {
    assert Reached(i) && Reached(last + 1);
  }

  // ----- tags -----

  /** A tag around a statement that the statement parser takes whole. */
  lemma {:induction false} TagLeads(parse: nat -> Parsed, g: Source, i: nat, d: Delim, inner: seq<Pattern>,
                                    acts: seq<Action>)
    requires Parses(parse, g)
    requires Holds(g, i, Tag(d, inner))
    requires ParseStatement(g, i + 1) == Took(i + 1 + |inner|, acts)
    ensures Leads(parse, i, i + |Tag(d, inner)|, acts)
  {
    ReadsFirst(g, i, OpenOf(d), inner + [CloseOf(d)]);
    ReadsAround(g, i + 1, inner, CloseOf(d), []);
    var close := i + 1 + |inner|;
    assert ParseTag(g, i) == Took(close, acts);
    PieceLeads(parse, g, i, close, acts);
  }

  /** What a tag's inside is followed by stops any expression. */
  lemma {:induction false} InsideTag(g: Source, i: nat, d: Delim, inner: seq<Pattern>)
    requires Holds(g, i, Tag(d, inner))
    ensures Reads(g, i + 1, inner) && i + 1 + |inner| + 1 < |g.toks| && Stop(0, g.toks[i + 1 + |inner|])
  {
    ReadsFirst(g, i, OpenOf(d), inner + [CloseOf(d)]);
    ReadsAround(g, i + 1, inner, CloseOf(d), []);
  }

  lemma {:induction false} WordLeads(parse: nat -> Parsed, g: Source, i: nat, d: Delim, word: string, act: Action)
    requires Parses(parse, g)
    requires Holds(g, i, Tag(d, [Word(word)]))
    requires (word == "endif" && act == CloseIf) || (word == "endfor" && act == CloseFor)
    ensures Leads(parse, i, i + |Tag(d, [Word(word)])|, [act])
  {
    InsideTag(g, i, d, [Word(word)]);
    ReadsOne(g, i + 1, Word(word));
    TagLeads(parse, g, i, d, [Word(word)], [act]);
  }

  lemma {:induction false} ElseLeads(parse: nat -> Parsed, g: Source, i: nat, d: Delim)
    requires Parses(parse, g)
    requires Holds(g, i, Tag(d, [Word("else")]))
    ensures Leads(parse, i, i + |Tag(d, [Word("else")])|, [BeginElse])
  {
    InsideTag(g, i, d, [Word("else")]);
    ReadsOne(g, i + 1, Word("else"));
    ReadsFirst(g, i, OpenOf(d), [Word("else")] + [CloseOf(d)]);
    ReadsAround(g, i + 1, [Word("else")], CloseOf(d), []);
    assert ParseStatement(g, i + 1) == Took(i + 2, [BeginElse]);
    TagLeads(parse, g, i, d, [Word("else")], [BeginElse]);
  }

  /** Inside a tag, a word or more and then patterns that end where the tag closes. */
  lemma {:induction false} Inside(g: Source, i: nat, d: Delim, front: seq<Pattern>, w: seq<Pattern>)
    requires Holds(g, i, Tag(d, front + w))
    ensures Reads(g, i + 1, front) && Followed(g, i + 1 + |front|, w, 0)
  {
    InsideTag(g, i, d, front + w);
    ReadsSplit(g, i + 1, front, w);
  }

  /** What one expression is read as. */
  ghost predicate Says(g: Source, i: nat, w: seq<Pattern>, acts: seq<Action>) {
    At(g, i) && ParseOr(g, i) == Took(i + |w|, acts)
  }

  lemma {:induction false} Speaks(g: Source, i: nat, e: Expr)
    requires Printable(g, e) && Followed(g, i, Written(e, 0), 0)
    ensures Says(g, i, Written(e, 0), Acts(e))
  {
    ExpressionRoundTrip(g, i, e);
  }

  lemma {:induction false} IfTag(parse: nat -> Parsed, g: Source, i: nat, d: Delim, w: seq<Pattern>, acts: seq<Action>)
    requires Parses(parse, g) && Holds(g, i, Tag(d, [Word("if")] + w)) && Says(g, i + 2, w, acts)
    ensures Leads(parse, i, i + |Tag(d, [Word("if")] + w)|, acts + [OpenIf])
  {
    Inside(g, i, d, [Word("if")], w);
    ReadsOne(g, i + 1, Word("if"));
    TagLeads(parse, g, i, d, [Word("if")] + w, acts + [OpenIf]);
  }

  lemma {:induction false} IfLeads(parse: nat -> Parsed, g: Source, i: nat, d: Delim, cond: Expr)
    requires Parses(parse, g)
    requires Printable(g, cond) && Holds(g, i, Tag(d, [Word("if")] + Written(cond, 0)))
    ensures Leads(parse, i, i + |Tag(d, [Word("if")] + Written(cond, 0))|, Acts(cond) + [OpenIf])
  {
    Inside(g, i, d, [Word("if")], Written(cond, 0));
    Speaks(g, i + 2, cond);
    IfTag(parse, g, i, d, Written(cond, 0), Acts(cond));
  }

  lemma {:induction false} ElseIfTag(parse: nat -> Parsed, g: Source, i: nat, d: Delim, w: seq<Pattern>,
                                     acts: seq<Action>)
    requires Parses(parse, g) && Holds(g, i, Tag(d, [Word("else"), Word("if")] + w)) && Says(g, i + 3, w, acts)
    ensures Leads(parse, i, i + |Tag(d, [Word("else"), Word("if")] + w)|, [BeginElse] + (acts + [ChainIf]))
  {
    var front := [Word("else"), Word("if")];
    Inside(g, i, d, front, w);
    assert front == [Word("else")] + [Word("if")];
    ReadsFirst(g, i + 1, Word("else"), [Word("if")]);
    ReadsOne(g, i + 2, Word("if"));
    assert ParseStatement(g, i + 1) == After([BeginElse], Took(i + 3 + |w|, acts + [ChainIf]));
    TagLeads(parse, g, i, d, front + w, [BeginElse] + (acts + [ChainIf]));
  }

  lemma {:induction false} ElseIfLeads(parse: nat -> Parsed, g: Source, i: nat, d: Delim, cond: Expr)
    requires Parses(parse, g)
    requires Printable(g, cond) && Holds(g, i, Tag(d, [Word("else"), Word("if")] + Written(cond, 0)))
    ensures Leads(parse, i, i + |Tag(d, [Word("else"), Word("if")] + Written(cond, 0))|,
                  [BeginElse] + (Acts(cond) + [ChainIf]))
  {
    Inside(g, i, d, [Word("else"), Word("if")], Written(cond, 0));
    Speaks(g, i + 3, cond);
    ElseIfTag(parse, g, i, d, Written(cond, 0), Acts(cond));
  }

  lemma {:induction false} ForTag(parse: nat -> Parsed, g: Source, i: nat, d: Delim, vars: LoopVars,
                                  w: seq<Pattern>, acts: seq<Action>)
    requires Parses(parse, g) && (vars.PairVars? ==> vars.key != "")
    requires Holds(g, i, Tag(d, ForFront(vars) + w)) && Says(g, i + 1 + |ForFront(vars)|, w, acts)
    ensures Leads(parse, i, i + |Tag(d, ForFront(vars) + w)|, acts + [OpenFor(vars)])
  {
    var front := ForFront(vars);
    Inside(g, i, d, front, w);
    ReadsFirst(g, i + 1, Word("for"), WrittenVars(vars) + [Word("in")]);
    ReadsSplit(g, i + 2, WrittenVars(vars), [Word("in")]);
    ReadsOne(g, i + 2 + |WrittenVars(vars)|, Word("in"));
    VarsTake(g, i + 2, vars, acts, i + 1 + |front + w|);
    ForTakes(g, i + 1);
    TagLeads(parse, g, i, d, front + w, acts + [OpenFor(vars)]);
  }

  lemma {:induction false} ForTakes(g: Source, i: nat)
    requires At(g, i) && i + 1 < |g.toks| && IsWord(g.toks[i], "for")
    ensures ParseStatement(g, i) == ParseFor(g, i + 1)
  {
  }

  lemma {:induction false} ForLeads(parse: nat -> Parsed, g: Source, i: nat, d: Delim, vars: LoopVars, e: Expr)
    requires Parses(parse, g)
    requires Printable(g, e) && (vars.PairVars? ==> vars.key != "")
    requires Holds(g, i, Tag(d, ForFront(vars) + Written(e, 0)))
    ensures Leads(parse, i, i + |Tag(d, ForFront(vars) + Written(e, 0))|, Acts(e) + [OpenFor(vars)])
  {
    Inside(g, i, d, ForFront(vars), Written(e, 0));
    Speaks(g, i + 1 + |ForFront(vars)|, e);
    ForTag(parse, g, i, d, vars, Written(e, 0), Acts(e));
  }

  lemma {:induction false} VarsTake(g: Source, i: nat, vars: LoopVars, acts: seq<Action>, next: nat)
    requires At(g, i) && (vars.PairVars? ==> vars.key != "") && Reads(g, i, WrittenVars(vars))
    requires var j := i + |WrittenVars(vars)|;
             j + 1 < |g.toks| && IsWord(g.toks[j], "in") && ParseOr(g, j + 1) == Took(next, acts)
    ensures ParseFor(g, i) == Took(next, acts + [OpenFor(vars)])
  {
    match vars
    case ItemVar(value) => ReadsOne(g, i, Word(value));
    case PairVars(key, value) =>
      assert WrittenVars(vars) == [Word(key)] + ([OfKind(Comma)] + [Word(value)]);
      ReadsAround(g, i, [Word(key)], OfKind(Comma), [Word(value)]);
      ReadsOne(g, i, Word(key));
      ReadsOne(g, i + 2, Word(value));
  }

  lemma {:induction false} PrintTag(parse: nat -> Parsed, g: Source, i: nat, w: seq<Pattern>, acts: seq<Action>)
    requires Parses(parse, g)
    requires Holds(g, i, [OfKind(ExpressionOpen)] + (w + [OfKind(ExpressionClose)]))
    requires At(g, i + 1) && (Followed(g, i + 1, w, 0) ==> Says(g, i + 1, w, acts))
    ensures Leads(parse, i, i + 1 + |w| + 1, acts + [EmitPrint])
  {
    ReadsFirst(g, i, OfKind(ExpressionOpen), w + [OfKind(ExpressionClose)]);
    ReadsAround(g, i + 1, w, OfKind(ExpressionClose), []);
    assert ParsePrint(g, i) == Took(i + 1 + |w|, acts + [EmitPrint]);
    PieceLeads(parse, g, i, i + 1 + |w|, acts + [EmitPrint]);
  }

  lemma {:induction false} PrintLeads(parse: nat -> Parsed, g: Source, i: nat, e: Expr)
    requires Parses(parse, g)
    requires Printable(g, e) && Holds(g, i, WrittenStmt(Print(e)))
    ensures Leads(parse, i, i + |WrittenStmt(Print(e))|, Acts(e) + [EmitPrint])
  {
    var w := Written(e, 0);
    if Followed(g, i + 1, w, 0) {
      Speaks(g, i + 1, e);
    }
    PrintTag(parse, g, i, w, Acts(e));
  }

  lemma {:induction false} TextLeads(parse: nat -> Parsed, g: Source, i: nat, text: string)
    requires Parses(parse, g)
    requires Holds(g, i, [Exactly(TextKind, text)])
    ensures Leads(parse, i, i + 1, [EmitText(text)])
  {
    ReadsOne(g, i, Exactly(TextKind, text));
    PieceLeads(parse, g, i, i, [EmitText(text)]);
  }

  lemma {:induction false} CommentLeads(parse: nat -> Parsed, g: Source, i: nat, text: string)
    requires Parses(parse, g)
    requires Holds(g, i, [OfKind(CommentOpen), Exactly(CommentClose, text)])
    ensures Leads(parse, i, i + 2, [])
  {
    assert [OfKind(CommentOpen), Exactly(CommentClose, text)] == [OfKind(CommentOpen)] + [Exactly(CommentClose, text)];
    ReadsFirst(g, i, OfKind(CommentOpen), [Exactly(CommentClose, text)]);
    ReadsOne(g, i + 1, Exactly(CommentClose, text));
    PieceLeads(parse, g, i, i + 1, []);
  }

  // ----- statements -----

  lemma {:induction false} BlockLeads(parse: nat -> Parsed, g: Source, i: nat, b: seq<Stmt>, k: nat)
    requires Parses(parse, g)
    requires k <= |b| && PrintableBlock(g, b) && Holds(g, i, WrittenBlock(b, k))
    ensures Leads(parse, i, i + |WrittenBlock(b, k)|, ActsBlock(b, k))
    decreases b, |b| - k
  {
    if k == |b| {
      LeadsNowhere(parse, i);
    } else {
      var first := WrittenStmt(b[k]);
      HoldsSplit(g, i, first, WrittenBlock(b, k + 1));
      StmtLeads(parse, g, i, b[k]);
      BlockLeads(parse, g, i + |first|, b, k + 1);
      LeadsOn(parse, i, i + |first|, i + |WrittenBlock(b, k)|, ActsStmt(b[k]), ActsBlock(b, k + 1));
    }
  }

  lemma {:induction false} StmtLeads(parse: nat -> Parsed, g: Source, i: nat, s: Stmt)
    requires Parses(parse, g)
    requires PrintableStmt(g, s) && Holds(g, i, WrittenStmt(s))
    ensures Leads(parse, i, i + |WrittenStmt(s)|, ActsStmt(s))
    decreases s
  {
    match s
    case Text(text) => TextLeads(parse, g, i, text);
    case Comment(text) => CommentLeads(parse, g, i, text);
    case Print(e) => PrintLeads(parse, g, i, e);
    case If(d, br) =>
      var tag := Tag(d, [Word("if")] + Written(br.cond, 0));
      HoldsSplit(g, i, tag, WrittenBranch(br));
      IfLeads(parse, g, i, d, br.cond);
      BranchLeads(parse, g, i + |tag|, br);
      LeadsOn(parse, i, i + |tag|, i + |WrittenStmt(s)|, Acts(br.cond) + [OpenIf],
              ActsBlock(br.thn, 0) + ActsElse(br.els));
    case For(d, vars, e, body, dEnd) =>
      var tag := Tag(d, ForFront(vars) + Written(e, 0));
      var rest := WrittenBlock(body, 0) + Tag(dEnd, [Word("endfor")]);
      HoldsSplit(g, i, tag, rest);
      ForLeads(parse, g, i, d, vars, e);
      BodyLeads(parse, g, i + |tag|, body, dEnd, "endfor", CloseFor);
      LeadsOn(parse, i, i + |tag|, i + |WrittenStmt(s)|, Acts(e) + [OpenFor(vars)], ActsBlock(body, 0) + [CloseFor]);
  }

  /** A block and the tag that closes it. */
  lemma {:induction false} BodyLeads(parse: nat -> Parsed, g: Source, i: nat, body: seq<Stmt>, dEnd: Delim,
                                     word: string, act: Action)
    requires Parses(parse, g)
    requires PrintableBlock(g, body) && Holds(g, i, WrittenBlock(body, 0) + Tag(dEnd, [Word(word)]))
    requires (word == "endif" && act == CloseIf) || (word == "endfor" && act == CloseFor)
    ensures Leads(parse, i, i + |WrittenBlock(body, 0) + Tag(dEnd, [Word(word)])|, ActsBlock(body, 0) + [act])
    decreases body
  {
    var w, tag := WrittenBlock(body, 0), Tag(dEnd, [Word(word)]);
    HoldsSplit(g, i, w, tag);
    BlockLeads(parse, g, i, body, 0);
    WordLeads(parse, g, i + |w|, dEnd, word, act);
    LeadsOn(parse, i, i + |w|, i + |w| + |tag|, ActsBlock(body, 0), [act]);
  }

  lemma {:induction false} BranchLeads(parse: nat -> Parsed, g: Source, i: nat, br: Branches)
    requires Parses(parse, g)
    requires PrintableBranches(g, br) && Holds(g, i, WrittenBranch(br))
    ensures Leads(parse, i, i + |WrittenBranch(br)|, ActsBlock(br.thn, 0) + ActsElse(br.els))
    decreases br
  {
    var w := WrittenBlock(br.thn, 0);
    HoldsSplit(g, i, w, WrittenElse(br.els));
    BlockLeads(parse, g, i, br.thn, 0);
    ElseRestLeads(parse, g, i + |w|, br.els);
    LeadsOn(parse, i, i + |w|, i + |WrittenBranch(br)|, ActsBlock(br.thn, 0), ActsElse(br.els));
  }

  lemma {:induction false} ElseRestLeads(parse: nat -> Parsed, g: Source, i: nat, els: Else)
    requires Parses(parse, g)
    requires PrintableElse(g, els) && Holds(g, i, WrittenElse(els))
    ensures Leads(parse, i, i + |WrittenElse(els)|, ActsElse(els))
    decreases els
  {
    match els
    case EndIf(d) => WordLeads(parse, g, i, d, "endif", CloseIf);
    case ElseDo(d, b, dEnd) =>
      var tag := Tag(d, [Word("else")]);
      HoldsSplit(g, i, tag, WrittenBlock(b, 0) + Tag(dEnd, [Word("endif")]));
      ElseLeads(parse, g, i, d);
      BodyLeads(parse, g, i + |tag|, b, dEnd, "endif", CloseIf);
      LeadsOn(parse, i, i + |tag|, i + |WrittenElse(els)|, [BeginElse], ActsBlock(b, 0) + [CloseIf]);
    case ElseIf(d, br) =>
      var tag := Tag(d, [Word("else"), Word("if")] + Written(br.cond, 0));
      HoldsSplit(g, i, tag, WrittenBranch(br));
      ElseIfLeads(parse, g, i, d, br.cond);
      BranchLeads(parse, g, i + |tag|, br);
      LeadsOn(parse, i, i + |tag|, i + |WrittenElse(els)|, [BeginElse] + (Acts(br.cond) + [ChainIf]),
              ActsBlock(br.thn, 0) + ActsElse(br.els));
  }

  /** Parser faithfulness: on the tokens of a written tree and the end of the source, the parser
      takes every token and makes exactly the tree's emissions. */
  lemma {:induction false} TemplateRoundTrip(g: Source, b: seq<Stmt>)
    requires PrintableBlock(g, b) && Holds(g, 0, WrittenBlock(b, 0)) && |g.toks| == |WrittenBlock(b, 0)| + 1
    ensures ParseTemplate(g, 0) == Took(|g.toks| - 1, ActsBlock(b, 0))
  {
    var parse := (i: nat) => if At(g, i) then ParseTemplate(g, i) else Threw([]);
    BlockLeads(parse, g, 0, b, 0);
    assert Reached(0) && Reached(|g.toks| - 1);
    assert ActsBlock(b, 0) + [] == ActsBlock(b, 0);
  }
}
