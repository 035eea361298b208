/** Templates written out as text: for every tree with proper names, a text that renders to what the
    tree means. */
module Writing {
  import opened Options
  import opened Json
  import opened Bytecodes
  import opened Tokens
  import opened Syntax
  import opened Compiler
  import opened Correctness
  import opened Lexing
  import opened Scanning
  import opened Linear
  import opened Spelling
  import opened EndToEnd
  import opened Grammar
  import Machine
  import RoundTrip

  // ----- trees that can be written -----

  /** Names that the scanner reads as names, and literals that it reads whole. */
  predicate Named(e: Expr)
    decreases e
  {
    match e
    case Lit(t, _) => IsInner(Exactly(t.kind, t.text))
    case Lookup(name) => IsName(name)
    case Apply(f, args) => |args| == Arity(f) && forall i | 0 <= i < |args| :: Named(args[i])
    case Call(name, args) => IsName(name) && forall i | 0 <= i < |args| :: Named(args[i])
  }

  predicate NamedVars(vars: LoopVars) {
    match vars
    case ItemVar(value) => IsName(value)
    case PairVars(key, value) => IsName(key) && IsName(value)
  }

  /** Tags between block delimiters, texts in which nothing opens and no two of them in a row. */
  predicate Spellable(b: seq<Stmt>, i: nat)
    requires i <= |b|
    decreases b, |b| - i
  {
    i == |b| || (&& SpellableStmt(b[i]) && Spellable(b, i + 1)
                 && (b[i].Text? && i + 1 < |b| ==> !b[i + 1].Text?))
  }

  predicate SpellableStmt(s: Stmt)
    decreases s
  {
    match s
    case Text(t) => IsPlain(t, true)
    case Comment(t) => IsCommentEnd(t)
    case Print(e) => Named(e)
    case If(d, br) => d == BlockTag && SpellableBranches(br)
    case For(d, vars, e, body, dEnd) =>
      d == BlockTag && dEnd == BlockTag && NamedVars(vars) && Named(e) && Spellable(body, 0)
  }

  predicate SpellableBranches(br: Branches)
    decreases br
  {
    Named(br.cond) && Spellable(br.thn, 0) && SpellableElse(br.els)
  }

  predicate SpellableElse(els: Else)
    decreases els
  {
    match els
    case EndIf(d) => d == BlockTag
    case ElseDo(d, b, dEnd) => d == BlockTag && dEnd == BlockTag && Spellable(b, 0)
    case ElseIf(d, br) => d == BlockTag && SpellableBranches(br)
  }

  // ----- their expressions are inner tokens -----

  predicate AllInner(ps: seq<Pattern>) {
    forall i | 0 <= i < |ps| :: IsInner(ps[i])
  }

  lemma {:induction false} InnerConcat(xs: seq<Pattern>, ys: seq<Pattern>)
    requires AllInner(xs) && AllInner(ys)
    ensures AllInner(xs + ys)
  {
  }

  lemma {:induction false} NameOfIsName(f: Function)
    ensures IsName(NameOf(f)) || (f.Pure? && IsInfix(f.builtin) && f.builtin != In)
  {
  }

  lemma {:induction false} SymbolIsInner(f: Function)
    requires f == OrFn || f == AndFn || f == NotFn || (f.Pure? && IsInfix(f.builtin))
    ensures IsInner(Symbol(f))
  {
  }

  lemma {:induction false} WrittenIsInner(e: Expr, level: nat)
    requires Named(e)
    ensures AllInner(Written(e, level))
    decreases e, 1, 0
  {
    BareIsInner(e);
    if Level(e) < level {
      InnerConcat(Bare(e), [OfKind(RightParen)]);
      InnerConcat([OfKind(LeftParen)], Bare(e) + [OfKind(RightParen)]);
    }
  }

  lemma {:induction false} BareIsInner(e: Expr)
    requires Named(e)
    ensures AllInner(Bare(e))
    decreases e, 0, 0
  {
    match e
    case Lit(_, _) =>
    case Lookup(_) =>
    case Apply(f, args) =>
      if f == OrFn {
        InfixIsInner(f, args, 1);
      } else if f == AndFn {
        InfixIsInner(f, args, 2);
      } else if f == NotFn {
        SymbolIsInner(f);
        WrittenIsInner(args[0], 2);
        InnerConcat([Symbol(f)], Written(args[0], 2));
      } else if Level(e) == 3 {
        InfixIsInner(f, args, 4);
      } else {
        NameOfIsName(f);
        CallIsInner(NameOf(f), args);
      }
    case Call(name, args) => CallIsInner(name, args);
  }

  lemma {:induction false} InfixIsInner(f: Function, args: seq<Expr>, level: nat)
    requires |args| == 2 && Named(args[0]) && Named(args[1])
    requires f == OrFn || f == AndFn || (f.Pure? && IsInfix(f.builtin))
    ensures AllInner(Written(args[0], level) + ([Symbol(f)] + Written(args[1], level)))
    decreases args, 4, 0
  {
    SymbolIsInner(f);
    WrittenIsInner(args[0], level);
    WrittenIsInner(args[1], level);
    InnerConcat([Symbol(f)], Written(args[1], level));
    InnerConcat(Written(args[0], level), [Symbol(f)] + Written(args[1], level));
  }

  lemma {:induction false} CallIsInner(name: string, args: seq<Expr>)
    requires IsName(name) && forall i | 0 <= i < |args| :: Named(args[i])
    ensures AllInner(WrittenCall(name, args))
    decreases args, 3, 0
  {
    ArgsAreInner(args, 0);
    InnerConcat([OfKind(LeftParen)], WrittenArgs(args, 0));
    InnerConcat([Exactly(Id, name)], [OfKind(LeftParen)] + WrittenArgs(args, 0));
  }

  lemma {:induction false} ArgsAreInner(args: seq<Expr>, k: nat)
    requires k <= |args| && forall i | 0 <= i < |args| :: Named(args[i])
    ensures AllInner(WrittenArgs(args, k))
    decreases args, 2, |args| - k
  {
    if k < |args| {
      WrittenIsInner(args[k], 0);
      if k + 1 == |args| {
        InnerConcat(Written(args[k], 0), [OfKind(RightParen)]);
      } else {
        ArgsAreInner(args, k + 1);
        InnerConcat([OfKind(Comma)], WrittenArgs(args, k + 1));
        InnerConcat(Written(args[k], 0), [OfKind(Comma)] + WrittenArgs(args, k + 1));
      }
    }
  }

  // ----- their tokens all have a place -----

  /** Where the token behind the first n stands, from another place on. */
  function PlaceFrom(at: Place, ps: seq<Pattern>, n: nat): Option<Place>
    requires n <= |ps|
    decreases n, ps
  {
    if n == 0 then Some(at)
    else match PlaceFrom(at, ps, n - 1)
      case None => None
      case Some(mid) => PlaceAfter(mid, ps[n - 1])
  }

  lemma {:induction false} PlaceFromFirst(ps: seq<Pattern>, n: nat)
    requires n <= |ps|
    ensures PlaceFrom(FIRST, ps, n) == PlaceAt(ps, n)
    decreases n
  {
    if n > 0 {
      PlaceFromFirst(ps, n - 1);
    }
  }

  predicate Goes(at: Place, ps: seq<Pattern>, to: Place) {
    PlaceFrom(at, ps, |ps|) == Some(to)
  }

  lemma {:induction false} PlaceInFront(at: Place, xs: seq<Pattern>, ys: seq<Pattern>, n: nat)
    requires n <= |xs|
    ensures PlaceFrom(at, xs + ys, n) == PlaceFrom(at, xs, n)
    decreases n
  {
    if n > 0 {
      PlaceInFront(at, xs, ys, n - 1);
    }
  }

  lemma {:induction false} PlaceBehind(at: Place, xs: seq<Pattern>, mid: Place, ys: seq<Pattern>, n: nat)
    requires n <= |ys| && Goes(at, xs, mid)
    ensures PlaceFrom(at, xs + ys, |xs| + n) == PlaceFrom(mid, ys, n)
    decreases n
  {
    if n == 0 {
      PlaceInFront(at, xs, ys, |xs|);
    } else {
      PlaceBehind(at, xs, mid, ys, n - 1);
      assert (xs + ys)[|xs| + n - 1] == ys[n - 1];
    }
  }

  lemma {:induction false} GoesOn(at: Place, xs: seq<Pattern>, mid: Place, ys: seq<Pattern>, to: Place)
    requires Goes(at, xs, mid) && Goes(mid, ys, to)
    ensures Goes(at, xs + ys, to)
  {
    PlaceBehind(at, xs, mid, ys, |ys|);
  }

  lemma {:induction false} GoesOne(at: Place, p: Pattern, to: Place)
    requires PlaceAfter(at, p) == Some(to)
    ensures Goes(at, [p], to)
  {
    assert PlaceFrom(at, [p], 0) == Some(at);
  }

  lemma {:induction false} InnerGoes(mode: Mode, ps: seq<Pattern>, n: nat)
    requires IsTag(mode) && AllInner(ps) && n <= |ps|
    ensures PlaceFrom(Inside(mode), ps, n) == Some(Inside(mode))
    decreases n
  {
    if n > 0 {
      InnerGoes(mode, ps, n - 1);
      assert IsInner(ps[n - 1]);
    }
  }

  const BEHIND: Place := Outside(false, false)

  /** An opening, inner tokens and the closing. */
  lemma {:induction false} TagGoes(at: Place, open: Pattern, inner: seq<Pattern>, close: Pattern)
    requires at.Outside? && AllInner(inner)
    requires (open == OfKind(StatementOpen) && close == OfKind(StatementClose))
             || (open == OfKind(ExpressionOpen) && close == OfKind(ExpressionClose))
    ensures Goes(at, [open] + (inner + [close]), BEHIND)
  {
    var mode := if open == OfKind(StatementOpen) then StatementBody else ExpressionBody;
    GoesOne(at, open, Inside(mode));
    InnerGoes(mode, inner, |inner|);
    GoesOne(Inside(mode), close, BEHIND);
    GoesOn(Inside(mode), inner, Inside(mode), [close], BEHIND);
    GoesOn(at, [open], Inside(mode), inner + [close], BEHIND);
  }

  lemma {:induction false} BlockTagGoes(at: Place, inner: seq<Pattern>)
    requires at.Outside? && AllInner(inner)
    ensures Goes(at, Tag(BlockTag, inner), BEHIND)
  {
    TagGoes(at, OfKind(StatementOpen), inner, OfKind(StatementClose));
  }

  /** A text does not come right behind another. */
  predicate MayFollow(at: Place, b: seq<Stmt>, i: nat)
    requires i <= |b|
  {
    at.Outside? && (at.text && i < |b| ==> !b[i].Text?)
  }

  lemma {:induction false} BlockGoes(b: seq<Stmt>, i: nat, at: Place) returns (to: Place)
    requires i <= |b| && Spellable(b, i) && MayFollow(at, b, i)
    ensures to.Outside? && Goes(at, WrittenBlock(b, i), to)
    decreases b, |b| - i
  {
    to := at;
    if i < |b| {
      var mid := StmtGoes(b[i], at);
      to := BlockGoes(b, i + 1, mid);
      GoesOn(at, WrittenStmt(b[i]), mid, WrittenBlock(b, i + 1), to);
    }
  }

  lemma {:induction false} StmtGoes(s: Stmt, at: Place) returns (to: Place)
    requires SpellableStmt(s) && at.Outside? && (at.text ==> !s.Text?)
    ensures to.Outside? && (to.text ==> s.Text?) && Goes(at, WrittenStmt(s), to)
    decreases s
  {
    match s
    case Text(t) =>
      PlainAnywhere(t, at.line);
      to := Outside(true, t[|t| - 1] == '\n');
      GoesOne(at, Exactly(TextKind, t), to);
    case Comment(t) =>
      to := BEHIND;
      CommentGoes(at, t);
    case Print(e) =>
      to := BEHIND;
      WrittenIsInner(e, 0);
      TagGoes(at, OfKind(ExpressionOpen), Written(e, 0), OfKind(ExpressionClose));
    case If(d, br) =>
      var cond := [Word("if")] + Written(br.cond, 0);
      ConditionGoes(at, [Word("if")], br.cond);
      to := BranchGoes(br, BEHIND);
      GoesOn(at, Tag(BlockTag, cond), BEHIND, WrittenBranch(br), to);
    case For(d, vars, e, body, dEnd) =>
      ForTagGoes(at, vars, e);
      var mid := BlockGoes(body, 0, BEHIND);
      to := BEHIND;
      BlockTagGoes(mid, [Word("endfor")]);
      GoesOn(BEHIND, WrittenBlock(body, 0), mid, Tag(BlockTag, [Word("endfor")]), BEHIND);
      GoesOn(at, Tag(BlockTag, ForFront(vars) + Written(e, 0)), BEHIND,
             WrittenBlock(body, 0) + Tag(BlockTag, [Word("endfor")]), BEHIND);
  }

  lemma {:induction false} PlainAnywhere(t: string, line: bool)
    requires IsPlain(t, true)
    ensures IsPlain(t, line)
  {
  }

  lemma {:induction false} CommentGoes(at: Place, t: string)
    requires at.Outside? && IsCommentEnd(t)
    ensures Goes(at, [OfKind(CommentOpen), Exactly(CommentClose, t)], BEHIND)
  {
    GoesOne(at, OfKind(CommentOpen), Inside(CommentBody));
    GoesOne(Inside(CommentBody), Exactly(CommentClose, t), BEHIND);
    GoesOn(at, [OfKind(CommentOpen)], Inside(CommentBody), [Exactly(CommentClose, t)], BEHIND);
    assert [OfKind(CommentOpen)] + [Exactly(CommentClose, t)] == [OfKind(CommentOpen), Exactly(CommentClose, t)];
  }

  lemma {:induction false} ConditionGoes(at: Place, front: seq<Pattern>, cond: Expr)
    requires at.Outside? && AllInner(front) && Named(cond)
    ensures Goes(at, Tag(BlockTag, front + Written(cond, 0)), BEHIND)
  {
    WrittenIsInner(cond, 0);
    InnerConcat(front, Written(cond, 0));
    BlockTagGoes(at, front + Written(cond, 0));
  }

  lemma {:induction false} ForTagGoes(at: Place, vars: LoopVars, e: Expr)
    requires at.Outside? && NamedVars(vars) && Named(e)
    ensures Goes(at, Tag(BlockTag, ForFront(vars) + Written(e, 0)), BEHIND)
  {
    InnerConcat(WrittenVars(vars), [Word("in")]);
    InnerConcat([Word("for")], WrittenVars(vars) + [Word("in")]);
    ConditionGoes(at, ForFront(vars), e);
  }

  lemma {:induction false} BranchGoes(br: Branches, at: Place) returns (to: Place)
    requires SpellableBranches(br) && at == BEHIND
    ensures to == BEHIND && Goes(at, WrittenBranch(br), to)
    decreases br
  {
    var mid := BlockGoes(br.thn, 0, at);
    to := ElseGoes(br.els, mid);
    GoesOn(at, WrittenBlock(br.thn, 0), mid, WrittenElse(br.els), to);
  }

  lemma {:induction false} ElseGoes(els: Else, at: Place) returns (to: Place)
    requires SpellableElse(els) && at.Outside?
    ensures to == BEHIND && Goes(at, WrittenElse(els), to)
    decreases els
  {
    to := BEHIND;
    match els
    case EndIf(d) => BlockTagGoes(at, [Word("endif")]);
    case ElseDo(d, b, dEnd) =>
      BlockTagGoes(at, [Word("else")]);
      var mid := BlockGoes(b, 0, BEHIND);
      BlockTagGoes(mid, [Word("endif")]);
      GoesOn(BEHIND, WrittenBlock(b, 0), mid, Tag(BlockTag, [Word("endif")]), BEHIND);
      GoesOn(at, Tag(BlockTag, [Word("else")]), BEHIND, WrittenBlock(b, 0) + Tag(BlockTag, [Word("endif")]), BEHIND);
    case ElseIf(d, br) =>
      ConditionGoes(at, [Word("else"), Word("if")], br.cond);
      to := BranchGoes(br, BEHIND);
      GoesOn(at, Tag(BlockTag, [Word("else"), Word("if")] + Written(br.cond, 0)), BEHIND, WrittenBranch(br), to);
  }

  // ----- from a tree to its text and back -----

  /** The tree's text. */
  function TextOf(b: seq<Stmt>): string {
    Spelled(WrittenBlock(b, 0))
  }

  lemma {:induction false} SpellableSpells(b: seq<Stmt>)
    requires Spellable(b, 0)
    ensures Spells(WrittenBlock(b, 0))
  {
    var to := BlockGoes(b, 0, FIRST);
    PlaceFromFirst(WrittenBlock(b, 0), |WrittenBlock(b, 0)|);
  }

  /** A tree whose tokens can be spelled: its text is scanned into just these tokens. */
  lemma {:induction false} SpelledTreeIsWritten(setup: Setup, b: seq<Stmt>)
    requires setup.cfg == DEFAULT && Usable(DEFAULT) && Spells(WrittenBlock(b, 0))
    requires PrintableBlock(SourceOf(setup, TextOf(b)), b)
    ensures Writes(setup, TextOf(b), b)
  {
    SpelledReads(setup, WrittenBlock(b, 0));
  }

  lemma {:induction false} SpelledReads(setup: Setup, ps: seq<Pattern>)
    requires setup.cfg == DEFAULT && Usable(DEFAULT) && Spells(ps)
    ensures var g := SourceOf(setup, Spelled(ps)); |g.toks| == |ps| + 1 && RoundTrip.Reads(g, 0, ps)
  {
    var g := SourceOf(setup, Spelled(ps));
    ReadsBack(ps);
    forall k: nat | k < |ps| ensures Matches(g.toks[0 + k], ps[k]) {
      assert Matches(g.toks[k], ps[0 + k]);
    }
  }

  /** The whole pipeline on every tree with proper names: its text is accepted, and renders to what the
      tree means, or throws exactly when the interpreter fails. */
  lemma {:induction false} TreeTextRenders(setup: Setup, b: seq<Stmt>, env: Machine.Env, root: Value)
    requires setup.cfg == DEFAULT && Usable(DEFAULT) && Spellable(b, 0)
    requires PrintableBlock(SourceOf(setup, TextOf(b)), b)
    requires SafeBlock(setup.notation, b, 0) && Fits(0, b, 0) && |TemplateCode(setup.notation, b)| < ARGS_LIMIT
    ensures var r := EndToEnd.ParseText(setup, TextOf(b));
            r.Accepted? && Machine.EndsWith(r.code, env, root,
                                            Finished(Exec(Context(env, root, setup.notation), root, b, 0), |r.code|))
  {
    SpellableSpells(b);
    SpelledTreeIsWritten(setup, b);
    WrittenTextRenders(setup, TextOf(b), b, env, root);
  }
}
