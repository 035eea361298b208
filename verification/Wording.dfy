/** How templates are written: the text of each construct, given that of its parts. With the reading of
    texts and the meaning of trees, this says what every piece of template syntax does. */
module Wording {
  import opened Bytecodes
  import opened Tokens
  import opened Syntax
  import opened Linear
  import opened Spelling
  import opened Texts
  import Json

  /** The text of an expression where one of at least the given level is expected. */
  function Said(e: Expr, level: nat): string {
    Spelled(Written(e, level))
  }

  // ----- expressions -----

  /** Parentheses stand around what binds less tightly than is expected. */
  lemma {:induction false} ParenthesesSaid(e: Expr, level: nat)
    ensures Said(e, level) == if Level(e) >= level then Said(e, 0) else " (" + (Said(e, 0) + " )")
    ensures e.Lit? || e.Lookup? || e.Call? ==> Level(e) == 4
  {
    if Level(e) < level {
      SpelledAround(OfKind(LeftParen), Bare(e), OfKind(RightParen));
    }
  }

  lemma {:induction false} LeafSaid(t: Shown, v: Json.Value, name: string)
    requires t.kind == Id || t.kind == Number || t.kind == String
    ensures Said(Lit(t, v), 0) == " " + t.text && Said(Lookup(name), 0) == " " + name
  {
    assert Bare(Lit(t, v)) == [Exactly(t.kind, t.text)] && Bare(Lookup(name)) == [Exactly(Id, name)];
    assert Written(Lit(t, v), 0) == Bare(Lit(t, v)) && Written(Lookup(name), 0) == Bare(Lookup(name));
    SpelledOne(Exactly(t.kind, t.text));
    SpelledOne(Exactly(Id, name));
  }

  lemma {:induction false} SpelledInfix(xs: seq<Pattern>, p: Pattern, ys: seq<Pattern>)
    ensures Spelled(xs + ([p] + ys)) == Spelled(xs) + (Piece(p) + Spelled(ys))
  {
    SpelledConcat([p], ys);
    SpelledConcat(xs, [p] + ys);
    SpelledOne(p);
  }

  lemma {:induction false} SpelledThree(xs: seq<Pattern>, ys: seq<Pattern>, zs: seq<Pattern>)
    ensures Spelled(xs + (ys + zs)) == Spelled(xs) + (Spelled(ys) + Spelled(zs))
  {
    SpelledConcat(ys, zs);
    SpelledConcat(xs, ys + zs);
  }

  /** or takes ands, and takes nots, not takes a comparison or another datum. */
  lemma {:induction false} OrSaid(x: Expr, y: Expr)
    ensures Said(Expr.Apply(OrFn, [x, y]), 0) == Said(x, 1) + (" or" + Said(y, 1))
    ensures Level(Expr.Apply(OrFn, [x, y])) == 0
  {
    assert Written(Expr.Apply(OrFn, [x, y]), 0) == Written(x, 1) + ([Exactly(Id, "or")] + Written(y, 1));
    SpelledInfix(Written(x, 1), Exactly(Id, "or"), Written(y, 1));
    assert " " + "or" == " or";
  }

  lemma {:induction false} AndSaid(x: Expr, y: Expr)
    ensures Said(Expr.Apply(AndFn, [x, y]), 0) == Said(x, 2) + (" and" + Said(y, 2))
    ensures Level(Expr.Apply(AndFn, [x, y])) == 1
  {
    assert Written(Expr.Apply(AndFn, [x, y]), 0) == Written(x, 2) + ([Exactly(Id, "and")] + Written(y, 2));
    SpelledInfix(Written(x, 2), Exactly(Id, "and"), Written(y, 2));
    assert " " + "and" == " and";
  }

  lemma {:induction false} NotSaid(x: Expr)
    ensures Said(Expr.Apply(NotFn, [x]), 0) == " not" + Said(x, 2) && Level(Expr.Apply(NotFn, [x])) == 2
  {
    assert Written(Expr.Apply(NotFn, [x]), 0) == [Exactly(Id, "not")] + Written(x, 2);
    SpelledConcat([Exactly(Id, "not")], Written(x, 2));
    SpelledOne(Exactly(Id, "not"));
    assert " " + "not" == " not";
  }

  /** Comparisons take data on both sides. */
  lemma {:induction false} ComparisonSaid(b: Builtin, x: Expr, y: Expr)
    requires IsInfix(b)
    ensures Said(Expr.Apply(Pure(b), [x, y]), 0) == Said(x, 4) + (" " + NameOf(Pure(b)) + Said(y, 4))
    ensures Level(Expr.Apply(Pure(b), [x, y])) == 3
  {
    SymbolSaid(b);
    assert Written(Expr.Apply(Pure(b), [x, y]), 0) == Written(x, 4) + ([Symbol(Pure(b))] + Written(y, 4));
    SpelledInfix(Written(x, 4), Symbol(Pure(b)), Written(y, 4));
  }

  /** Each comparison's symbol is its name. */
  lemma {:induction false} SymbolSaid(b: Builtin)
    requires IsInfix(b)
    ensures Piece(Symbol(Pure(b))) == " " + NameOf(Pure(b))
  {
  }

  /** The texts of arguments with commas between them, from the k-th on. */
  function Listed(args: seq<Expr>, k: nat): string
    requires k <= |args|
    decreases |args| - k, args
  {
    if k == |args| then ""
    else if k + 1 == |args| then Said(args[k], 0)
    else Said(args[k], 0) + (" ," + Listed(args, k + 1))
  }

  lemma {:induction false} ArgumentsSaid(args: seq<Expr>, k: nat)
    requires k <= |args|
    ensures Spelled(WrittenArgs(args, k)) == Listed(args, k) + " )"
    decreases |args| - k
  {
    if k == |args| {
      SpelledLast([]);
    } else if k + 1 == |args| {
      SpelledLast(Written(args[k], 0));
    } else {
      ArgumentsSaid(args, k + 1);
      SpelledMore(Written(args[k], 0), WrittenArgs(args, k + 1), Listed(args, k + 1));
      assert Listed(args, k) == Said(args[k], 0) + (" ," + Listed(args, k + 1));
    }
  }

  lemma {:induction false} SpelledLast(xs: seq<Pattern>)
    ensures Spelled(xs + [OfKind(RightParen)]) == Spelled(xs) + " )"
    ensures xs == [] ==> Spelled(xs) == "" && xs + [OfKind(RightParen)] == [OfKind(RightParen)]
  {
    SpelledConcat(xs, [OfKind(RightParen)]);
    SpelledOne(OfKind(RightParen));
    assert Piece(OfKind(RightParen)) == " )";
  }

  lemma {:induction false} SpelledMore(xs: seq<Pattern>, rest: seq<Pattern>, listed: string)
    requires Spelled(rest) == listed + " )"
    ensures Spelled(xs + ([OfKind(Comma)] + rest)) == (Spelled(xs) + (" ," + listed)) + " )"
  {
    SpelledInfix(xs, OfKind(Comma), rest);
    ListedOn(Spelled(xs), " ,", listed, " )");
  }

  lemma {:induction false} ListedOn(arg: string, comma: string, rest: string, close: string)
    ensures arg + (comma + (rest + close)) == (arg + (comma + rest)) + close
  {
    Regroup(comma, rest, close);
    Regroup(arg, comma + rest, close);
  }

  /** A call: the name, and the arguments between parentheses. */
  lemma {:induction false} CallSaid(name: string, args: seq<Expr>)
    ensures Said(Call(name, args), 0) == " " + name + (" (" + (Listed(args, 0) + " )"))
  {
    assert Written(Call(name, args), 0) == WrittenCall(name, args);
    SpelledCall(name, args);
  }

  lemma {:induction false} SpelledCall(name: string, args: seq<Expr>)
    ensures Spelled(WrittenCall(name, args)) == " " + name + (" (" + (Listed(args, 0) + " )"))
  {
    ArgumentsSaid(args, 0);
    SpelledOpen(name, WrittenArgs(args, 0));
  }

  lemma {:induction false} SpelledOpen(name: string, rest: seq<Pattern>)
    ensures Spelled([Exactly(Id, name)] + ([OfKind(LeftParen)] + rest)) == " " + name + (" (" + Spelled(rest))
  {
    SpelledInfix([Exactly(Id, name)], OfKind(LeftParen), rest);
    SpelledOne(Exactly(Id, name));
    assert Piece(OfKind(LeftParen)) == " (";
  }

  /** A built-in function that is no operator is written as a call of its name. */
  lemma {:induction false} BuiltinSaid(f: Function, args: seq<Expr>)
    requires |args| == Arity(f) && f != OrFn && f != AndFn && f != NotFn && (f.Pure? ==> !IsInfix(f.builtin))
    ensures Said(Expr.Apply(f, args), 0) == " " + NameOf(f) + (" (" + (Listed(args, 0) + " )"))
    ensures Level(Expr.Apply(f, args)) == 4
  {
    assert Written(Expr.Apply(f, args), 0) == WrittenCall(NameOf(f), args);
    SpelledCall(NameOf(f), args);
  }

  // ----- statements -----

  /** The text between the delimiters of a tag. */
  function TagSaid(d: Delim, inside: string): string {
    if d == BlockTag then "{%" + (inside + " %}") else "##" + (inside + " \n")
  }

  lemma {:induction false} SpelledInTag(d: Delim, inner: seq<Pattern>)
    ensures Spelled(Tag(d, inner)) == TagSaid(d, Spelled(inner))
  {
    SpelledAround(OpenOf(d), inner, CloseOf(d));
  }

  lemma {:induction false} SpelledWordTag(d: Delim, word: string, e: Expr)
    ensures Spelled(Tag(d, [Word(word)] + Written(e, 0))) == TagSaid(d, " " + word + Said(e, 0))
    ensures Spelled(Tag(d, [Word(word)])) == TagSaid(d, " " + word)
  {
    SpelledInTag(d, [Word(word)] + Written(e, 0));
    SpelledInTag(d, [Word(word)]);
    SpelledConcat([Word(word)], Written(e, 0));
    SpelledOne(Word(word));
  }

  function BlockSaid(b: seq<Stmt>, i: nat): string
    requires i <= |b|
  {
    Spelled(WrittenBlock(b, i))
  }

  function StmtSaid(s: Stmt): string {
    Spelled(WrittenStmt(s))
  }

  function ElseSaid(els: Else): string {
    Spelled(WrittenElse(els))
  }

  /** Statements are written one behind another. */
  lemma {:induction false} BlocksSaid(b: seq<Stmt>, i: nat)
    requires i <= |b|
    ensures BlockSaid(b, i) == if i == |b| then "" else StmtSaid(b[i]) + BlockSaid(b, i + 1)
  {
    if i < |b| {
      SpelledConcat(WrittenStmt(b[i]), WrittenBlock(b, i + 1));
    }
  }

  lemma {:induction false} PlainSaid(text: string, e: Expr)
    ensures StmtSaid(Text(text)) == text
    ensures StmtSaid(Comment(text)) == "{#" + text
    ensures StmtSaid(Print(e)) == "{{" + (Said(e, 0) + " }}")
  {
    SpelledOne(Exactly(TextKind, text));
    SpelledTwo(OfKind(CommentOpen), Exactly(CommentClose, text));
    SpelledAround(OfKind(ExpressionOpen), Written(e, 0), OfKind(ExpressionClose));
  }

  lemma {:induction false} BranchSaid(br: Branches)
    ensures Spelled(WrittenBranch(br)) == BlockSaid(br.thn, 0) + ElseSaid(br.els)
  {
    SpelledConcat(WrittenBlock(br.thn, 0), WrittenElse(br.els));
  }

  lemma {:induction false} IfSaid(d: Delim, br: Branches)
    ensures StmtSaid(If(d, br)) == TagSaid(d, " if" + Said(br.cond, 0)) + (BlockSaid(br.thn, 0) + ElseSaid(br.els))
  {
    SpelledWordTag(d, "if", br.cond);
    assert " " + "if" == " if";
    BranchSaid(br);
    SpelledConcat(Tag(d, [Word("if")] + Written(br.cond, 0)), WrittenBranch(br));
  }

  lemma {:induction false} ElseIsSaid(els: Else)
    ensures match els
            case EndIf(d) => ElseSaid(els) == TagSaid(d, " endif")
            case ElseDo(d, b, dEnd) =>
              ElseSaid(els) == TagSaid(d, " else") + (BlockSaid(b, 0) + TagSaid(dEnd, " endif"))
            case ElseIf(d, br) =>
              ElseSaid(els) == TagSaid(d, " else if" + Said(br.cond, 0)) + (BlockSaid(br.thn, 0) + ElseSaid(br.els))
  {
    assert " " + "endif" == " endif" && " " + "else" == " else";
    match els
    case EndIf(d) => SpelledWordTag(d, "endif", Lookup(""));
    case ElseDo(d, b, dEnd) =>
      SpelledWordTag(d, "else", Lookup(""));
      SpelledWordTag(dEnd, "endif", Lookup(""));
      SpelledThree(Tag(d, [Word("else")]), WrittenBlock(b, 0), Tag(dEnd, [Word("endif")]));
    case ElseIf(d, br) =>
      SpelledElseIf(d, br.cond);
      BranchSaid(br);
      SpelledConcat(Tag(d, [Word("else"), Word("if")] + Written(br.cond, 0)), WrittenBranch(br));
  }

  lemma {:induction false} SpelledElseIf(d: Delim, cond: Expr)
    ensures Spelled(Tag(d, [Word("else"), Word("if")] + Written(cond, 0))) == TagSaid(d, " else if" + Said(cond, 0))
  {
    SpelledInTag(d, [Word("else"), Word("if")] + Written(cond, 0));
    SpelledTwo(Word("else"), Word("if"));
    SpelledConcat([Word("else"), Word("if")], Written(cond, 0));
    assert (" " + "else") + (" " + "if") == " else if";
  }

  /** A loop: one variable, or a key and a value. */
  lemma {:induction false} ForSaid(s: Stmt)
    requires s.For?
    ensures var names := match s.vars case ItemVar(value) => " " + value
                                      case PairVars(key, value) => " " + key + (" ," + (" " + value));
            StmtSaid(s) == TagSaid(s.d, " for" + (names + " in") + Said(s.e, 0))
                           + (BlockSaid(s.body, 0) + TagSaid(s.dEnd, " endfor"))
  {
    SpelledForTag(s.d, s.vars, s.e);
    SpelledWordTag(s.dEnd, "endfor", Lookup(""));
    assert " " + "endfor" == " endfor";
    SpelledThree(Tag(s.d, ForFront(s.vars) + Written(s.e, 0)), WrittenBlock(s.body, 0), Tag(s.dEnd, [Word("endfor")]));
  }

  lemma {:induction false} SpelledVars(vars: LoopVars)
    ensures Spelled(WrittenVars(vars)) == match vars case ItemVar(value) => " " + value
                                                     case PairVars(key, value) => " " + key + (" ," + (" " + value))
  {
    match vars
    case ItemVar(value) => SpelledOne(Word(value));
    case PairVars(key, value) => SpelledPair(key, value);
  }

  lemma {:induction false} SpelledPair(key: string, value: string)
    ensures Spelled([Word(key), OfKind(Comma), Word(value)]) == " " + key + (" ," + (" " + value))
  {
    assert [Word(key)] + ([OfKind(Comma)] + [Word(value)]) == [Word(key), OfKind(Comma), Word(value)];
    SpelledInfix([Word(key)], OfKind(Comma), [Word(value)]);
    SpelledOne(Word(key));
    SpelledOne(Word(value));
    assert Piece(OfKind(Comma)) == " ,";
  }

  lemma {:induction false} SpelledForTag(d: Delim, vars: LoopVars, e: Expr)
    ensures Spelled(Tag(d, ForFront(vars) + Written(e, 0)))
            == TagSaid(d, " for" + (Spelled(WrittenVars(vars)) + " in") + Said(e, 0))
    ensures Spelled(WrittenVars(vars)) == match vars case ItemVar(value) => " " + value
                                                     case PairVars(key, value) => " " + key + (" ," + (" " + value))
  {
    SpelledVars(vars);
    SpelledForFront(vars);
    SpelledInTag(d, ForFront(vars) + Written(e, 0));
    SpelledConcat(ForFront(vars), Written(e, 0));
  }

  lemma {:induction false} SpelledForFront(vars: LoopVars)
    ensures Spelled(ForFront(vars)) == " for" + (Spelled(WrittenVars(vars)) + " in")
  {
    SpelledConcat([Word("for")], WrittenVars(vars) + [Word("in")]);
    SpelledConcat(WrittenVars(vars), [Word("in")]);
    SpelledOne(Word("for"));
    SpelledOne(Word("in"));
    assert " " + "for" == " for" && " " + "in" == " in";
  }
}
