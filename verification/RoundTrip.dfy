/** The parser reads a written tree back: it takes exactly the tree's tokens, with one token of
    look-ahead, and makes exactly the tree's emissions. */
module RoundTrip {
  import opened Options
  import opened Json
  import opened Bytecodes
  import opened Tokens
  import opened Syntax
  import opened Assembler
  import opened Grammar
  import opened Linear

  predicate Mark(k: nat) {
    true
  }

  /** The tokens from position i on are of the given patterns. */
  ghost predicate Reads(g: Source, i: nat, ps: seq<Pattern>) {
    i + |ps| <= |g.toks| && forall k: nat {:trigger Mark(k)} :: Mark(k) && k < |ps| ==> Matches(g.toks[i + k], ps[k])
  }

  /** A token's text is the source text it stands for. */
  ghost predicate Faithful(g: Source) {
    forall i | 0 <= i < |g.toks| :: JsonText(g.inp, g.toks[i], g.toks[i]) == g.toks[i].text
  }

  /** What may follow an expression read at a given level without being read as part of it. */
  predicate Stop(level: nat, t: Token) {
    && t.kind != LeftParen
    && (level <= 3 ==> Comparison(t).None?)
    && (level <= 1 ==> !IsWord(t, "and"))
    && (level <= 0 ==> !IsWord(t, "or"))
  }

  /** The patterns match, and a token that stops the given level follows. */
  ghost predicate Followed(g: Source, i: nat, ps: seq<Pattern>, level: nat) {
    && Ended(g) && Faithful(g) && Reads(g, i, ps) && i + |ps| < |g.toks| && Stop(level, g.toks[i + |ps|])
  }

  lemma {:induction false} ReadsSplit(g: Source, i: nat, a: seq<Pattern>, b: seq<Pattern>)
    requires Reads(g, i, a + b)
    ensures Reads(g, i, a) && Reads(g, i + |a|, b)
  {
    forall k: nat | k < |a| ensures Matches(g.toks[i + k], a[k]) {
      assert Mark(k) && (a + b)[k] == a[k];
    }
    forall k: nat | k < |b| ensures Matches(g.toks[i + |a| + k], b[k]) {
      assert Mark(|a| + k) && (a + b)[|a| + k] == b[k];
    }
  }

  lemma {:induction false} ReadsFirst(g: Source, i: nat, p: Pattern, rest: seq<Pattern>)
    requires Reads(g, i, [p] + rest)
    ensures i < |g.toks| && Matches(g.toks[i], p) && Reads(g, i + 1, rest)
  {
    ReadsSplit(g, i, [p], rest);
    assert Mark(0);
  }

  lemma {:induction false} ReadsOne(g: Source, i: nat, p: Pattern)
    requires Reads(g, i, [p])
    ensures i < |g.toks| && Matches(g.toks[i], p)
  {
    assert Mark(0);
  }

  /** Some patterns, then one, then more. */
  lemma {:induction false} ReadsAround(g: Source, i: nat, a: seq<Pattern>, p: Pattern, b: seq<Pattern>)
    requires Reads(g, i, a + ([p] + b))
    ensures Reads(g, i, a) && i + |a| < |g.toks| && Matches(g.toks[i + |a|], p) && Reads(g, i + |a| + 1, b)
  {
    ReadsSplit(g, i, a, [p] + b);
    ReadsFirst(g, i + |a|, p, b);
  }

  // ----- expressions -----

  /** The parse function of each level. */
  function ParseAt(g: Source, i: nat, level: nat): Parsed
    requires At(g, i)
  {
    if level == 0 then ParseOr(g, i)
    else if level == 1 then ParseAnd(g, i)
    else if level == 2 then ParseNot(g, i)
    else if level == 3 then ParseComparison(g, i)
    else ParseDatum(g, i, i, 0, 0)
  }

  /** What one level takes, the level above takes too, unless more belongs to it. */
  lemma {:induction false} Climb(g: Source, i: nat, level: nat, next: nat, acts: seq<Action>)
    requires At(g, i) && level < 4 && ParseAt(g, i, level + 1) == Took(next, acts)
    requires next < |g.toks| && Stop(level, g.toks[next])
    requires level == 2 ==> !IsWord(g.toks[i], "not")
    ensures ParseAt(g, i, level) == Took(next, acts)
  {
  }

  /** An expression that binds as tightly as a comparison does not begin with `not`. */
  lemma {:induction false} FirstToken(g: Source, i: nat, e: Expr)
    requires Printable(g, e) && Reads(g, i, Bare(e))
    ensures Bare(e) != [] && i < |g.toks| && g.toks[i].kind != RightParen
    ensures Level(e) > 2 ==> !IsWord(g.toks[i], "not")
    decreases e, 0
  {
    match e
    case Lit(t, _) => ReadsOne(g, i, Exactly(t.kind, t.text));
    case Lookup(name) => ReadsOne(g, i, Exactly(Id, name));
    case Apply(f, args) =>
      if Level(e) == 4 {
        assert Bare(e) == WrittenCall(NameOf(f), args);
        ReadsFirst(g, i, Exactly(Id, NameOf(f)), [OfKind(LeftParen)] + WrittenArgs(args, 0));
      } else if f == NotFn {
        ReadsFirst(g, i, Symbol(f), Written(args[0], 2));
      } else {
        FirstOfInfix(g, i, e);
      }
    case Call(name, args) => ReadsFirst(g, i, Exactly(Id, name), [OfKind(LeftParen)] + WrittenArgs(args, 0));
  }

  /** The level at which an infix operator's operands are written. */
  function OperandLevel(f: Function): nat {
    if f == OrFn then 1 else if f == AndFn then 2 else 4
  }

  predicate IsInfixApply(e: Expr) {
    e.Apply? && |e.args| == 2 && (e.f == OrFn || e.f == AndFn || (e.f.Pure? && IsInfix(e.f.builtin)))
  }

  lemma {:induction false} BareInfix(e: Expr)
    requires IsInfixApply(e)
    ensures var l := OperandLevel(e.f);
            Bare(e) == Written(e.args[0], l) + ([Symbol(e.f)] + Written(e.args[1], l))
  {
  }

  lemma {:induction false} FirstOfInfix(g: Source, i: nat, e: Expr)
    requires IsInfixApply(e) && Printable(g, e) && Reads(g, i, Bare(e))
    ensures Bare(e) != [] && i < |g.toks| && g.toks[i].kind != RightParen
    ensures Level(e) > 2 ==> !IsWord(g.toks[i], "not")
    decreases e.args, 0
  {
    BareInfix(e);
    var l := OperandLevel(e.f);
    ReadsAround(g, i, Written(e.args[0], l), Symbol(e.f), Written(e.args[1], l));
    FirstOfWritten(g, i, e.args[0], l);
  }

  lemma {:induction false} FirstOfWritten(g: Source, i: nat, e: Expr, level: nat)
    requires Printable(g, e) && Reads(g, i, Written(e, level))
    ensures Written(e, level) != [] && i < |g.toks| && g.toks[i].kind != RightParen
    ensures level > 2 ==> !IsWord(g.toks[i], "not")
    decreases e, 1
  {
    if Level(e) >= level {
      FirstToken(g, i, e);
    } else {
      ReadsFirst(g, i, OfKind(LeftParen), Bare(e) + [OfKind(RightParen)]);
    }
  }

  /** What is read at a tight level is read at every looser one. */
  lemma {:induction false} ClimbTo(g: Source, i: nat, level: nat, next: nat, acts: seq<Action>)
    requires At(g, i) && level <= 4 && ParseAt(g, i, 4) == Took(next, acts)
    requires next < |g.toks| && Stop(level, g.toks[next]) && !IsWord(g.toks[i], "not")
    ensures ParseAt(g, i, level) == Took(next, acts)
    decreases 4 - level
  {
    if level < 4 {
      ClimbTo(g, i, level + 1, next, acts);
      Climb(g, i, level, next, acts);
    }
  }

  /** e written out bare, read at any level it is tight enough for. */
  lemma {:induction false} ReadFrom(g: Source, i: nat, e: Expr, level: nat)
    requires Printable(g, e) && level <= Level(e) && Followed(g, i, Bare(e), level)
    ensures ParseAt(g, i, level) == Took(i + |Bare(e)|, Acts(e))
    decreases e, 1, Level(e) - level
  {
    if level < Level(e) {
      ReadFrom(g, i, e, level + 1);
      FirstToken(g, i, e);
      Climb(g, i, level, i + |Bare(e)|, Acts(e));
    } else {
      ReadBare(g, i, e);
    }
  }

  lemma {:induction false} ReadWritten(g: Source, i: nat, e: Expr, level: nat)
    requires Printable(g, e) && level <= 4 && Followed(g, i, Written(e, level), level)
    ensures ParseAt(g, i, level) == Took(i + |Written(e, level)|, Acts(e))
    decreases e, 2, 0
  {
    if level <= Level(e) {
      ReadFrom(g, i, e, level);
    } else {
      ReadsFirst(g, i, OfKind(LeftParen), Bare(e) + [OfKind(RightParen)]);
      ReadsAround(g, i + 1, Bare(e), OfKind(RightParen), []);
      ReadFrom(g, i + 1, e, 0);
      ParensTake(g, i, i + 1 + |Bare(e)|, Acts(e));
      ClimbTo(g, i, level, i + |Written(e, level)|, Acts(e));
    }
  }

  lemma {:induction false} ParensTake(g: Source, i: nat, close: nat, acts: seq<Action>)
    requires At(g, i) && KindAt(g, i) == LeftParen && ParseOr(g, i + 1) == Took(close, acts)
    requires KindAt(g, close) == RightParen
    ensures close + 1 < |g.toks| && ParseAt(g, i, 4) == Took(close + 1, acts)
  {
    assert ParseDatum(g, i, i, 0, 0) == ParseParens(g, i);
    assert Next(g, close) == close + 1;
  }

  lemma {:induction false} ReadBare(g: Source, i: nat, e: Expr)
    requires Printable(g, e) && Followed(g, i, Bare(e), Level(e))
    ensures ParseAt(g, i, Level(e)) == Took(i + |Bare(e)|, Acts(e))
    decreases e, 0, 0
  {
    match e
    case Lit(t, _) => ReadLiteral(g, i, e);
    case Lookup(name) => ReadsOne(g, i, Exactly(Id, name));
    case Apply(f, args) =>
      if Level(e) == 4 {
        ReadCall(g, i, NameOf(f), args);
        CallActsOf(g, e);
      } else if f == NotFn {
        ReadNot(g, i, e);
      } else {
        ReadInfix(g, i, e);
      }
    case Call(name, args) =>
      ReadCall(g, i, name, args);
  }

  lemma {:induction false} ReadLiteral(g: Source, i: nat, e: Expr)
    requires e.Lit? && Printable(g, e) && Followed(g, i, Bare(e), 4)
    ensures ParseAt(g, i, 4) == Took(i + 1, Acts(e))
  {
    ReadsOne(g, i, Exactly(e.tok.kind, e.tok.text));
    assert JsonText(g.inp, g.toks[i], g.toks[i]) == e.tok.text;
  }

  /** The emissions of a built-in call, as the parser groups them. */
  lemma {:induction false} CallActsOf(g: Source, e: Expr)
    requires e.Apply? && Level(e) == 4 && Printable(g, e)
    ensures ActsArgs(e.args, |e.args|) + CallActs(g, NameOf(e.f), |e.args|) == Acts(e)
  {
    var swap := if e.f == DefaultFn then [SwapLast] else [];
    var emit := [EmitFn(e.f, |e.args|)];
    assert ActsArgs(e.args, |e.args|) + (swap + emit) == (ActsArgs(e.args, |e.args|) + swap) + emit;
  }

  lemma {:induction false} ReadNot(g: Source, i: nat, e: Expr)
    requires e.Apply? && e.f == NotFn && Printable(g, e) && Followed(g, i, Bare(e), 2)
    ensures ParseAt(g, i, 2) == Took(i + |Bare(e)|, Acts(e))
    decreases e.args, 3, 0
  {
    var inner := Written(e.args[0], 2);
    ReadsFirst(g, i, Symbol(NotFn), inner);
    assert i + |Bare(e)| == i + 1 + |inner|;
    ReadWritten(g, i + 1, e.args[0], 2);
    NotTakes(g, i, i + 1 + |inner|, Acts(e.args[0]));
    ActsOfOne(e);
  }

  lemma {:induction false} NotTakes(g: Source, i: nat, next: nat, acts: seq<Action>)
    requires At(g, i) && IsWord(g.toks[i], "not") && ParseNot(g, i + 1) == Took(next, acts)
    ensures ParseAt(g, i, 2) == Took(next, acts + [EmitFn(NotFn, 1)])
  {
  }

  lemma {:induction false} ActsOfOne(e: Expr)
    requires e.Apply? && e.f == NotFn && |e.args| == 1
    ensures Acts(e) == Acts(e.args[0]) + [EmitFn(NotFn, 1)]
  {
    assert ActsArgs(e.args, 1) == ActsArgs(e.args, 0) + Acts(e.args[0]);
  }

  lemma {:induction false} ActsOfTwo(e: Expr)
    requires e.Apply? && e.f != DefaultFn && |e.args| == 2
    ensures Acts(e) == Acts(e.args[0]) + (Acts(e.args[1]) + [EmitFn(e.f, 2)])
  {
    assert ActsArgs(e.args, 2) == ActsArgs(e.args, 1) + Acts(e.args[1]);
    assert ActsArgs(e.args, 1) == ActsArgs(e.args, 0) + Acts(e.args[0]);
  }

  lemma {:induction false} ReadInfix(g: Source, i: nat, e: Expr)
    requires IsInfixApply(e) && Printable(g, e) && Followed(g, i, Bare(e), Level(e))
    ensures ParseAt(g, i, Level(e)) == Took(i + |Bare(e)|, Acts(e))
    decreases e.args, 3, 0
  {
    BareInfix(e);
    var l := OperandLevel(e.f);
    var left, right := Written(e.args[0], l), Written(e.args[1], l);
    var mid := i + |left|;
    ReadsAround(g, i, left, Symbol(e.f), right);
    SymbolStops(e.f, g.toks[mid]);
    ReadWritten(g, i, e.args[0], l);
    assert i + |Bare(e)| == mid + 1 + |right|;
    ReadWritten(g, mid + 1, e.args[1], l);
    InfixTakes(g, i, e, mid, Acts(e.args[0]), mid + 1 + |right|, Acts(e.args[1]));
    ActsOfTwo(e);
  }

  /** An operator's token ends its left operand and is read as that operator. */
  lemma {:induction false} SymbolStops(f: Function, t: Token)
    requires f == OrFn || f == AndFn || (f.Pure? && IsInfix(f.builtin))
    requires Matches(t, Symbol(f))
    ensures Stop(OperandLevel(f), t)
    ensures f == OrFn ==> IsWord(t, "or")
    ensures f == AndFn ==> IsWord(t, "and")
    ensures f.Pure? ==> Comparison(t) == Some(f.builtin)
    ensures t.kind != Eof
  {
  }

  lemma {:induction false} InfixTakes(g: Source, i: nat, e: Expr, mid: nat, left: seq<Action>, next: nat,
                                      right: seq<Action>)
    requires IsInfixApply(e) && At(g, i) && mid + 1 < |g.toks| && Matches(g.toks[mid], Symbol(e.f))
    requires ParseAt(g, i, OperandLevel(e.f)) == Took(mid, left)
    requires ParseAt(g, mid + 1, OperandLevel(e.f)) == Took(next, right)
    ensures ParseAt(g, i, Level(e)) == Took(next, left + (right + [EmitFn(e.f, 2)]))
  {
    SymbolStops(e.f, g.toks[mid]);
  }

  // ----- calls -----

  lemma {:induction false} ReadCall(g: Source, i: nat, name: string, args: seq<Expr>)
    requires name != "not" && (forall k | 0 <= k < |args| :: Printable(g, args[k]))
    requires Followed(g, i, WrittenCall(name, args), 4)
    ensures ParseAt(g, i, 4) ==
            Took(i + |WrittenCall(name, args)|, ActsArgs(args, |args|) + CallActs(g, name, |args|))
    decreases args, 3, 0
  {
    ReadsFirst(g, i, Exactly(Id, name), [OfKind(LeftParen)] + WrittenArgs(args, 0));
    ReadsFirst(g, i + 1, OfKind(LeftParen), WrittenArgs(args, 0));
    if args == [] {
      ReadsOne(g, i + 2, OfKind(RightParen));
      EmptyCallTakes(g, i, args);
    } else {
      ReadArgs(g, i + 2, args, 0);
      ArgsFirst(g, i + 2, args);
      FrontIsAll(args, 0);
      CallTakes(g, i, i + 2 + |WrittenArgs(args, 0)|, |args|, ActsArgs(args, |args|));
    }
  }

  lemma {:induction false} EmptyCallTakes(g: Source, i: nat, args: seq<Expr>)
    requires At(g, i + 2) && KindAt(g, i) == Id && KindAt(g, i + 1) == LeftParen && KindAt(g, i + 2) == RightParen
    requires args == []
    ensures i + 3 < |g.toks|
    ensures ParseAt(g, i, 4) == Took(i + 3, ActsArgs(args, 0) + CallActs(g, g.toks[i].text, 0))
  {
    assert ParseDatum(g, i, i, 0, 0) == ParseCall(g, i);
    assert ActsArgs(args, 0) + CallActs(g, g.toks[i].text, 0) == CallActs(g, g.toks[i].text, 0);
  }

  lemma {:induction false} CallTakes(g: Source, i: nat, next: nat, n: nat, acts: seq<Action>)
    requires At(g, i + 2) && KindAt(g, i) == Id && KindAt(g, i + 1) == LeftParen && KindAt(g, i + 2) != RightParen
    requires ParseArgs(g, i + 2, 0) == Args(next, n, acts)
    ensures ParseAt(g, i, 4) == Took(next, acts + CallActs(g, g.toks[i].text, n))
  {
    assert ParseDatum(g, i, i, 0, 0) == ParseCall(g, i);
  }

  lemma {:induction false} ArgsFirst(g: Source, i: nat, args: seq<Expr>)
    requires args != [] && Printable(g, args[0]) && Reads(g, i, WrittenArgs(args, 0))
    ensures i < |g.toks| && KindAt(g, i) != RightParen
  {
    if |args| == 1 {
      ReadsSplit(g, i, Written(args[0], 0), [OfKind(RightParen)]);
    } else {
      ReadsSplit(g, i, Written(args[0], 0), [OfKind(Comma)] + WrittenArgs(args, 1));
    }
    FirstOfWritten(g, i, args[0], 0);
  }

  /** The emissions of the arguments from the k-th on, grouped as the parser comes to them. */
  function ActsFrom(args: seq<Expr>, k: nat): seq<Action>
    requires k < |args|
    decreases |args| - k, args
  {
    if k + 1 == |args| then Acts(args[k]) else Acts(args[k]) + ActsFrom(args, k + 1)
  }

  lemma {:induction false} FrontIsAll(args: seq<Expr>, k: nat)
    requires k < |args|
    ensures ActsArgs(args, k) + ActsFrom(args, k) == ActsArgs(args, |args|)
    ensures k == 0 ==> ActsFrom(args, 0) == ActsArgs(args, |args|)
    decreases |args| - k
  {
    assert ActsArgs(args, k + 1) == ActsArgs(args, k) + Acts(args[k]);
    if k + 1 < |args| {
      FrontIsAll(args, k + 1);
    }
  }

  lemma {:induction false} ReadArgs(g: Source, i: nat, args: seq<Expr>, k: nat)
    requires k < |args| && (forall j | 0 <= j < |args| :: Printable(g, args[j]))
    requires Ended(g) && Faithful(g) && Reads(g, i, WrittenArgs(args, k)) && i + |WrittenArgs(args, k)| < |g.toks|
    ensures ParseArgs(g, i, k) == Args(i + |WrittenArgs(args, k)|, |args|, ActsFrom(args, k))
    decreases args, 2, |args| - k
  {
    var arg := Written(args[k], 0);
    if k + 1 == |args| {
      ReadsAround(g, i, arg, OfKind(RightParen), []);
      ReadWritten(g, i, args[k], 0);
    } else {
      var rest := WrittenArgs(args, k + 1);
      ReadsAround(g, i, arg, OfKind(Comma), rest);
      ReadWritten(g, i, args[k], 0);
      ReadArgs(g, i + |arg| + 1, args, k + 1);
      assert i + |WrittenArgs(args, k)| == i + |arg| + 1 + |rest|;
    }
  }

  /** Parser faithfulness for expressions: a written tree is consumed exactly, and the emissions
      are its own. */
  lemma {:induction false} ExpressionRoundTrip(g: Source, i: nat, e: Expr)
    requires Printable(g, e) && Followed(g, i, Written(e, 0), 0)
    ensures ParseOr(g, i) == Took(i + |Written(e, 0)|, Acts(e))
  {
    ReadWritten(g, i, e, 0);
  }
}
