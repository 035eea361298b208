/** What the parser's emissions look like in order: expressions emit operands only, default's swap
    has two of them before it, and a chained condition comes right behind its else. */
module Chaining {
  import opened Options
  import opened Bytecodes
  import opened Tokens
  import opened Assembler
  import opened Functions
  import opened Grammar
  import opened Patching

  predicate IsOperand(a: Action) {
    a.PushLit? || a.PushVar? || a.EmitFn? || a.EmitCall? || a.SwapLast?
  }

  predicate OnlyOperands(acts: seq<Action>) {
    forall i | 0 <= i < |acts| :: IsOperand(acts[i])
  }

  /** What an emission adds to the operands that wait on the stack. */
  function Rise(a: Action): int {
    match a
    case PushLit(_) => 1
    case PushVar(_) => 1
    case EmitFn(_, n) => if n == 0 then 0 else 1 - n
    case EmitCall(_, n) => 1 - n
    case _ => 0
  }

  /** The operands that the unbroken run of operand emissions before the k-th leaves waiting. */
  function Depth(acts: seq<Action>, k: nat): int
    requires k <= |acts|
    decreases k, acts
  {
    if k == 0 || !IsOperand(acts[k - 1]) then 0 else Depth(acts, k - 1) + Rise(acts[k - 1])
  }

  /** A swap has two operands before it, and default itself right behind it. */
  predicate SwapAt(acts: seq<Action>, k: nat)
    requires k < |acts|
  {
    acts[k].SwapLast? ==> Depth(acts, k) >= 2 && k + 1 < |acts| && acts[k + 1] == EmitFn(DefaultFn, 2)
  }

  ghost predicate SwapsBacked(acts: seq<Action>) {
    forall k: nat {:trigger Turn(k)} :: Turn(k) && k < |acts| ==> SwapAt(acts, k)
  }

  lemma {:induction false} DepthPrefix(xs: seq<Action>, ys: seq<Action>, k: nat)
    requires k <= |xs|
    ensures Depth(xs + ys, k) == Depth(xs, k)
    decreases k
  {
    if k > 0 {
      assert (xs + ys)[k - 1] == xs[k - 1];
      DepthPrefix(xs, ys, k - 1);
    }
  }

  lemma {:induction false} DepthSuffix(xs: seq<Action>, ys: seq<Action>, k: nat)
    requires k <= |ys|
    ensures Depth(xs, |xs|) >= 0 ==> Depth(xs + ys, |xs| + k) >= Depth(ys, k)
    ensures OnlyOperands(ys) ==> Depth(xs + ys, |xs| + k) == Depth(xs, |xs|) + Depth(ys, k)
    decreases k
  {
    if k == 0 {
      DepthPrefix(xs, ys, |xs|);
    } else {
      assert (xs + ys)[|xs| + k - 1] == ys[k - 1];
      DepthSuffix(xs, ys, k - 1);
    }
  }

  lemma {:induction false} BackedConcat(xs: seq<Action>, ys: seq<Action>)
    requires SwapsBacked(xs) && SwapsBacked(ys) && Depth(xs, |xs|) >= 0
    ensures SwapsBacked(xs + ys)
  {
    var all := xs + ys;
    forall k: nat | k < |all| ensures SwapAt(all, k) {
      if k < |xs| {
        assert Turn(k);
        DepthPrefix(xs, ys, k);
        assert all[k] == xs[k] && (k + 1 < |xs| ==> all[k + 1] == xs[k + 1]);
      } else {
        assert Turn(k - |xs|);
        DepthSuffix(xs, ys, k - |xs|);
        assert all[k] == ys[k - |xs|] && (k + 1 < |all| ==> all[k + 1] == ys[k + 1 - |xs|]);
      }
    }
  }

  /** The emissions of an expression, or of part of one, with at least n operands to show for them. */
  ghost predicate Operands(acts: seq<Action>, n: int) {
    OnlyOperands(acts) && SwapsBacked(acts) && Depth(acts, |acts|) >= n
  }

  lemma {:induction false} OperandsConcat(xs: seq<Action>, m: nat, ys: seq<Action>, n: int)
    requires Operands(xs, m) && Operands(ys, n)
    ensures Operands(xs + ys, m + n)
  {
    BackedConcat(xs, ys);
    DepthSuffix(xs, ys, |ys|);
  }

  lemma {:induction false} OneOperand(a: Action)
    requires IsOperand(a) && !a.SwapLast?
    ensures Operands([a], Rise(a))
  {
    assert Depth([a], 0) == 0;
  }

  /** default behind its two arguments: the swap, and the function. */
  lemma {:induction false} DefaultOperand(xs: seq<Action>)
    requires Operands(xs, 2)
    ensures Operands(xs + [SwapLast, EmitFn(DefaultFn, 2)], 1)
  {
    var tail := [SwapLast, EmitFn(DefaultFn, 2)];
    var all := xs + tail;
    DepthSuffix(xs, tail, 0);
    assert all[|xs|] == SwapLast && all[|xs| + 1] == EmitFn(DefaultFn, 2);
    assert Depth(all, |xs| + 1) == Depth(all, |xs|) && Depth(all, |xs| + 2) == Depth(all, |xs| + 1) - 1;
    forall k: nat | k < |all| ensures SwapAt(all, k) {
      if k < |xs| {
        assert Turn(k);
        DepthPrefix(xs, tail, k);
        assert all[k] == xs[k] && (k + 1 < |xs| ==> all[k + 1] == xs[k + 1]);
      }
    }
  }

  // ----- expressions emit operands only -----

  /** The parser's registry, or any other that lists functions with their own number of arguments. */
  predicate ByArity(g: Source) {
    Aligned(g.builtins)
  }

  /** A parse of an expression emits operands, and a leaf at least when it takes something. */
  ghost predicate Emits(p: Parsed) {
    Operands(p.acts, if p.Took? then 1 else 0)
  }

  lemma {:induction false} NothingEmits()
    ensures Operands([], 0)
  {
  }

  lemma {:induction false} EmitsNot(p: Parsed)
    requires Emits(p)
    ensures Emits(AndEmit(p, [EmitFn(NotFn, 1)]))
  {
    OneOperand(EmitFn(NotFn, 1));
    OperandsConcat(p.acts, if p.Took? then 1 else 0, [EmitFn(NotFn, 1)], 0);
  }

  /** An operator behind its second operand, or what came of the attempt to read one. */
  lemma {:induction false} EmitsInfix(acts: seq<Action>, p: Parsed, f: Function)
    requires Operands(acts, 1) && Emits(p)
    ensures Emits(After(acts, AndEmit(p, [EmitFn(f, 2)])))
  {
    if p.Took? {
      OneOperand(EmitFn(f, 2));
      OperandsConcat(p.acts, 1, [EmitFn(f, 2)], -1);
      OperandsConcat(acts, 1, p.acts + [EmitFn(f, 2)], 0);
    } else {
      OperandsConcat(acts, 1, p.acts, 0);
    }
  }

  lemma {:induction false} OrEmits(g: Source, i: nat)
    requires At(g, i) && ByArity(g)
    ensures Emits(ParseOr(g, i))
    decreases |g.toks| - i, 5
  {
    AndEmits(g, i);
    var left := ParseAnd(g, i);
    if left.Took? && IsWord(g.toks[left.next], "or") {
      AndEmits(g, Next(g, left.next));
      EmitsInfix(left.acts, ParseAnd(g, Next(g, left.next)), OrFn);
    }
  }

  lemma {:induction false} AndEmits(g: Source, i: nat)
    requires At(g, i) && ByArity(g)
    ensures Emits(ParseAnd(g, i))
    decreases |g.toks| - i, 4
  {
    NotEmits(g, i);
    var left := ParseNot(g, i);
    if left.Took? && IsWord(g.toks[left.next], "and") {
      NotEmits(g, Next(g, left.next));
      EmitsInfix(left.acts, ParseNot(g, Next(g, left.next)), AndFn);
    }
  }

  lemma {:induction false} NotEmits(g: Source, i: nat)
    requires At(g, i) && ByArity(g)
    ensures Emits(ParseNot(g, i))
    decreases |g.toks| - i, 3
  {
    if IsWord(g.toks[i], "not") {
      NotEmits(g, i + 1);
      EmitsNot(ParseNot(g, i + 1));
    } else {
      ComparisonEmits(g, i);
    }
  }

  lemma {:induction false} ComparisonEmits(g: Source, i: nat)
    requires At(g, i) && ByArity(g)
    ensures Emits(ParseComparison(g, i))
    decreases |g.toks| - i, 2
  {
    DatumEmits(g, i, i, 0, 0);
    var left := ParseDatum(g, i, i, 0, 0);
    if left.Took? && Comparison(g.toks[left.next]).Some? {
      var j, f := Next(g, left.next), Pure(Comparison(g.toks[left.next]).value);
      DatumEmits(g, j, j, 0, 0);
      EmitsInfix(left.acts, ParseDatum(g, j, j, 0, 0), f);
    }
  }

  lemma {:induction false} LiteralEmits(g: Source, first: nat, i: nat)
    requires At(g, i) && first < |g.toks|
    ensures Emits(Literal(g, first, i))
  {
    var p := Literal(g, first, i);
    if p.Took? {
      OneOperand(p.acts[0]);
    }
  }

  lemma {:induction false} DatumEmits(g: Source, i: nat, first: nat, brackets: nat, braces: nat)
    requires At(g, i) && first < |g.toks| && ByArity(g)
    ensures Emits(ParseDatum(g, i, first, brackets, braces))
    decreases |g.toks| - i, 1
  {
    NothingEmits();
    var top := brackets == 0 && braces == 0;
    match KindAt(g, i)
    case LeftParen => ParensEmit(g, i);
    case Id =>
      if KindAt(g, i + 1) == LeftParen {
        CallEmits(g, i);
      } else {
        OneOperand(PushVar(g.toks[i].text));
        LiteralEmits(g, i, i);
        DatumEmits(g, i + 1, first, brackets, braces);
      }
    case LeftBracket => DatumEmits(g, i + 1, if top then i else first, brackets + 1, braces);
    case LeftBrace => DatumEmits(g, i + 1, if top then i else first, brackets, braces + 1);
    case RightBracket =>
      LiteralEmits(g, first, i);
      if brackets > 0 {
        DatumEmits(g, i + 1, first, brackets - 1, braces);
      }
    case RightBrace =>
      LiteralEmits(g, first, i);
      if braces > 0 {
        DatumEmits(g, i + 1, first, brackets, braces - 1);
      }
    case Eof =>
    case _ =>
      LiteralEmits(g, i, i);
      DatumEmits(g, i + 1, first, brackets, braces);
  }

  lemma {:induction false} ParensEmit(g: Source, i: nat)
    requires At(g, i) && KindAt(g, i) == LeftParen && ByArity(g)
    ensures Emits(ParseParens(g, i))
    decreases |g.toks| - i, 0
  {
    OrEmits(g, i + 1);
  }

  /** A call behind its n arguments. */
  lemma {:induction false} CallActsEmit(g: Source, name: string, n: nat, args: seq<Action>)
    requires ByArity(g) && Operands(args, n)
    ensures Operands(args + CallActs(g, name, n), 1)
  {
    var acts := CallActs(g, name, n);
    if (name, n) in g.builtins && g.builtins[(name, n)] == DefaultFn {
      DefaultOperand(args);
      assert acts == [SwapLast, EmitFn(DefaultFn, 2)];
    } else {
      OneOperand(acts[0]);
      OperandsConcat(args, n, acts, 1 - n);
    }
  }

  lemma {:induction false} CallEmits(g: Source, i: nat)
    requires At(g, i) && KindAt(g, i) == Id && KindAt(g, i + 1) == LeftParen && ByArity(g)
    ensures Emits(ParseCall(g, i))
    decreases |g.toks| - i, 0
  {
    var name := g.toks[i].text;
    if KindAt(g, i + 2) == RightParen {
      NothingEmits();
      CallActsEmit(g, name, 0, []);
      assert [] + CallActs(g, name, 0) == CallActs(g, name, 0);
    } else {
      ArgsEmit(g, i + 2, 0);
      var args := ParseArgs(g, i + 2, 0);
      if args.Args? {
        CallActsEmit(g, name, args.n, args.acts);
      }
    }
  }

  lemma {:induction false} ArgsEmit(g: Source, i: nat, n: nat)
    requires At(g, i) && ByArity(g)
    ensures var r := ParseArgs(g, i, n); Operands(r.acts, if r.Args? then r.n - n else 0)
    decreases |g.toks| - i, 6
  {
    OrEmits(g, i);
    var arg := ParseOr(g, i);
    if arg.Took? && KindAt(g, arg.next) == Comma {
      ArgsEmit(g, Next(g, arg.next), n + 1);
      var rest := ParseArgs(g, Next(g, arg.next), n + 1);
      OperandsConcat(arg.acts, 1, rest.acts, if rest.Args? then rest.n - n - 1 else 0);
    }
  }

  // ----- a condition is chained right behind its else -----

  /** The last emission before the k-th that is not an operand's. */
  function Before(acts: seq<Action>, k: nat): Option<Action>
    requires k <= |acts|
    decreases k, acts
  {
    if k == 0 then None else if IsOperand(acts[k - 1]) then Before(acts, k - 1) else Some(acts[k - 1])
  }

  ghost predicate Chained(acts: seq<Action>) {
    forall k: nat {:trigger Turn(k)} :: Turn(k) && k < |acts| && acts[k].ChainIf? ==> Before(acts, k) == Some(BeginElse)
  }

  lemma {:induction false} BeforePrefix(xs: seq<Action>, ys: seq<Action>, k: nat)
    requires k <= |xs|
    ensures Before(xs + ys, k) == Before(xs, k)
    decreases k
  {
    if k > 0 {
      assert (xs + ys)[k - 1] == xs[k - 1];
      BeforePrefix(xs, ys, k - 1);
    }
  }

  lemma {:induction false} BeforeSuffix(xs: seq<Action>, ys: seq<Action>, k: nat)
    requires k <= |ys| && Before(ys, k).Some?
    ensures Before(xs + ys, |xs| + k) == Before(ys, k)
    decreases k
  {
    assert (xs + ys)[|xs| + k - 1] == ys[k - 1];
    if IsOperand(ys[k - 1]) {
      BeforeSuffix(xs, ys, k - 1);
    }
  }

  lemma {:induction false} ChainedConcat(xs: seq<Action>, ys: seq<Action>)
    requires Chained(xs) && Chained(ys)
    ensures Chained(xs + ys)
  {
    forall k: nat | k < |xs + ys| && (xs + ys)[k].ChainIf? ensures Before(xs + ys, k) == Some(BeginElse) {
      if k < |xs| {
        assert Turn(k);
        BeforePrefix(xs, ys, k);
      } else {
        assert Turn(k - |xs|);
        BeforeSuffix(xs, ys, k - |xs|);
      }
    }
  }

  /** What a template's emissions keep to. */
  ghost predicate Ordered(acts: seq<Action>) {
    Chained(acts) && SwapsBacked(acts) && Depth(acts, |acts|) >= 0
  }

  lemma {:induction false} OrderedConcat(xs: seq<Action>, ys: seq<Action>)
    requires Ordered(xs) && Ordered(ys)
    ensures Ordered(xs + ys)
  {
    ChainedConcat(xs, ys);
    BackedConcat(xs, ys);
    DepthSuffix(xs, ys, |ys|);
  }

  lemma {:induction false} OperandsOrder(acts: seq<Action>)
    requires Operands(acts, 0)
    ensures Ordered(acts)
  {
  }

  lemma {:induction false} OneOrders(a: Action)
    requires !IsOperand(a) && !a.ChainIf?
    ensures Ordered([a])
  {
  }

  /** Operands, then an emission of a statement, but not a chained condition. */
  lemma {:induction false} OperandsThen(acts: seq<Action>, a: Action)
    requires Operands(acts, 0) && !IsOperand(a) && !a.ChainIf?
    ensures Ordered(acts + [a])
  {
    OperandsOrder(acts);
    OneOrders(a);
    OrderedConcat(acts, [a]);
  }

  lemma {:induction false} ElseThenCondition(acts: seq<Action>)
    requires Operands(acts, 0)
    ensures Ordered([BeginElse] + (acts + [ChainIf])) && Ordered([BeginElse] + acts)
  {
    var all := [BeginElse] + acts;
    OperandsOrder(acts);
    OneOrders(BeginElse);
    OrderedConcat([BeginElse], acts);
    assert [BeginElse] + (acts + [ChainIf]) == all + [ChainIf];
    BackedConcat(all, [ChainIf]);
    forall k: nat | k < |all| + 1 && (all + [ChainIf])[k].ChainIf?
      ensures Before(all + [ChainIf], k) == Some(BeginElse)
    {
      BehindElse(acts, |acts|);
      BeforePrefix(all, [ChainIf], |all|);
      assert k == |all|;
    }
  }

  lemma {:induction false} BehindElse(acts: seq<Action>, k: nat)
    requires OnlyOperands(acts) && k <= |acts|
    ensures Before([BeginElse] + acts, k + 1) == Some(BeginElse)
    decreases k
  {
    if k > 0 {
      assert ([BeginElse] + acts)[k] == acts[k - 1];
      BehindElse(acts, k - 1);
    }
  }

  lemma {:induction false} StatementOrders(g: Source, i: nat)
    requires At(g, i) && ByArity(g)
    ensures Ordered(ParseStatement(g, i).acts)
  {
    var t := g.toks[i];
    if t.kind == Id && t.text == "if" {
      OrEmits(g, i + 1);
      OperandsThen(ParseOr(g, i + 1).acts, OpenIf);
      OperandsOrder(ParseOr(g, i + 1).acts);
    } else if t.kind == Id && t.text == "else" {
      ElseOrders(g, i);
    } else if t.kind == Id && t.text == "for" {
      ForOrders(g, i + 1);
    }
  }

  lemma {:induction false} ElseOrders(g: Source, i: nat)
    requires At(g, i) && KindAt(g, i) != Eof && ByArity(g)
    ensures Ordered(ElseTag(g, i).acts)
  {
    OneOrders(BeginElse);
    if IsWord(g.toks[i + 1], "if") {
      OrEmits(g, i + 2);
      ElseThenCondition(ParseOr(g, i + 2).acts);
    }
  }

  lemma {:induction false} ForOrders(g: Source, i: nat)
    requires At(g, i) && ByArity(g)
    ensures Ordered(ParseFor(g, i).acts)
  {
    OperandsOrder([]);
    if KindAt(g, i) == Id && KindAt(g, i + 1) != Comma {
      ForInOrders(g, i + 1, VarsOf("", g.toks[i].text));
    } else if KindAt(g, i) == Id && KindAt(g, i + 2) == Id {
      ForInOrders(g, i + 3, VarsOf(g.toks[i].text, g.toks[i + 2].text));
    }
  }

  lemma {:induction false} ForInOrders(g: Source, i: nat, vars: LoopVars)
    requires At(g, i) && ByArity(g)
    ensures Ordered(ParseForIn(g, i, vars).acts)
  {
    if IsWord(g.toks[i], "in") {
      OrEmits(g, i + 1);
      OperandsThen(ParseOr(g, i + 1).acts, OpenFor(vars));
      OperandsOrder(ParseOr(g, i + 1).acts);
    }
  }

  lemma {:induction false} PieceOrders(g: Source, i: nat)
    requires At(g, i) && KindAt(g, i) != Eof && ByArity(g)
    ensures Ordered(ParsePiece(g, i).acts)
  {
    match KindAt(g, i)
    case StatementOpen => StatementOrders(g, i + 1);
    case LineStatementOpen => StatementOrders(g, i + 1);
    case ExpressionOpen =>
      OrEmits(g, i + 1);
      OperandsOrder(ParseOr(g, i + 1).acts);
      OperandsThen(ParseOr(g, i + 1).acts, EmitPrint);
    case TextKind => OneOrders(EmitText(g.toks[i].text));
    case _ => OperandsOrder([]);
  }

  lemma {:induction false} TemplateOrders(g: Source, i: nat)
    requires At(g, i) && ByArity(g)
    ensures Ordered(ParseTemplate(g, i).acts)
    decreases |g.toks| - i
  {
    if KindAt(g, i) == Eof {
      OperandsOrder([]);
    } else {
      PieceOrders(g, i);
      var piece := ParsePiece(g, i);
      if piece.Took? {
        TemplateOrders(g, Next(g, piece.next));
        OrderedConcat(piece.acts, ParseTemplate(g, Next(g, piece.next)).acts);
      }
    }
  }
}
