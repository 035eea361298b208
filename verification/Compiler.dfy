/** The code a template tree stands for, laid out in one pass with known addresses: what the
    parser must produce with its patching and merging. */
module Compiler {
  import opened Options
  import opened Json
  import opened Bytecodes
  import opened Machine
  import opened Syntax

  function EndsWithPush(code: seq<Bytecode>): bool {
    code != [] && code[|code| - 1].op == Push
  }

  function EndsWithLiteral(code: seq<Bytecode>): bool {
    EndsWithPush(code) && code[|code| - 1].flags == Immediate
  }

  /** Parser::append_function: a push that comes last becomes the function's last argument. */
  function AppendFunction(code: seq<Bytecode>, op: Op, n: nat): seq<Bytecode> {
    if EndsWithPush(code) then
      code[..|code| - 1] + [code[|code| - 1].(op := op, args := Arg30(n))]
    else
      code + [Instr(op, n)]
  }

  /** Parser::append_callback: only a literal merges, since a lookup's name sits where the
      callback's name must go. Nothing asks whether the callback takes an argument at all. */
  function AppendCallback(code: seq<Bytecode>, name: string, n: nat): seq<Bytecode> {
    if EndsWithLiteral(code) then
      code[..|code| - 1] + [code[|code| - 1].(op := Callback, args := Arg30(n), str := name)]
    else
      code + [Instr(Callback, n).(str := name)]
  }

  // ----- expressions -----

  function IsLeaf(e: Expr): bool {
    e.Lit? || e.Lookup?
  }

  function PushOf(notation: Notation, leaf: Expr): Bytecode
    requires IsLeaf(leaf)
  {
    match leaf
    case Lit(_, v) => PushLiteral(v)
    case Lookup(name) => PushLookup(notation, name)
  }

  /** default(a, b): the code of b, then an instruction that holds a's push in its immediate. */
  function DefaultCode(push: Bytecode, code: seq<Bytecode>): seq<Bytecode> {
    code + [push.(op := Fn(DefaultFn), args := 2)]
  }

  /** The code of an expression by itself. */
  function Code(notation: Notation, e: Expr): seq<Bytecode>
    decreases e, 1, 0, notation
  {
    match e
    case Lit(_, v) => [PushLiteral(v)]
    case Lookup(name) => [PushLookup(notation, name)]
    case Apply(f, args) =>
      if f == DefaultFn && |args| == 2 && IsLeaf(args[0]) then
        DefaultCode(PushOf(notation, args[0]), Code(notation, args[1]))
      else
        AppendFunction(CodeArgs(notation, args, |args|), Fn(f), |args|)
    case Call(name, args) => AppendCallback(CodeArgs(notation, args, |args|), name, |args|)
  }

  /** The code of the first n arguments. */
  function CodeArgs(notation: Notation, args: seq<Expr>, n: nat): seq<Bytecode>
    requires n <= |args|
    decreases args, 0, n, notation
  {
    if n == 0 then [] else CodeArgs(notation, args, n - 1) + Code(notation, args[n - 1])
  }

  function PrintCode(notation: Notation, e: Expr): seq<Bytecode> {
    AppendFunction(Code(notation, e), PrintValue, 1)
  }

  // ----- statements: blocks from their i-th statement on; `base` is the first address -----

  /** How expressions are compiled; statements only need to place their code. */
  datatype Kit = Kit(code: Expr -> seq<Bytecode>, show: Expr -> seq<Bytecode>)

  function Expressions(notation: Notation): Kit {
    Kit((e: Expr) => Code(notation, e), (e: Expr) => PrintCode(notation, e))
  }

  /** The code of a whole template. */
  function TemplateCode(notation: Notation, b: seq<Stmt>): seq<Bytecode> {
    Layout(Expressions(notation), b, 0, 0)
  }

  function Size(kit: Kit, b: seq<Stmt>, i: nat): nat
    requires i <= |b|
    decreases b, |b| - i, kit
  {
    if i == |b| then 0 else SizeStmt(kit, b[i]) + Size(kit, b, i + 1)
  }

  function SizeStmt(kit: Kit, s: Stmt): nat
    decreases s, kit
  {
    match s
    case Text(_) => 1
    case Comment(_) => 0
    case Print(e) => |kit.show(e)|
    case If(_, br) => SizeBranches(kit, br)
    case For(_, _, e, body, _) => |kit.code(e)| + 1 + Size(kit, body, 0) + 1
  }

  function SizeBranches(kit: Kit, br: Branches): nat
    decreases br, kit
  {
    |kit.code(br.cond)| + 1 + Size(kit, br.thn, 0) + SizeElse(kit, br.els)
  }

  function SizeElse(kit: Kit, els: Else): nat
    decreases els, kit
  {
    match els
    case EndIf(_) => 0
    case ElseDo(_, b, _) => 1 + Size(kit, b, 0)
    case ElseIf(_, br) => 1 + SizeBranches(kit, br)
  }

  function Layout(kit: Kit, b: seq<Stmt>, i: nat, base: nat): (code: seq<Bytecode>)
    requires i <= |b|
    ensures |code| == Size(kit, b, i)
    decreases b, |b| - i, kit
  {
    if i == |b| then []
    else LayoutStmt(kit, b[i], base) + Layout(kit, b, i + 1, base + SizeStmt(kit, b[i]))
  }

  /** Where a false condition goes, when the rest of its chain starts at `pos`: past the jump
      that ends the branch before it. */
  function ElseTarget(els: Else, pos: nat): nat {
    if els.EndIf? then pos else pos + 1
  }

  function LayoutStmt(kit: Kit, s: Stmt, base: nat): (code: seq<Bytecode>)
    ensures |code| == SizeStmt(kit, s)
    decreases s, kit
  {
    match s
    case Text(text) => [TextInstr(text)]
    case Comment(_) => []
    case Print(e) => kit.show(e)
    case If(_, br) => LayoutBranches(kit, br, base, base + SizeBranches(kit, br))
    case For(_, vars, e, body, _) =>
      var c := kit.code(e);
      var last := base + |c| + 1 + Size(kit, body, 0);
      c + [StartInstr(vars).(args := Arg30(last))]
      + Layout(kit, body, 0, base + |c| + 1)
      + [Instr(EndLoop, base + |c| + 1)]
  }

  /** A condition, its branch and the rest of its chain; every branch but the last ends by
      jumping to `end`. */
  function LayoutBranches(kit: Kit, br: Branches, base: nat, end: nat): (code: seq<Bytecode>)
    ensures |code| == SizeBranches(kit, br)
    decreases br, kit
  {
    var c := kit.code(br.cond);
    var start := base + |c| + 1;
    var rest := start + Size(kit, br.thn, 0);
    c + [Instr(ConditionalJump, ElseTarget(br.els, rest))]
    + Layout(kit, br.thn, 0, start)
    + LayoutElse(kit, br.els, rest, end)
  }

  function LayoutElse(kit: Kit, els: Else, base: nat, end: nat): (code: seq<Bytecode>)
    ensures |code| == SizeElse(kit, els)
    decreases els, kit
  {
    match els
    case EndIf(_) => []
    case ElseDo(_, b, _) => [Instr(Jump, end)] + Layout(kit, b, 0, base + 1)
    case ElseIf(_, br) => [Instr(Jump, end)] + LayoutBranches(kit, br, base + 1, end)
  }

  // ----- the expressions the parser compiles as intended -----

  /** The first thing emitted for e is a call without arguments. */
  predicate StartsNullary(e: Expr)
    decreases e
  {
    match e
    case Call(_, args) => args == [] || StartsNullary(args[0])
    case Apply(_, args) => args != [] && StartsNullary(args[0])
    case _ => false
  }

  /** Swapping the last two bytecodes puts a's push last, provided b's code is one bytecode or
      has nothing but copies of that push before its last. */
  predicate SwapWorks(notation: Notation, a: Expr, b: Expr) {
    IsLeaf(a) &&
    var code := Code(notation, b);
    forall i | 0 <= i < |code| - 1 :: code[i] == PushOf(notation, a)
  }

  /** Everywhere in e: default() gets arguments the swap handles, functions have their arity, and
      no call without arguments follows a literal argument. */
  predicate Safe(notation: Notation, e: Expr)
    decreases e, 1, 0, notation
  {
    match e
    case Apply(f, args) =>
      && |args| == Arity(f) && SafeArgs(notation, args, |args|)
      && (f == DefaultFn ==> SwapWorks(notation, args[0], args[1]))
    case Call(_, args) => |args| < ARGS_LIMIT && SafeArgs(notation, args, |args|)
    case _ => true
  }

  predicate SafeArgs(notation: Notation, args: seq<Expr>, n: nat)
    requires n <= |args|
    decreases args, 0, n, notation
  {
    n == 0 || (
      && SafeArgs(notation, args, n - 1)
      && Safe(notation, args[n - 1])
      && (n > 1 && args[n - 2].Lit? ==> !StartsNullary(args[n - 1])))
  }

  predicate SafeBlock(notation: Notation, b: seq<Stmt>, i: nat)
    requires i <= |b|
    decreases b, |b| - i, notation
  {
    i == |b| || (SafeStmt(notation, b[i]) && SafeBlock(notation, b, i + 1))
  }

  predicate SafeStmt(notation: Notation, s: Stmt)
    decreases s, notation
  {
    match s
    case Text(_) => true
    case Comment(_) => true
    case Print(e) => Safe(notation, e)
    case If(_, br) => SafeBranches(notation, br)
    case For(_, _, e, body, _) => Safe(notation, e) && SafeBlock(notation, body, 0)
  }

  predicate SafeBranches(notation: Notation, br: Branches)
    decreases br, notation
  {
    Safe(notation, br.cond) && SafeBlock(notation, br.thn, 0) && SafeElse(notation, br.els)
  }

  predicate SafeElse(notation: Notation, els: Else)
    decreases els, notation
  {
    match els
    case EndIf(_) => true
    case ElseDo(_, b, _) => SafeBlock(notation, b, 0)
    case ElseIf(_, br) => SafeBranches(notation, br)
  }

  // ----- facts about expression code -----

  lemma {:induction false} CodeNonEmpty(notation: Notation, e: Expr)
    ensures |Code(notation, e)| > 0
  {
  }

  /** An expression's code ends in a push exactly when the expression is a leaf. */
  lemma {:induction false} LastIsPush(notation: Notation, e: Expr)
    ensures EndsWithPush(Code(notation, e)) <==> IsLeaf(e)
  {
  }
}
