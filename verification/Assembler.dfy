/** What the parser does to a template under construction: the bytecodes so far, and the
    unfinished jumps held on the parser's two stacks. Each action is one emission. */
module Assembler {
  import opened Options
  import opened Json
  import opened Bytecodes
  import opened Machine
  import opened Syntax
  import opened Compiler

  datatype Action =
    | EmitText(s: string)
    | PushLit(v: Value)
    | PushVar(name: string)
    | EmitFn(f: Function, n: nat)
    | EmitCall(name: string, n: nat)
    | SwapLast
    | EmitPrint
    | OpenIf
    | BeginElse
    | ChainIf
    | CloseIf
    | OpenFor(vars: LoopVars)
    | CloseFor

  /** Parser::IfData: the conditional jump to patch next, unless a plain else has used it up,
      and the jumps that leave each branch. */
  datatype IfData = IfData(prev: Option<nat>, jumps: seq<nat>)

  datatype Asm = Asm(code: seq<Bytecode>, ifs: seq<IfData>, loops: seq<nat>)

  /** Rejected is a parser error; Broken is an index the C++ standard leaves undefined. */
  datatype Built = Fine(asm: Asm) | Rejected | Broken

  const EMPTY: Asm := Asm([], [], [])

  function Patch(code: seq<Bytecode>, i: nat, addr: nat): (r: seq<Bytecode>)
    requires i < |code|
    ensures |r| == |code|
  {
    code[i := code[i].(args := Arg30(addr))]
  }

  /** The first k of the listed jumps, patched. */
  function PatchAll(code: seq<Bytecode>, jumps: seq<nat>, k: nat, addr: nat): (r: seq<Bytecode>)
    requires k <= |jumps| && forall i | 0 <= i < |jumps| :: jumps[i] < |code|
    ensures |r| == |code|
    decreases k
  {
    if k == 0 then code else Patch(PatchAll(code, jumps, k - 1, addr), jumps[k - 1], addr)
  }

  predicate InRange(d: IfData, size: nat) {
    (d.prev.Some? ==> d.prev.value < size) && forall i | 0 <= i < |d.jumps| :: d.jumps[i] < size
  }

  function Top(asm: Asm): IfData
    requires asm.ifs != []
  {
    asm.ifs[|asm.ifs| - 1]
  }

  function Below(asm: Asm): seq<IfData>
    requires asm.ifs != []
  {
    asm.ifs[..|asm.ifs| - 1]
  }

  function Emit(asm: Asm, bc: Bytecode): Asm {
    asm.(code := asm.code + [bc])
  }

  function DoSwap(asm: Asm): Built {
    var n := |asm.code|;
    if n < 2 then Broken
    else Fine(asm.(code := asm.code[..n - 2] + [asm.code[n - 1], asm.code[n - 2]]))
  }

  function DoCloseIf(asm: Asm): Built {
    if asm.ifs == [] then Rejected
    else if !InRange(Top(asm), |asm.code|) then Broken
    else
      var code := if Top(asm).prev.Some? then Patch(asm.code, Top(asm).prev.value, |asm.code|) else asm.code;
      Fine(Asm(PatchAll(code, Top(asm).jumps, |Top(asm).jumps|, |code|), Below(asm), asm.loops))
  }

  function DoBeginElse(asm: Asm): Built {
    if asm.ifs == [] then Rejected
    else if Top(asm).prev.None? || !InRange(Top(asm), |asm.code|) then Broken
    else
      var code := asm.code + [Instr(Jump, 0)];
      Fine(Asm(Patch(code, Top(asm).prev.value, |code|),
               Below(asm) + [IfData(None, Top(asm).jumps + [|asm.code|])], asm.loops))
  }

  function DoCloseFor(asm: Asm): Built {
    if asm.loops == [] then Rejected
    else
      var start := asm.loops[|asm.loops| - 1];
      if start >= |asm.code| then Broken
      else Fine(Asm(Patch(asm.code, start, |asm.code|) + [Instr(EndLoop, start + 1)],
                    asm.ifs, asm.loops[..|asm.loops| - 1]))
  }

  function Do(notation: Notation, asm: Asm, a: Action): Built {
    match a
    case EmitText(s) => Fine(Emit(asm, TextInstr(s)))
    case PushLit(v) => Fine(Emit(asm, PushLiteral(v)))
    case PushVar(name) => Fine(Emit(asm, PushLookup(notation, name)))
    case EmitFn(f, n) => Fine(asm.(code := AppendFunction(asm.code, Fn(f), n)))
    case EmitCall(name, n) => Fine(asm.(code := AppendCallback(asm.code, name, n)))
    case SwapLast => DoSwap(asm)
    case EmitPrint => Fine(asm.(code := AppendFunction(asm.code, PrintValue, 1)))
    case OpenIf => Fine(Emit(asm, Instr(ConditionalJump, 0)).(ifs := asm.ifs + [IfData(Some(|asm.code|), [])]))
    case BeginElse => DoBeginElse(asm)
    case ChainIf =>
      if asm.ifs == [] then Broken
      else Fine(Emit(asm, Instr(ConditionalJump, 0)).(ifs := Below(asm) + [Top(asm).(prev := Some(|asm.code|))]))
    case CloseIf => DoCloseIf(asm)
    case OpenFor(vars) => Fine(Emit(asm, StartInstr(vars)).(loops := asm.loops + [|asm.code|]))
    case CloseFor => DoCloseFor(asm)
  }

  /** One emission after another, as a function of the state. */
  function Emitter(notation: Notation): (Asm, Action) -> Built {
    (asm: Asm, a: Action) => Do(notation, asm, a)
  }

  /** The first k actions. */
  function DoFirst(next: (Asm, Action) -> Built, asm: Asm, acts: seq<Action>, k: nat): Built
    requires k <= |acts|
    decreases k
  {
    if k == 0 then Fine(asm)
    else match DoFirst(next, asm, acts, k - 1)
      case Fine(mid) => next(mid, acts[k - 1])
      case Rejected => Rejected
      case Broken => Broken
  }

  function DoAll(next: (Asm, Action) -> Built, asm: Asm, acts: seq<Action>): Built {
    DoFirst(next, asm, acts, |acts|)
  }

  /** What a list of actions makes of a state. */
  function Assemble(notation: Notation, asm: Asm, acts: seq<Action>): Built {
    DoAll(Emitter(notation), asm, acts)
  }

  function AndThen(next: (Asm, Action) -> Built, b: Built, acts: seq<Action>): Built {
    match b
    case Fine(asm) => DoAll(next, asm, acts)
    case Rejected => Rejected
    case Broken => Broken
  }

  lemma {:induction false} DoFirstOfConcat(next: (Asm, Action) -> Built, asm: Asm, xs: seq<Action>, ys: seq<Action>,
                                           k: nat)
    requires k <= |xs|
    ensures DoFirst(next, asm, xs + ys, k) == DoFirst(next, asm, xs, k)
    decreases k
  {
    if k > 0 {
      DoFirstOfConcat(next, asm, xs, ys, k - 1);
      assert (xs + ys)[k - 1] == xs[k - 1];
    }
  }

  lemma {:induction false} DoRestOfConcat(next: (Asm, Action) -> Built, asm: Asm, mid: Asm, xs: seq<Action>,
                                          ys: seq<Action>, k: nat)
    requires k <= |ys| && DoAll(next, asm, xs) == Fine(mid)
    ensures DoFirst(next, asm, xs + ys, |xs| + k) == DoFirst(next, mid, ys, k)
    decreases k
  {
    if k == 0 {
      DoFirstOfConcat(next, asm, xs, ys, |xs|);
    } else {
      DoRestOfConcat(next, asm, mid, xs, ys, k - 1);
      assert (xs + ys)[|xs| + k - 1] == ys[k - 1];
    }
  }

  lemma {:induction false} StuckStays(next: (Asm, Action) -> Built, asm: Asm, acts: seq<Action>, j: nat, k: nat)
    requires j <= k <= |acts| && !DoFirst(next, asm, acts, j).Fine?
    ensures DoFirst(next, asm, acts, k) == DoFirst(next, asm, acts, j)
    decreases k
  {
    if j < k {
      StuckStays(next, asm, acts, j, k - 1);
    }
  }

  lemma {:induction false} StuckConcat(next: (Asm, Action) -> Built, asm: Asm, xs: seq<Action>, ys: seq<Action>)
    requires !DoAll(next, asm, xs).Fine?
    ensures DoAll(next, asm, xs + ys) == DoAll(next, asm, xs)
  {
    DoFirstOfConcat(next, asm, xs, ys, |xs|);
    StuckStays(next, asm, xs + ys, |xs|, |xs + ys|);
  }

  lemma {:induction false} DoConcat(next: (Asm, Action) -> Built, asm: Asm, xs: seq<Action>, ys: seq<Action>)
    ensures DoAll(next, asm, xs + ys) == AndThen(next, DoAll(next, asm, xs), ys)
  {
    var b := DoAll(next, asm, xs);
    if b.Fine? {
      DoRestOfConcat(next, asm, b.asm, xs, ys, |ys|);
    } else {
      StuckConcat(next, asm, xs, ys);
    }
  }

  lemma {:induction false} DoOne(next: (Asm, Action) -> Built, asm: Asm, a: Action)
    ensures DoAll(next, asm, [a]) == next(asm, a)
  {
    assert DoFirst(next, asm, [a], 0) == Fine(asm);
  }

  /** Some actions, then one. */
  lemma {:induction false} DoThenOne(next: (Asm, Action) -> Built, asm: Asm, xs: seq<Action>, mid: Asm, a: Action)
    requires DoAll(next, asm, xs) == Fine(mid)
    ensures DoAll(next, asm, xs + [a]) == next(mid, a)
  {
    DoConcat(next, asm, xs, [a]);
    DoOne(next, mid, a);
  }

  lemma {:induction false} DoThen(next: (Asm, Action) -> Built, asm: Asm, xs: seq<Action>, mid: Asm, ys: seq<Action>)
    requires DoAll(next, asm, xs) == Fine(mid)
    ensures DoAll(next, asm, xs + ys) == DoAll(next, mid, ys)
  {
    DoConcat(next, asm, xs, ys);
  }

  // ----- the actions of a tree, in the order the parser comes to them -----

  function Acts(e: Expr): seq<Action>
    decreases e, 1, 0
  {
    match e
    case Lit(_, v) => [PushLit(v)]
    case Lookup(name) => [PushVar(name)]
    case Apply(f, args) =>
      (ActsArgs(args, |args|) + if f == DefaultFn then [SwapLast] else []) + [EmitFn(f, |args|)]
    case Call(name, args) => ActsArgs(args, |args|) + [EmitCall(name, |args|)]
  }

  function ActsArgs(args: seq<Expr>, n: nat): seq<Action>
    requires n <= |args|
    decreases args, 0, n
  {
    if n == 0 then [] else ActsArgs(args, n - 1) + Acts(args[n - 1])
  }

  function ActsBlock(b: seq<Stmt>, i: nat): seq<Action>
    requires i <= |b|
    decreases b, |b| - i
  {
    if i == |b| then [] else ActsStmt(b[i]) + ActsBlock(b, i + 1)
  }

  function ActsStmt(s: Stmt): seq<Action>
    decreases s
  {
    match s
    case Text(text) => [EmitText(text)]
    case Comment(_) => []
    case Print(e) => Acts(e) + [EmitPrint]
    case If(_, br) => (Acts(br.cond) + [OpenIf]) + (ActsBlock(br.thn, 0) + ActsElse(br.els))
    case For(_, vars, e, body, _) => (Acts(e) + [OpenFor(vars)]) + (ActsBlock(body, 0) + [CloseFor])
  }

  function ActsElse(els: Else): seq<Action>
    decreases els
  {
    match els
    case EndIf(_) => [CloseIf]
    case ElseDo(_, b, _) => [BeginElse] + (ActsBlock(b, 0) + [CloseIf])
    case ElseIf(_, br) => ([BeginElse] + (Acts(br.cond) + [ChainIf])) + (ActsBlock(br.thn, 0) + ActsElse(br.els))
  }
}
