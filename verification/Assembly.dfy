/** The parser's one-pass emission, with its merging, swapping and back-patching, builds exactly
    the laid-out code of the tree. */
module Assembly {
  import opened Options
  import opened Json
  import opened Bytecodes
  import opened Machine
  import opened Syntax
  import opened Compiler
  import opened Assembler

  /** A parser's emitter. `next` and `kit` are kept abstract: the proofs below unfold them one
      named action or expression at a time. */
  datatype Writer = Writer(next: (Asm, Action) -> Built, notation: Notation, kit: Kit)

  predicate Now(asm: Asm, a: Action) {
    true
  }

  predicate Used(e: Expr) {
    true
  }

  ghost predicate Writes(w: Writer) {
    && (forall asm: Asm, a: Action {:trigger Now(asm, a)} :: Now(asm, a) ==>
          w.next(asm, a) == Do(w.notation, asm, a))
    && (forall e: Expr {:trigger Used(e)} :: Used(e) ==>
          w.kit.code(e) == Code(w.notation, e) && w.kit.show(e) == PrintCode(w.notation, e))
  }

  function All(w: Writer, asm: Asm, acts: seq<Action>): Built {
    DoAll(w.next, asm, acts)
  }

  /** asm after more code. */
  function Grown(asm: Asm, more: seq<Bytecode>): Asm {
    asm.(code := asm.code + more)
  }

  lemma {:induction false} GrownTwice(asm: Asm, a: seq<Bytecode>, b: seq<Bytecode>)
    ensures Grown(Grown(asm, a), b) == Grown(asm, a + b)
  {
    assert asm.code + a + b == asm.code + (a + b);
  }

  // ----- merging is local -----

  lemma {:induction false} AppendFunctionLocal(code: seq<Bytecode>, own: seq<Bytecode>, op: Op, n: nat)
    requires own != []
    ensures AppendFunction(code + own, op, n) == code + AppendFunction(own, op, n)
  {
    assert (code + own)[|code + own| - 1] == own[|own| - 1];
    if EndsWithPush(own) {
      assert (code + own)[..|code + own| - 1] == code + own[..|own| - 1];
    }
  }

  lemma {:induction false} AppendCallbackLocal(code: seq<Bytecode>, own: seq<Bytecode>, name: string, n: nat)
    requires own != [] || !EndsWithLiteral(code)
    ensures AppendCallback(code + own, name, n) == code + AppendCallback(own, name, n)
  {
    if own == [] {
      assert code + own == code;
    } else {
      assert (code + own)[|code + own| - 1] == own[|own| - 1];
      if EndsWithLiteral(own) {
        assert (code + own)[..|code + own| - 1] == code + own[..|own| - 1];
      }
    }
  }

  /** A call without arguments is compiled as intended exactly when it does not follow a literal
      push: the guard append_callback leaves out. */
  lemma {:induction false} NullaryExact(notation: Notation, asm: Asm, name: string)
    ensures Do(notation, asm, EmitCall(name, 0)) == Fine(Grown(asm, Code(notation, Call(name, []))))
            <==> !EndsWithLiteral(asm.code)
  {
    assert Code(notation, Call(name, [])) == [Instr(Callback, 0).(str := name)];
    if EndsWithLiteral(asm.code) {
      assert |AppendCallback(asm.code, name, 0)| == |asm.code|;
    }
  }

  // ----- default -----

  /** What default() does to the code once both arguments are out. */
  function SwapAndMerge(asm: Asm): Built {
    match DoSwap(asm)
    case Fine(mid) => Fine(mid.(code := AppendFunction(mid.code, Fn(DefaultFn), 2)))
    case Rejected => Rejected
    case Broken => Broken
  }

  /** Whatever the two arguments are: b's code and a default instruction behind it, which is what the
      renderer needs, come out exactly when a is a leaf and b has nothing but copies of a's push
      before its last bytecode. The instruction then carries a. */
  lemma {:induction false} DefaultExact(notation: Notation, asm: Asm, a: Expr, b: Expr)
    ensures (exists bc: Bytecode ::
               && bc.op == Fn(DefaultFn)
               && SwapAndMerge(Grown(asm, Code(notation, a) + Code(notation, b)))
                  == Fine(Grown(asm, Code(notation, b) + [bc])))
            <==> SwapWorks(notation, a, b)
    ensures SwapWorks(notation, a, b) ==>
              SwapAndMerge(Grown(asm, Code(notation, a) + Code(notation, b)))
              == Fine(Grown(asm, DefaultCode(PushOf(notation, a), Code(notation, b))))
  {
    var ca, cb := Code(notation, a), Code(notation, b);
    CodeNonEmpty(notation, b);
    if SwapWorks(notation, a, b) {
      LeafDefaultExact(notation, asm, a, b);
    } else {
      forall bc: Bytecode | bc.op == Fn(DefaultFn)
        ensures SwapAndMerge(Grown(asm, ca + cb)) != Fine(Grown(asm, cb + [bc]))
      {
        NeverFits(notation, asm, a, b, bc);
      }
    }
  }

  lemma {:induction false} LeafDefaultExact(notation: Notation, asm: Asm, a: Expr, b: Expr)
    requires IsLeaf(a)
    ensures SwapAndMerge(Grown(asm, Code(notation, a) + Code(notation, b)))
            == Fine(Grown(asm, DefaultCode(PushOf(notation, a), Code(notation, b))))
            <==> SwapWorks(notation, a, b)
  {
    CodeNonEmpty(notation, b);
    SwapMergeExact(asm, PushOf(notation, a), Code(notation, b));
  }

  lemma {:induction false} NeverFits(notation: Notation, asm: Asm, a: Expr, b: Expr, bc: Bytecode)
    requires !SwapWorks(notation, a, b)
    ensures SwapAndMerge(Grown(asm, Code(notation, a) + Code(notation, b)))
            != Fine(Grown(asm, Code(notation, b) + [bc]))
  {
    CodeNonEmpty(notation, a);
    CodeNonEmpty(notation, b);
    LastIsPush(notation, a);
    var ca, cb := Code(notation, a), Code(notation, b);
    var all := asm.code + (ca + cb);
    var n := |all|;
    var swapped := all[..n - 2] + [all[n - 1], all[n - 2]];
    if IsLeaf(a) {
      var k :| 0 <= k < |cb| - 1 && cb[k] != ca[0];
      SwapFails(asm.code, ca[0], cb, swapped, k, bc);
    } else {
      OtherFails(asm.code, ca, cb, swapped, bc);
    }
  }

  /** Code that does not end in a push leaves no room for a merge, or moves b's code. */
  lemma {:induction false} OtherFails(before: seq<Bytecode>, ca: seq<Bytecode>, cb: seq<Bytecode>,
                                      swapped: seq<Bytecode>, bc: Bytecode)
    requires ca != [] && cb != [] && !EndsWithPush(ca)
    requires var all := before + (ca + cb); swapped == all[..|all| - 2] + [all[|all| - 1], all[|all| - 2]]
    ensures AppendFunction(swapped, Fn(DefaultFn), 2) != before + (cb + [bc])
  {
    var all, m := before + (ca + cb), |cb|;
    if m == 1 {
      assert all[|all| - 2] == ca[|ca| - 1];
    } else if cb[m - 2].op == Push && |ca| == 1 {
      SwapFails(before, ca[0], cb, swapped, m - 2, bc);
    }
  }

  lemma {:induction false} SwapMergeExact(asm: Asm, push: Bytecode, code: seq<Bytecode>)
    requires code != [] && push.op == Push
    ensures SwapAndMerge(Grown(asm, [push] + code))
            == Fine(Grown(asm, code + [push.(op := Fn(DefaultFn), args := 2)]))
            <==> forall i | 0 <= i < |code| - 1 :: code[i] == push
  {
    var all := asm.code + ([push] + code);
    var n := |all|;
    SwapResult(asm.code, push, code, all[..n - 2] + [all[n - 1], all[n - 2]]);
  }

  lemma {:induction false} FirstOther(push: Bytecode, code: seq<Bytecode>, n: nat) returns (i: nat)
    requires n < |code| && code[n] != push
    ensures i <= n && code[i] != push && forall j | 0 <= j < i :: code[j] == push
    decreases n
  {
    i := n;
    if j :| 0 <= j < n && code[j] != push {
      i := FirstOther(push, code, j);
    }
  }

  lemma {:induction false} SwappedAt(before: seq<Bytecode>, push: Bytecode, code: seq<Bytecode>, i: nat)
    requires i + 1 < |code|
    ensures var all := before + ([push] + code);
            all[|before| + i] == (if i == 0 then push else code[i - 1])
  {
  }

  lemma {:induction false} SwapFails(before: seq<Bytecode>, push: Bytecode, code: seq<Bytecode>,
                                     swapped: seq<Bytecode>, n: nat, bc: Bytecode)
    requires n + 1 < |code| && code[n] != push
    requires var all := before + ([push] + code);
             swapped == all[..|all| - 2] + [all[|all| - 1], all[|all| - 2]]
    ensures AppendFunction(swapped, Fn(DefaultFn), 2) != before + (code + [bc])
  {
    var i := FirstOther(push, code, n);
    SwappedAt(before, push, code, i);
    var got := AppendFunction(swapped, Fn(DefaultFn), 2);
    assert got[|before| + i] == swapped[|before| + i] != code[i];
    assert (before + (code + [bc]))[|before| + i] == code[i];
  }

  lemma {:induction false} SwapSucceeds(before: seq<Bytecode>, push: Bytecode, code: seq<Bytecode>,
                                        swapped: seq<Bytecode>)
    requires code != [] && push.op == Push && forall i | 0 <= i < |code| - 1 :: code[i] == push
    requires var all := before + ([push] + code);
             swapped == all[..|all| - 2] + [all[|all| - 1], all[|all| - 2]]
    ensures AppendFunction(swapped, Fn(DefaultFn), 2) == before + (code + [push.(op := Fn(DefaultFn), args := 2)])
  {
    assert swapped == (before + code) + [push];
    assert swapped[..|swapped| - 1] == before + code;
  }

  lemma {:induction false} SwapResult(before: seq<Bytecode>, push: Bytecode, code: seq<Bytecode>,
                                      swapped: seq<Bytecode>)
    requires code != [] && push.op == Push
    requires var all := before + ([push] + code);
             swapped == all[..|all| - 2] + [all[|all| - 1], all[|all| - 2]]
    ensures AppendFunction(swapped, Fn(DefaultFn), 2) == before + (code + [push.(op := Fn(DefaultFn), args := 2)])
            <==> forall i | 0 <= i < |code| - 1 :: code[i] == push
  {
    if n :| 0 <= n < |code| - 1 && code[n] != push {
      SwapFails(before, push, code, swapped, n, push.(op := Fn(DefaultFn), args := 2));
    } else {
      SwapSucceeds(before, push, code, swapped);
    }
  }

  // ----- one action at a time -----

  lemma {:induction false} OneNext(w: Writer, asm: Asm, a: Action)
    requires Writes(w)
    ensures All(w, asm, [a]) == w.next(asm, a)
  {
    DoOne(w.next, asm, a);
  }

  lemma {:induction false} OneLit(w: Writer, asm: Asm, v: Value)
    requires Writes(w)
    ensures All(w, asm, [PushLit(v)]) == Fine(Grown(asm, [PushLiteral(v)]))
  {
    OneNext(w, asm, PushLit(v));
    assert Now(asm, PushLit(v));
  }

  lemma {:induction false} OneVar(w: Writer, asm: Asm, name: string)
    requires Writes(w)
    ensures All(w, asm, [PushVar(name)]) == Fine(Grown(asm, [PushLookup(w.notation, name)]))
  {
    OneNext(w, asm, PushVar(name));
    assert Now(asm, PushVar(name));
  }

  lemma {:induction false} OneText(w: Writer, asm: Asm, text: string)
    requires Writes(w)
    ensures All(w, asm, [EmitText(text)]) == Fine(Grown(asm, [TextInstr(text)]))
  {
    OneNext(w, asm, EmitText(text));
    assert Now(asm, EmitText(text));
  }

  /** Some actions, then one. */
  lemma {:induction false} ThenOne(w: Writer, asm: Asm, xs: seq<Action>, mid: Asm, a: Action)
    requires All(w, asm, xs) == Fine(mid)
    ensures All(w, asm, xs + [a]) == w.next(mid, a)
  {
    DoThenOne(w.next, asm, xs, mid, a);
  }

  lemma {:induction false} ThenMore(w: Writer, asm: Asm, xs: seq<Action>, mid: Asm, ys: seq<Action>)
    requires All(w, asm, xs) == Fine(mid)
    ensures All(w, asm, xs + ys) == All(w, mid, ys)
  {
    DoThen(w.next, asm, xs, mid, ys);
  }

  lemma {:induction false} NextFn(w: Writer, asm: Asm, f: Function, n: nat)
    requires Writes(w)
    ensures w.next(asm, EmitFn(f, n)) == Fine(asm.(code := AppendFunction(asm.code, Fn(f), n)))
  {
    assert Now(asm, EmitFn(f, n));
  }

  lemma {:induction false} NextCall(w: Writer, asm: Asm, name: string, n: nat)
    requires Writes(w)
    ensures w.next(asm, EmitCall(name, n)) == Fine(asm.(code := AppendCallback(asm.code, name, n)))
  {
    assert Now(asm, EmitCall(name, n));
  }

  lemma {:induction false} NextSwap(w: Writer, asm: Asm)
    requires Writes(w)
    ensures w.next(asm, SwapLast) == DoSwap(asm)
  {
    assert Now(asm, SwapLast);
  }

  lemma {:induction false} NextPrint(w: Writer, asm: Asm)
    requires Writes(w)
    ensures w.next(asm, EmitPrint) == Fine(asm.(code := AppendFunction(asm.code, PrintValue, 1)))
  {
    assert Now(asm, EmitPrint);
  }

  lemma {:induction false} NextOpenIf(w: Writer, asm: Asm)
    requires Writes(w)
    ensures w.next(asm, OpenIf) ==
            Fine(Asm(asm.code + [Instr(ConditionalJump, 0)], asm.ifs + [IfData(Some(|asm.code|), [])], asm.loops))
  {
    assert Now(asm, OpenIf);
  }

  lemma {:induction false} NextChainIf(w: Writer, asm: Asm)
    requires Writes(w) && asm.ifs != []
    ensures w.next(asm, ChainIf) ==
            Fine(Asm(asm.code + [Instr(ConditionalJump, 0)],
                     Below(asm) + [Top(asm).(prev := Some(|asm.code|))], asm.loops))
  {
    assert Now(asm, ChainIf);
  }

  lemma {:induction false} NextCloseIf(w: Writer, asm: Asm)
    requires Writes(w) && asm.ifs != [] && InRange(Top(asm), |asm.code|)
    ensures w.next(asm, CloseIf) ==
            Fine(Asm(Resolved(asm.code, Top(asm), |asm.code|, |asm.code|), Below(asm), asm.loops))
  {
    assert Now(asm, CloseIf);
  }

  lemma {:induction false} NextOpenFor(w: Writer, asm: Asm, vars: LoopVars)
    requires Writes(w)
    ensures w.next(asm, OpenFor(vars)) ==
            Fine(Asm(asm.code + [StartInstr(vars)], asm.ifs, asm.loops + [|asm.code|]))
  {
    assert Now(asm, OpenFor(vars));
  }

  lemma {:induction false} NextCloseFor(w: Writer, asm: Asm, start: nat, outer: seq<nat>)
    requires Writes(w) && asm.loops == outer + [start] && start < |asm.code|
    ensures w.next(asm, CloseFor) ==
            Fine(Asm(Patch(asm.code, start, |asm.code|) + [Instr(EndLoop, start + 1)], asm.ifs, outer))
  {
    assert Now(asm, CloseFor);
  }

  // ----- expressions -----

  lemma {:induction false} DoExpr(w: Writer, asm: Asm, e: Expr)
    requires Writes(w) && Safe(w.notation, e) && (StartsNullary(e) ==> !EndsWithLiteral(asm.code))
    ensures All(w, asm, Acts(e)) == Fine(Grown(asm, Code(w.notation, e)))
    decreases e, 1, 0
  {
    match e
    case Lit(_, v) => OneLit(w, asm, v);
    case Lookup(name) => OneVar(w, asm, name);
    case Apply(f, args) =>
      DoArgs(w, asm, args, |args|);
      if f == DefaultFn {
        DoDefault(w, asm, args);
      } else {
        DoFunction(w, asm, f, args);
      }
    case Call(name, args) =>
      DoArgs(w, asm, args, |args|);
      DoCall(w, asm, name, args);
  }

  lemma {:induction false} DoFunction(w: Writer, asm: Asm, f: Function, args: seq<Expr>)
    requires Writes(w) && f != DefaultFn && args != []
    requires All(w, asm, ActsArgs(args, |args|)) == Fine(Grown(asm, CodeArgs(w.notation, args, |args|)))
    ensures All(w, asm, Acts(Expr.Apply(f, args))) == Fine(Grown(asm, Code(w.notation, Expr.Apply(f, args))))
  {
    var acts, own := ActsArgs(args, |args|), CodeArgs(w.notation, args, |args|);
    ArgsNonEmpty(w.notation, args, |args|);
    assert acts + [] == acts;
    ThenOne(w, asm, acts, Grown(asm, own), EmitFn(f, |args|));
    NextFn(w, Grown(asm, own), f, |args|);
    AppendFunctionLocal(asm.code, own, Fn(f), |args|);
  }

  lemma {:induction false} DoCall(w: Writer, asm: Asm, name: string, args: seq<Expr>)
    requires Writes(w) && (args == [] ==> !EndsWithLiteral(asm.code))
    requires All(w, asm, ActsArgs(args, |args|)) == Fine(Grown(asm, CodeArgs(w.notation, args, |args|)))
    ensures All(w, asm, Acts(Call(name, args))) == Fine(Grown(asm, Code(w.notation, Call(name, args))))
  {
    var own := CodeArgs(w.notation, args, |args|);
    ThenOne(w, asm, ActsArgs(args, |args|), Grown(asm, own), EmitCall(name, |args|));
    NextOwnCall(w, asm, name, args);
  }

  lemma {:induction false} NextOwnCall(w: Writer, asm: Asm, name: string, args: seq<Expr>)
    requires Writes(w) && (args == [] ==> !EndsWithLiteral(asm.code))
    ensures w.next(Grown(asm, CodeArgs(w.notation, args, |args|)), EmitCall(name, |args|))
            == Fine(Grown(asm, Code(w.notation, Call(name, args))))
  {
    NextCall(w, Grown(asm, CodeArgs(w.notation, args, |args|)), name, |args|);
    CallAppends(w.notation, asm.code, name, args);
  }

  lemma {:induction false} CallAppends(notation: Notation, code: seq<Bytecode>, name: string, args: seq<Expr>)
    requires args == [] ==> !EndsWithLiteral(code)
    ensures AppendCallback(code + CodeArgs(notation, args, |args|), name, |args|)
            == code + Code(notation, Call(name, args))
  {
    if args != [] {
      ArgsNonEmpty(notation, args, |args|);
    }
    AppendCallbackLocal(code, CodeArgs(notation, args, |args|), name, |args|);
  }

  lemma {:induction false} ArgsNonEmpty(notation: Notation, args: seq<Expr>, n: nat)
    requires 0 < n <= |args|
    ensures CodeArgs(notation, args, n) != []
  {
    CodeNonEmpty(notation, args[n - 1]);
  }

  /** What stands before the n-th argument ends in a literal push only if the argument before it
      is a literal. */
  lemma {:induction false} BeforeArgument(notation: Notation, asm: Asm, args: seq<Expr>, n: nat)
    requires n < |args| && SafeArgs(notation, args, n + 1)
    requires StartsNullary(args[0]) ==> !EndsWithLiteral(asm.code)
    ensures StartsNullary(args[n]) ==> !EndsWithLiteral(asm.code + CodeArgs(notation, args, n))
  {
    if n == 0 {
      assert asm.code + [] == asm.code;
    } else {
      var last := Code(notation, args[n - 1]);
      var front := asm.code + CodeArgs(notation, args, n);
      CodeNonEmpty(notation, args[n - 1]);
      LastIsPush(notation, args[n - 1]);
      assert front[|front| - 1] == last[|last| - 1];
    }
  }

  lemma {:induction false} DoArgs(w: Writer, asm: Asm, args: seq<Expr>, n: nat)
    requires Writes(w) && n <= |args| && SafeArgs(w.notation, args, n)
    requires args != [] && StartsNullary(args[0]) ==> !EndsWithLiteral(asm.code)
    ensures All(w, asm, ActsArgs(args, n)) == Fine(Grown(asm, CodeArgs(w.notation, args, n)))
    decreases args, 0, n
  {
    if n == 0 {
      assert asm.code + [] == asm.code;
    } else {
      var mid := Grown(asm, CodeArgs(w.notation, args, n - 1));
      DoArgs(w, asm, args, n - 1);
      BeforeArgument(w.notation, asm, args, n - 1);
      DoExpr(w, mid, args[n - 1]);
      ThenMore(w, asm, ActsArgs(args, n - 1), mid, Acts(args[n - 1]));
      GrownTwice(asm, CodeArgs(w.notation, args, n - 1), Code(w.notation, args[n - 1]));
    }
  }

  lemma {:induction false} DoDefault(w: Writer, asm: Asm, args: seq<Expr>)
    requires Writes(w) && |args| == 2 && SwapWorks(w.notation, args[0], args[1])
    requires All(w, asm, ActsArgs(args, 2)) == Fine(Grown(asm, CodeArgs(w.notation, args, 2)))
    ensures All(w, asm, (ActsArgs(args, 2) + [SwapLast]) + [EmitFn(DefaultFn, 2)])
            == Fine(Grown(asm, Code(w.notation, Expr.Apply(DefaultFn, args))))
  {
    var start := Grown(asm, CodeArgs(w.notation, args, 2));
    DefaultMerges(w.notation, asm, args);
    ThenOne(w, asm, ActsArgs(args, 2), start, SwapLast);
    NextSwap(w, start);
    ThenOne(w, asm, ActsArgs(args, 2) + [SwapLast], DoSwap(start).asm, EmitFn(DefaultFn, 2));
    NextFn(w, DoSwap(start).asm, DefaultFn, 2);
  }

  lemma {:induction false} DefaultMerges(notation: Notation, asm: Asm, args: seq<Expr>)
    requires |args| == 2 && SwapWorks(notation, args[0], args[1])
    ensures SwapAndMerge(Grown(asm, CodeArgs(notation, args, 2)))
            == Fine(Grown(asm, Code(notation, Expr.Apply(DefaultFn, args))))
  {
    assert CodeArgs(notation, args, 1) == [] + Code(notation, args[0]);
    assert CodeArgs(notation, args, 2) == [PushOf(notation, args[0])] + Code(notation, args[1]);
    DefaultExact(notation, asm, args[0], args[1]);
  }

  // ----- patching -----

  lemma {:induction false} PatchInFront(a: seq<Bytecode>, b: seq<Bytecode>, i: nat, addr: nat)
    requires i < |a|
    ensures Patch(a + b, i, addr) == Patch(a, i, addr) + b
  {
  }

  lemma {:induction false} PatchLast(a: seq<Bytecode>, bc: Bytecode, b: seq<Bytecode>, addr: nat)
    ensures Patch(a + [bc] + b, |a|, addr) == a + [bc.(args := Arg30(addr))] + b
  {
  }

  lemma {:induction false} PatchAllInFront(a: seq<Bytecode>, b: seq<Bytecode>, jumps: seq<nat>, k: nat, addr: nat)
    requires k <= |jumps| && forall i | 0 <= i < |jumps| :: jumps[i] < |a|
    ensures PatchAll(a + b, jumps, k, addr) == PatchAll(a, jumps, k, addr) + b
    decreases k
  {
    if k > 0 {
      PatchAllInFront(a, b, jumps, k - 1, addr);
      PatchInFront(PatchAll(a, jumps, k - 1, addr), b, jumps[k - 1], addr);
    }
  }

  lemma {:induction false} PatchAllPrefix(code: seq<Bytecode>, jumps: seq<nat>, j: nat, k: nat, addr: nat)
    requires k <= |jumps| && j < |code| && forall i | 0 <= i < |jumps| :: jumps[i] < |code|
    ensures PatchAll(code, jumps + [j], k, addr) == PatchAll(code, jumps, k, addr)
    decreases k
  {
    if k > 0 {
      PatchAllPrefix(code, jumps, j, k - 1, addr);
    }
  }

  /** The code of a chain once all it holds is patched. */
  function Resolved(code: seq<Bytecode>, d: IfData, target: nat, end: nat): (r: seq<Bytecode>)
    requires InRange(d, |code|)
    ensures |r| == |code|
  {
    PatchAll(if d.prev.Some? then Patch(code, d.prev.value, target) else code, d.jumps, |d.jumps|, end)
  }

  /** A branch that has ended: `base` was patched to fall through to here, and its jump is one
      more to resolve. */
  lemma {:induction false} ResolvedElse(code: seq<Bytecode>, d: IfData, rest: seq<Bytecode>, end: nat)
    requires d.prev.Some? && InRange(d, |code|)
    ensures var half := Patch(code + [Instr(Jump, 0)], d.prev.value, |code| + 1) + rest;
            var d' := IfData(None, d.jumps + [|code|]);
            && InRange(d', |half|)
            && Resolved(half, d', 0, end) == Resolved(code, d, |code| + 1, end) + [Instr(Jump, end)] + rest
  {
    var patched := Patch(code, d.prev.value, |code| + 1);
    var half := patched + [Instr(Jump, 0)] + rest;
    PatchInFront(code, [Instr(Jump, 0)], d.prev.value, |code| + 1);
    PatchAllPrefix(half, d.jumps, |code|, |d.jumps|, end);
    PatchAllInFront(patched, [Instr(Jump, 0)] + rest, d.jumps, |d.jumps|, end);
    assert half == patched + ([Instr(Jump, 0)] + rest);
    var front := PatchAll(patched, d.jumps, |d.jumps|, end);
    assert front + ([Instr(Jump, 0)] + rest) == front + [Instr(Jump, 0)] + rest;
    PatchLast(front, Instr(Jump, 0), rest, end);
  }

  // ----- statements -----

  /** Statement code never ends in a push. */
  predicate Settled(code: seq<Bytecode>) {
    code == [] || code[|code| - 1].op != Push
  }

  lemma {:induction false} SettledAppend(a: seq<Bytecode>, b: seq<Bytecode>)
    requires Settled(a) && Settled(b)
    ensures Settled(a + b)
  {
    if b == [] {
      assert a + b == a;
    } else {
      assert (a + b)[|a + b| - 1] == b[|b| - 1];
    }
  }

  lemma {:induction false} BlockSettled(w: Writer, b: seq<Stmt>, i: nat, base: nat)
    requires Writes(w) && i <= |b|
    ensures Settled(Layout(w.kit, b, i, base))
    decreases b, |b| - i
  {
    if i < |b| {
      StmtSettled(w, b[i], base);
      BlockSettled(w, b, i + 1, base + SizeStmt(w.kit, b[i]));
      SettledAppend(LayoutStmt(w.kit, b[i], base), Layout(w.kit, b, i + 1, base + SizeStmt(w.kit, b[i])));
    }
  }

  lemma {:induction false} StmtSettled(w: Writer, s: Stmt, base: nat)
    requires Writes(w)
    ensures Settled(LayoutStmt(w.kit, s, base))
    decreases s
  {
    match s
    case Text(_) =>
    case Comment(_) =>
    case Print(e) =>
      assert Used(e);
      CodeNonEmpty(w.notation, e);
    case If(_, br) => BranchesSettled(w, br, base, base + SizeBranches(w.kit, br));
    case For(_, _, e, body, _) =>
  }

  lemma {:induction false} BranchesSettled(w: Writer, br: Branches, base: nat, end: nat)
    requires Writes(w)
    ensures Settled(LayoutBranches(w.kit, br, base, end))
    decreases br
  {
    var start := base + |w.kit.code(br.cond)| + 1;
    var rest := start + Size(w.kit, br.thn, 0);
    var front := w.kit.code(br.cond) + [Instr(ConditionalJump, ElseTarget(br.els, rest))];
    BlockSettled(w, br.thn, 0, start);
    SettledAppend(front, Layout(w.kit, br.thn, 0, start));
    ElseSettled(w, br.els, rest, end);
    SettledAppend(front + Layout(w.kit, br.thn, 0, start), LayoutElse(w.kit, br.els, rest, end));
  }

  lemma {:induction false} ElseSettled(w: Writer, els: Else, base: nat, end: nat)
    requires Writes(w)
    ensures Settled(LayoutElse(w.kit, els, base, end))
    decreases els
  {
    match els
    case EndIf(_) =>
    case ElseDo(_, b, _) =>
      BlockSettled(w, b, 0, base + 1);
      SettledAppend([Instr(Jump, end)], Layout(w.kit, b, 0, base + 1));
    case ElseIf(_, br) =>
      BranchesSettled(w, br, base + 1, end);
      SettledAppend([Instr(Jump, end)], LayoutBranches(w.kit, br, base + 1, end));
  }

  lemma {:induction false} DoBlock(w: Writer, asm: Asm, b: seq<Stmt>, i: nat)
    requires Writes(w) && i <= |b| && SafeBlock(w.notation, b, i) && Settled(asm.code)
    requires |asm.code| + Size(w.kit, b, i) < ARGS_LIMIT
    ensures All(w, asm, ActsBlock(b, i)) == Fine(Grown(asm, Layout(w.kit, b, i, |asm.code|)))
    decreases b, 0, |b| - i
  {
    if i == |b| {
      assert asm.code + [] == asm.code;
    } else {
      var first := LayoutStmt(w.kit, b[i], |asm.code|);
      var mid := Grown(asm, first);
      DoStmt(w, asm, b[i]);
      StmtSettled(w, b[i], |asm.code|);
      SettledAppend(asm.code, first);
      DoBlock(w, mid, b, i + 1);
      ThenMore(w, asm, ActsStmt(b[i]), mid, ActsBlock(b, i + 1));
      GrownTwice(asm, first, Layout(w.kit, b, i + 1, |mid.code|));
    }
  }

  lemma {:induction false} DoStmt(w: Writer, asm: Asm, s: Stmt)
    requires Writes(w) && SafeStmt(w.notation, s) && Settled(asm.code) && |asm.code| + SizeStmt(w.kit, s) < ARGS_LIMIT
    ensures All(w, asm, ActsStmt(s)) == Fine(Grown(asm, LayoutStmt(w.kit, s, |asm.code|)))
    decreases s, 0, 0
  {
    match s
    case Text(text) => OneText(w, asm, text);
    case Comment(_) => assert asm.code + [] == asm.code;
    case Print(e) =>
      DoPrint(w, asm, e);
    case If(_, br) => DoIf(w, asm, br);
    case For(_, _, _, _, _) => DoFor(w, asm, s);
  }

  lemma {:induction false} DoPrint(w: Writer, asm: Asm, e: Expr)
    requires Writes(w) && Safe(w.notation, e) && Settled(asm.code)
    ensures All(w, asm, Acts(e) + [EmitPrint]) == Fine(Grown(asm, w.kit.show(e)))
  {
    assert Used(e);
    DoExpr(w, asm, e);
    ThenOne(w, asm, Acts(e), Grown(asm, Code(w.notation, e)), EmitPrint);
    NextPrint(w, Grown(asm, Code(w.notation, e)));
    CodeNonEmpty(w.notation, e);
    AppendFunctionLocal(asm.code, Code(w.notation, e), PrintValue, 1);
  }

  /** The state after a condition and the conditional jump that `opener` emits. */
  lemma {:induction false} DoCondition(w: Writer, asm: Asm, cond: Expr, opener: Action, after: Asm)
    requires Writes(w) && Safe(w.notation, cond) && Settled(asm.code)
    requires w.next(Grown(asm, w.kit.code(cond)), opener) == Fine(after)
    ensures All(w, asm, Acts(cond) + [opener]) == Fine(after)
  {
    assert Used(cond);
    DoExpr(w, asm, cond);
    ThenOne(w, asm, Acts(cond), Grown(asm, Code(w.notation, cond)), opener);
  }

  /** The state just after a condition's jump. */
  function Opened(pre: seq<Bytecode>, ifs: seq<IfData>, jumps: seq<nat>, loops: seq<nat>): Asm {
    Asm(pre + [Instr(ConditionalJump, 0)], ifs + [IfData(Some(|pre|), jumps)], loops)
  }

  lemma {:induction false} DoIf(w: Writer, asm: Asm, br: Branches)
    requires Writes(w) && SafeBranches(w.notation, br) && Settled(asm.code)
    requires |asm.code| + SizeBranches(w.kit, br) < ARGS_LIMIT
    ensures All(w, asm, (Acts(br.cond) + [OpenIf]) + (ActsBlock(br.thn, 0) + ActsElse(br.els)))
            == Fine(Grown(asm, LayoutBranches(w.kit, br, |asm.code|, |asm.code| + SizeBranches(w.kit, br))))
    decreases br, 1, 0
  {
    var pre := asm.code + w.kit.code(br.cond);
    var after := Opened(pre, asm.ifs, [], asm.loops);
    NextOpenIf(w, Grown(asm, w.kit.code(br.cond)));
    DoCondition(w, asm, br.cond, OpenIf, after);
    DoBranch(w, pre, asm.ifs, [], asm.loops, br);
    ThenMore(w, asm, Acts(br.cond) + [OpenIf], after, ActsBlock(br.thn, 0) + ActsElse(br.els));
    BranchAssoc(w.kit, asm.code, br, |asm.code| + SizeBranches(w.kit, br));
  }

  lemma {:induction false} BranchAssoc(kit: Kit, code: seq<Bytecode>, br: Branches, end: nat)
    ensures BranchTail(kit, code + kit.code(br.cond), br, end)
            == code + LayoutBranches(kit, br, |code|, end)
  {
    var start := |code| + |kit.code(br.cond)| + 1;
    var rest := start + Size(kit, br.thn, 0);
    var c, jump := kit.code(br.cond), [Instr(ConditionalJump, ElseTarget(br.els, rest))];
    var l, tail := Layout(kit, br.thn, 0, start), LayoutElse(kit, br.els, rest, end);
    assert code + c + jump + l + tail == code + (c + jump + l + tail);
  }

  /** What follows a condition's code, given all that precedes its jump. */
  function BranchTail(kit: Kit, pre: seq<Bytecode>, br: Branches, end: nat): seq<Bytecode> {
    var rest := |pre| + 1 + Size(kit, br.thn, 0);
    pre + [Instr(ConditionalJump, ElseTarget(br.els, rest))]
    + Layout(kit, br.thn, 0, |pre| + 1) + LayoutElse(kit, br.els, rest, end)
  }

  /** From just after a condition's jump to the end of the chain. */
  lemma {:induction false} DoBranch(w: Writer, pre: seq<Bytecode>, ifs: seq<IfData>, jumps: seq<nat>, loops: seq<nat>,
                                    br: Branches)
    requires Writes(w) && SafeBlock(w.notation, br.thn, 0) && SafeElse(w.notation, br.els)
    requires |pre| + 1 + Size(w.kit, br.thn, 0) + SizeElse(w.kit, br.els) < ARGS_LIMIT
    requires InRange(IfData(None, jumps), |pre|)
    ensures var end := |pre| + 1 + Size(w.kit, br.thn, 0) + SizeElse(w.kit, br.els);
            All(w, Opened(pre, ifs, jumps, loops), ActsBlock(br.thn, 0) + ActsElse(br.els))
            == Fine(Asm(BranchTail(w.kit, Resolved(pre, IfData(None, jumps), 0, end), br, end), ifs, loops))
    decreases br, 0, 0
  {
    var asm := Opened(pre, ifs, jumps, loops);
    var mid := Grown(asm, Layout(w.kit, br.thn, 0, |pre| + 1));
    DoBlock(w, asm, br.thn, 0);
    DoElse(w, mid, br.els);
    ThenMore(w, asm, ActsBlock(br.thn, 0), mid, ActsElse(br.els));
    BranchCode(w.kit, pre, br, jumps);
  }

  /** The code of a branch once its chain is resolved. */
  lemma {:induction false} BranchCode(kit: Kit, pre: seq<Bytecode>, br: Branches, jumps: seq<nat>)
    requires InRange(IfData(None, jumps), |pre|)
    ensures var l := Layout(kit, br.thn, 0, |pre| + 1);
            var rest := |pre| + 1 + |l|;
            var end := rest + SizeElse(kit, br.els);
            Resolved(pre + [Instr(ConditionalJump, 0)] + l, IfData(Some(|pre|), jumps), ElseTarget(br.els, rest), end)
            + LayoutElse(kit, br.els, rest, end)
            == BranchTail(kit, Resolved(pre, IfData(None, jumps), 0, end), br, end)
  {
    var l := Layout(kit, br.thn, 0, |pre| + 1);
    var rest := |pre| + 1 + |l|;
    var end := rest + SizeElse(kit, br.els);
    ResolvedJump(pre, jumps, l, ElseTarget(br.els, rest), end);
  }

  lemma {:induction false} ResolvedJump(pre: seq<Bytecode>, jumps: seq<nat>, l: seq<Bytecode>, target: nat, end: nat)
    requires InRange(IfData(None, jumps), |pre|)
    ensures Resolved(pre + [Instr(ConditionalJump, 0)] + l, IfData(Some(|pre|), jumps), target, end)
            == Resolved(pre, IfData(None, jumps), 0, end) + [Instr(ConditionalJump, target)] + l
  {
    var tail := [Instr(ConditionalJump, target)] + l;
    PatchLast(pre, Instr(ConditionalJump, 0), l, target);
    assert pre + [Instr(ConditionalJump, target)] + l == pre + tail;
    PatchAllInFront(pre, tail, jumps, |jumps|, end);
    var front := PatchAll(pre, jumps, |jumps|, end);
    assert front + tail == front + [Instr(ConditionalJump, target)] + l;
  }

  /** The rest of a chain: the pending conditional jump goes to it, all pending jumps go past it. */
  lemma {:induction false} DoElse(w: Writer, asm: Asm, els: Else)
    requires Writes(w) && SafeElse(w.notation, els) && |asm.code| + SizeElse(w.kit, els) < ARGS_LIMIT
    requires asm.ifs != [] && Top(asm).prev.Some? && InRange(Top(asm), |asm.code|)
    ensures var end := |asm.code| + SizeElse(w.kit, els);
            All(w, asm, ActsElse(els))
            == Fine(Asm(Resolved(asm.code, Top(asm), ElseTarget(els, |asm.code|), end)
                        + LayoutElse(w.kit, els, |asm.code|, end),
                        Below(asm), asm.loops))
    decreases els, 0, 0
  {
    match els
    case EndIf(_) =>
      OneNext(w, asm, CloseIf);
      NextCloseIf(w, asm);
      var r := Resolved(asm.code, Top(asm), |asm.code|, |asm.code|);
      assert r + [] == r;
    case ElseDo(_, b, _) => DoElseBlock(w, asm, b);
    case ElseIf(_, br) => DoElseIf(w, asm, br);
  }

  /** A branch ends: its jump is emitted and the condition before it patched to come here. */
  function Turned(asm: Asm): Asm
    requires asm.ifs != [] && Top(asm).prev.Some? && InRange(Top(asm), |asm.code|)
  {
    Asm(Patch(asm.code + [Instr(Jump, 0)], Top(asm).prev.value, |asm.code| + 1),
        Below(asm) + [IfData(None, Top(asm).jumps + [|asm.code|])], asm.loops)
  }

  lemma {:induction false} DoTurn(w: Writer, asm: Asm)
    requires Writes(w) && asm.ifs != [] && Top(asm).prev.Some? && InRange(Top(asm), |asm.code|)
    ensures All(w, asm, [BeginElse]) == Fine(Turned(asm))
    ensures Settled(Turned(asm).code) && Below(Turned(asm)) == Below(asm)
    ensures Top(Turned(asm)) == IfData(None, Top(asm).jumps + [|asm.code|])
  {
    OneNext(w, asm, BeginElse);
    assert Now(asm, BeginElse);
  }

  lemma {:induction false} DoElseBlock(w: Writer, asm: Asm, b: seq<Stmt>)
    requires Writes(w) && SafeBlock(w.notation, b, 0) && |asm.code| + 1 + Size(w.kit, b, 0) < ARGS_LIMIT
    requires asm.ifs != [] && Top(asm).prev.Some? && InRange(Top(asm), |asm.code|)
    ensures var end := |asm.code| + 1 + Size(w.kit, b, 0);
            All(w, asm, [BeginElse] + (ActsBlock(b, 0) + [CloseIf]))
            == Fine(Asm(Resolved(asm.code, Top(asm), |asm.code| + 1, end)
                        + ([Instr(Jump, end)] + Layout(w.kit, b, 0, |asm.code| + 1)),
                        Below(asm), asm.loops))
    decreases b, 1, 0
  {
    var turned, l := Turned(asm), Layout(w.kit, b, 0, |asm.code| + 1);
    var end := |asm.code| + 1 + |l|;
    DoTurn(w, asm);
    DoBlock(w, turned, b, 0);
    TurnedResolved(asm, l, end);
    NextCloseIf(w, Grown(turned, l));
    ThenOne(w, turned, ActsBlock(b, 0), Grown(turned, l), CloseIf);
    ThenMore(w, asm, [BeginElse], turned, ActsBlock(b, 0) + [CloseIf]);
  }

  /** All that a turned chain holds, resolved, with more code behind it. */
  lemma {:induction false} TurnedResolved(asm: Asm, more: seq<Bytecode>, end: nat)
    requires asm.ifs != [] && Top(asm).prev.Some? && InRange(Top(asm), |asm.code|)
    ensures var t := Grown(Turned(asm), more);
            && t.ifs != [] && InRange(Top(t), |t.code|) && |t.code| == |asm.code| + 1 + |more|
            && Resolved(t.code, Top(t), 0, end)
               == Resolved(asm.code, Top(asm), |asm.code| + 1, end) + ([Instr(Jump, end)] + more)
            && Resolved(t.code, Top(t), end, end) == Resolved(t.code, Top(t), 0, end)
            && Below(t) == Below(asm)
  {
    ResolvedElse(asm.code, Top(asm), more, end);
    var front := Resolved(asm.code, Top(asm), |asm.code| + 1, end);
    assert front + [Instr(Jump, end)] + more == front + ([Instr(Jump, end)] + more);
  }

  /** The state after `else if` and its condition. */
  function Chained(kit: Kit, asm: Asm, cond: Expr): Asm
    requires asm.ifs != [] && Top(asm).prev.Some? && InRange(Top(asm), |asm.code|)
  {
    Opened(Turned(asm).code + kit.code(cond), Below(asm), Top(asm).jumps + [|asm.code|], asm.loops)
  }

  lemma {:induction false} DoChain(w: Writer, asm: Asm, cond: Expr)
    requires Writes(w) && Safe(w.notation, cond)
    requires asm.ifs != [] && Top(asm).prev.Some? && InRange(Top(asm), |asm.code|)
    ensures All(w, asm, [BeginElse] + (Acts(cond) + [ChainIf])) == Fine(Chained(w.kit, asm, cond))
    ensures Below(Chained(w.kit, asm, cond)) == Below(asm)
  {
    var turned := Turned(asm);
    DoTurn(w, asm);
    NextChainIf(w, Grown(turned, w.kit.code(cond)));
    DoCondition(w, turned, cond, ChainIf, Chained(w.kit, asm, cond));
    ThenMore(w, asm, [BeginElse], turned, Acts(cond) + [ChainIf]);
  }

  lemma {:induction false} DoElseIf(w: Writer, asm: Asm, br: Branches)
    requires Writes(w) && SafeBranches(w.notation, br) && |asm.code| + 1 + SizeBranches(w.kit, br) < ARGS_LIMIT
    requires asm.ifs != [] && Top(asm).prev.Some? && InRange(Top(asm), |asm.code|)
    ensures var end := |asm.code| + 1 + SizeBranches(w.kit, br);
            All(w, asm, ([BeginElse] + (Acts(br.cond) + [ChainIf])) + (ActsBlock(br.thn, 0) + ActsElse(br.els)))
            == Fine(Asm(Resolved(asm.code, Top(asm), |asm.code| + 1, end)
                        + ([Instr(Jump, end)] + LayoutBranches(w.kit, br, |asm.code| + 1, end)),
                        Below(asm), asm.loops))
    decreases br, 1, 0
  {
    var after := Chained(w.kit, asm, br.cond);
    DoChain(w, asm, br.cond);
    ElseIfCode(w.kit, asm, br, |asm.code| + 1 + SizeBranches(w.kit, br));
    DoBranch(w, Turned(asm).code + w.kit.code(br.cond), Below(asm), Top(asm).jumps + [|asm.code|], asm.loops, br);
    ThenMore(w, asm, [BeginElse] + (Acts(br.cond) + [ChainIf]), after, ActsBlock(br.thn, 0) + ActsElse(br.els));
  }

  lemma {:induction false} ElseIfCode(kit: Kit, asm: Asm, br: Branches, end: nat)
    requires asm.ifs != [] && Top(asm).prev.Some? && InRange(Top(asm), |asm.code|)
    ensures var pre := Turned(asm).code + kit.code(br.cond);
            var jumps := Top(asm).jumps + [|asm.code|];
            && InRange(IfData(None, jumps), |pre|)
            && BranchTail(kit, Resolved(pre, IfData(None, jumps), 0, end), br, end)
               == Resolved(asm.code, Top(asm), |asm.code| + 1, end)
                  + ([Instr(Jump, end)] + LayoutBranches(kit, br, |asm.code| + 1, end))
  {
    var c := kit.code(br.cond);
    var front := Resolved(asm.code, Top(asm), |asm.code| + 1, end);
    TurnedResolved(asm, c, end);
    assert front + ([Instr(Jump, end)] + c) == (front + [Instr(Jump, end)]) + c;
    BranchAssoc(kit, front + [Instr(Jump, end)], br, end);
    JumpAssoc(front, Instr(Jump, end), LayoutBranches(kit, br, |asm.code| + 1, end));
  }

  lemma {:induction false} JumpAssoc(a: seq<Bytecode>, bc: Bytecode, b: seq<Bytecode>)
    ensures a + [bc] + b == a + ([bc] + b)
  {
  }

  lemma {:induction false} DoFor(w: Writer, asm: Asm, s: Stmt)
    requires Writes(w) && s.For? && SafeStmt(w.notation, s) && Settled(asm.code)
    requires |asm.code| + SizeStmt(w.kit, s) < ARGS_LIMIT
    ensures All(w, asm, (Acts(s.e) + [OpenFor(s.vars)]) + (ActsBlock(s.body, 0) + [CloseFor]))
            == Fine(Grown(asm, LayoutStmt(w.kit, s, |asm.code|)))
    decreases s.body, 1, 0
  {
    var pre := asm.code + w.kit.code(s.e);
    var after := Asm(pre + [StartInstr(s.vars)], asm.ifs, asm.loops + [|pre|]);
    var mid := Grown(after, Layout(w.kit, s.body, 0, |pre| + 1));
    NextOpenFor(w, Grown(asm, w.kit.code(s.e)), s.vars);
    DoCondition(w, asm, s.e, OpenFor(s.vars), after);
    DoBlock(w, after, s.body, 0);
    NextCloseFor(w, mid, |pre|, asm.loops);
    ThenOne(w, after, ActsBlock(s.body, 0), mid, CloseFor);
    ThenMore(w, asm, Acts(s.e) + [OpenFor(s.vars)], after, ActsBlock(s.body, 0) + [CloseFor]);
    ForCode(w.kit, asm.code, s);
  }

  lemma {:induction false} ForCode(kit: Kit, code: seq<Bytecode>, s: Stmt)
    requires s.For?
    ensures var pre := code + kit.code(s.e);
            var all := pre + [StartInstr(s.vars)] + Layout(kit, s.body, 0, |pre| + 1);
            Patch(all, |pre|, |all|) + [Instr(EndLoop, |pre| + 1)] == code + LayoutStmt(kit, s, |code|)
  {
    var c := kit.code(s.e);
    var pre := code + c;
    var l := Layout(kit, s.body, 0, |pre| + 1);
    var last := |pre| + 1 + |l|;
    PatchLast(pre, StartInstr(s.vars), l, last);
    ForAssoc(code, c, [StartInstr(s.vars).(args := Arg30(last))], l, [Instr(EndLoop, |pre| + 1)]);
  }

  lemma {:induction false} ForAssoc(a: seq<Bytecode>, b: seq<Bytecode>, c: seq<Bytecode>, d: seq<Bytecode>,
                                    e: seq<Bytecode>)
    ensures (a + b) + c + d + e == a + (b + c + d + e)
  {
  }

  function TemplateWriter(notation: Notation): Writer {
    Writer(Emitter(notation), notation, Expressions(notation))
  }

  lemma {:induction false} TemplateWriterWrites(notation: Notation)
    ensures Writes(TemplateWriter(notation))
  {
  }

  /** One pass over a whole tree's actions leaves its laid-out code and nothing pending. */
  lemma {:induction false} AssembledTemplate(notation: Notation, b: seq<Stmt>)
    requires SafeBlock(notation, b, 0) && |TemplateCode(notation, b)| < ARGS_LIMIT
    ensures Assemble(notation, EMPTY, ActsBlock(b, 0)) == Fine(Asm(TemplateCode(notation, b), [], []))
  {
    TemplateWriterWrites(notation);
    DoBlock(TemplateWriter(notation), EMPTY, b, 0);
    assert [] + TemplateCode(notation, b) == TemplateCode(notation, b);
  }
}
