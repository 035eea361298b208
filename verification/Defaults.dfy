/** What default(a, b) compiles to and means, for all arguments: as written, as another expression,
    or nothing that ever yields a value. */
module Defaults {
  import opened Options
  import opened Json
  import opened Bytecodes
  import opened Machine
  import opened Tokens
  import opened Syntax
  import opened Compiler
  import opened Correctness
  import opened Assembler
  import opened Assembly
  import Patching

  // ----- the code -----

  function Swapped(code: seq<Bytecode>): seq<Bytecode>
    requires |code| >= 2
  {
    code[..|code| - 2] + [code[|code| - 1], code[|code| - 2]]
  }

  function Both(notation: Notation, a: Expr, b: Expr): (code: seq<Bytecode>)
    ensures |code| >= 2
  {
    CodeNonEmpty(notation, a);
    CodeNonEmpty(notation, b);
    Code(notation, a) + Code(notation, b)
  }

  /** What the two arguments, the swap and the merge leave behind. */
  function Emitted(notation: Notation, a: Expr, b: Expr): seq<Bytecode> {
    AppendFunction(Swapped(Both(notation, a, b)), Fn(DefaultFn), 2)
  }

  lemma {:induction false} SwapAndMergeEmits(notation: Notation, asm: Asm, a: Expr, b: Expr)
    ensures SwapAndMerge(Grown(asm, Code(notation, a) + Code(notation, b))) == Fine(Grown(asm, Emitted(notation, a, b)))
  {
    var own := Both(notation, a, b);
    SwapGrown(asm, own);
    AppendFunctionLocal(asm.code, Swapped(own), Fn(DefaultFn), 2);
  }

  lemma {:induction false} SwapGrown(asm: Asm, own: seq<Bytecode>)
    requires |own| >= 2
    ensures DoSwap(Grown(asm, own)) == Fine(Grown(asm, Swapped(own)))
  {
    SwapLocal(asm.code, own);
  }

  lemma {:induction false} SwapLocal(before: seq<Bytecode>, own: seq<Bytecode>)
    requires |own| >= 2
    ensures Swapped(before + own) == before + Swapped(own)
  {
  }

  /** The parser emits just that. */
  lemma {:induction false} DefaultEmits(w: Writer, asm: Asm, a: Expr, b: Expr)
    requires Writes(w) && Safe(w.notation, a) && Safe(w.notation, b) && (a.Lit? ==> !StartsNullary(b))
    requires StartsNullary(a) ==> !EndsWithLiteral(asm.code)
    ensures All(w, asm, Acts(Expr.Apply(DefaultFn, [a, b]))) == Fine(Grown(asm, Emitted(w.notation, a, b)))
  {
    var args, own := [a, b], Both(w.notation, a, b);
    var start := Grown(asm, own);
    assert SafeArgs(w.notation, args, 1);
    DoArgs(w, asm, args, 2);
    assert CodeArgs(w.notation, args, 1) == Code(w.notation, a);
    ThenOne(w, asm, ActsArgs(args, 2), start, SwapLast);
    NextSwap(w, start);
    SwapAndMergeEmits(w.notation, asm, a, b);
    ThenOne(w, asm, ActsArgs(args, 2) + [SwapLast], DoSwap(start).asm, EmitFn(DefaultFn, 2));
    NextFn(w, DoSwap(start).asm, DefaultFn, 2);
  }

  // ----- the push that the swap takes for the first argument -----

  /** How many of its arguments b's last instruction finds on the stack. */
  function OnStack(b: Expr): nat {
    match b
    case Lit(_, _) => 0
    case Lookup(_) => 0
    case Apply(f, args) =>
      if f == DefaultFn then 0
      else if args != [] && IsLeaf(args[|args| - 1]) then |args| - 1 else |args|
    case Call(_, args) => if args != [] && args[|args| - 1].Lit? then |args| - 1 else |args|
  }

  /** The last but one bytecode of b's code is a push: of b's last argument on the stack, or of the
      second argument of a default. */
  predicate Swallows(b: Expr) {
    match b
    case Apply(f, args) =>
      if f == DefaultFn then |args| == 2 && IsLeaf(args[1])
      else OnStack(b) > 0 && IsLeaf(args[OnStack(b) - 1])
    case Call(_, args) => OnStack(b) > 0 && IsLeaf(args[OnStack(b) - 1])
    case _ => false
  }

  function Taken(b: Expr): (leaf: Expr)
    requires Swallows(b)
    ensures IsLeaf(leaf)
  {
    if b.Apply? && b.f == DefaultFn then b.args[1] else b.args[OnStack(b) - 1]
  }

  /** a first, and one argument less. */
  function Moved(a: Expr, args: seq<Expr>, k: nat): seq<Expr>
    requires 0 < k <= |args|
  {
    [a] + (args[..k - 1] + args[k..])
  }

  /** b with a put in front of its arguments and the taken one left out. */
  function Shifted(a: Expr, b: Expr): Expr
    requires Swallows(b)
  {
    match b
    case Apply(f, args) =>
      if f == DefaultFn then Expr.Apply(DefaultFn, [args[0], a])
      else Expr.Apply(f, Moved(a, args, OnStack(b)))
    case Call(name, args) => Call(name, Moved(a, args, OnStack(b)))
  }

  /** The expression that default(a, b) is compiled to, if any. */
  function ReadAs(notation: Notation, a: Expr, b: Expr): Option<Expr> {
    if IsLeaf(a) && |Code(notation, b)| == 1 then Some(Expr.Apply(DefaultFn, [a, b]))
    else if Swallows(b) then Some(Expr.Apply(DefaultFn, [Taken(b), Shifted(a, b)]))
    else None
  }

  /** An instruction behind others. */
  function LastOf(notation: Notation, b: Expr): Bytecode {
    CodeNonEmpty(notation, b);
    Code(notation, b)[|Code(notation, b)| - 1]
  }

  /** The code of b, taken apart. */
  lemma {:induction false} CodeParts(notation: Notation, b: Expr)
    requires (b.Apply? && b.f != DefaultFn && b.args != []) || b.Call?
    ensures Code(notation, b) == CodeArgs(notation, b.args, OnStack(b)) + [LastOf(notation, b)]
    ensures LastOf(notation, b) == if b.Apply? then FunctionInstr(notation, b.f, b.args)
                                   else CallInstr(notation, b.name, b.args)
  {
    if b.Apply? {
      CodeOfApply(notation, b.f, b.args);
    } else {
      CodeOfCall(notation, b.name, b.args);
    }
  }

  lemma {:induction false} BeforeLast(front: seq<Bytecode>, mid: seq<Bytecode>, last: Bytecode)
    requires mid != []
    ensures var code := front + mid + [last]; |code| >= 2 && code[|code| - 2] == mid[|mid| - 1]
  {
  }

  lemma {:induction false} LastOnStack(notation: Notation, args: seq<Expr>, k: nat, code: seq<Bytecode>, last: Bytecode)
    requires k <= |args| && code == CodeArgs(notation, args, k) + [last]
    ensures k > 0 && IsLeaf(args[k - 1]) <==> |code| >= 2 && code[|code| - 2].op == Push
    ensures k > 0 && IsLeaf(args[k - 1]) ==> code[|code| - 2] == PushOf(notation, args[k - 1])
  {
    if k > 0 {
      CodeNonEmpty(notation, args[k - 1]);
      LastIsPush(notation, args[k - 1]);
      BeforeLast(CodeArgs(notation, args, k - 1), Code(notation, args[k - 1]), last);
    }
  }

  /** What stands before the last instruction of a function or a callback is its last argument on
      the stack. */
  lemma {:induction false} BeforeApplied(notation: Notation, b: Expr, code: seq<Bytecode>, last: Bytecode)
    requires (b.Apply? && b.f != DefaultFn && b.args != []) || b.Call?
    requires code == CodeArgs(notation, b.args, OnStack(b)) + [last]
    ensures Swallows(b) <==> |code| >= 2 && code[|code| - 2].op == Push
    ensures Swallows(b) ==> code[|code| - 2] == PushOf(notation, Taken(b))
  {
    LastOnStack(notation, b.args, OnStack(b), code, last);
  }

  lemma {:induction false} BeforeDefault(notation: Notation, b: Expr)
    requires b.Apply? && b.f == DefaultFn && |b.args| == 2 && IsLeaf(b.args[0])
    ensures var code := Code(notation, b); Swallows(b) <==> |code| >= 2 && code[|code| - 2].op == Push
    ensures Swallows(b) ==> var code := Code(notation, b); code[|code| - 2] == PushOf(notation, Taken(b))
  {
    var arg := b.args[1];
    CodeNonEmpty(notation, arg);
    LastIsPush(notation, arg);
    BeforeLast([], Code(notation, arg), PushOf(notation, b.args[0]).(op := Fn(DefaultFn), args := 2));
    assert [] + Code(notation, arg) == Code(notation, arg);
  }

  /** Swallows says what the swap finds before b's last instruction. */
  lemma {:induction false} SwallowsIsExact(notation: Notation, b: Expr)
    requires Safe(notation, b)
    ensures var code := Code(notation, b); Swallows(b) <==> |code| >= 2 && code[|code| - 2].op == Push
    ensures Swallows(b) ==> var code := Code(notation, b); code[|code| - 2] == PushOf(notation, Taken(b))
  {
    if b.Apply? && b.f == DefaultFn {
      BeforeDefault(notation, b);
    } else if b.Apply? || b.Call? {
      CodeParts(notation, b);
      BeforeApplied(notation, b, Code(notation, b), LastOf(notation, b));
    }
  }

  /** b's code with what is taken left out, but for its last instruction. */
  function Rest(notation: Notation, b: Expr): seq<Bytecode>
    requires Swallows(b)
  {
    if b.Apply? && b.f == DefaultFn then [] else CodeArgs(notation, b.args, OnStack(b) - 1)
  }

  function TakenInstr(notation: Notation, b: Expr): Bytecode
    requires Swallows(b)
  {
    PushOf(notation, Taken(b)).(op := Fn(DefaultFn), args := 2)
  }

  /** A leaf before a single bytecode comes out as written. */
  lemma {:induction false} EmitsWritten(notation: Notation, a: Expr, b: Expr)
    requires IsLeaf(a) && |Code(notation, b)| == 1
    ensures Emitted(notation, a, b) == DefaultCode(PushOf(notation, a), Code(notation, b))
  {
    var push, code := PushOf(notation, a), Code(notation, b);
    assert Swapped([push] + code) == code + [push];
    AppendFunctionLocal(code, [push], Fn(DefaultFn), 2);
  }

  /** A push before b's last instruction is taken for the first argument. */
  lemma {:induction false} EmitsTaken(notation: Notation, a: Expr, b: Expr)
    requires Safe(notation, b) && Swallows(b)
    ensures Emitted(notation, a, b)
            == Code(notation, a) + Rest(notation, b) + [LastOf(notation, b)] + [TakenInstr(notation, b)]
  {
    RestOfCode(notation, b);
    SwapsTaken(Code(notation, a), Rest(notation, b), PushOf(notation, Taken(b)), LastOf(notation, b));
  }

  /** Otherwise the instruction that comes last has no immediate. */
  lemma {:induction false} EmitsBare(notation: Notation, a: Expr, b: Expr)
    requires Safe(notation, b) && ReadAs(notation, a, b).None?
    ensures Emitted(notation, a, b) == Swapped(Both(notation, a, b)) + [Instr(Fn(DefaultFn), 2)]
  {
    CodeNonEmpty(notation, a);
    CodeNonEmpty(notation, b);
    LastIsPush(notation, a);
    SwallowsIsExact(notation, b);
    LastButOne(Code(notation, a), Code(notation, b));
  }

  lemma {:induction false} LastButOne(front: seq<Bytecode>, code: seq<Bytecode>)
    requires front != [] && code != []
    ensures var all := front + code;
            Swapped(all)[|all| - 1] == if |code| == 1 then front[|front| - 1] else code[|code| - 2]
  {
  }

  lemma {:induction false} RestOfCode(notation: Notation, b: Expr)
    requires Safe(notation, b) && Swallows(b)
    ensures Code(notation, b) == Rest(notation, b) + [PushOf(notation, Taken(b)), LastOf(notation, b)]
  {
    if !(b.Apply? && b.f == DefaultFn) {
      CodeParts(notation, b);
    }
  }

  lemma {:induction false} SwapsTaken(front: seq<Bytecode>, rest: seq<Bytecode>, push: Bytecode, last: Bytecode)
    requires push.op == Push
    ensures AppendFunction(Swapped(front + (rest + [push, last])), Fn(DefaultFn), 2)
            == front + rest + [last] + [push.(op := Fn(DefaultFn), args := 2)]
  {
    assert Swapped(front + (rest + [push, last])) == (front + rest + [last]) + [push];
    AppendFunctionLocal(front + rest + [last], [push], Fn(DefaultFn), 2);
  }

  // ----- what running it does -----

  lemma {:induction false} SafePrefix(notation: Notation, args: seq<Expr>, n: nat, k: nat)
    requires k <= n <= |args| && SafeArgs(notation, args, n)
    ensures SafeArgs(notation, args, k)
    decreases n
  {
    if k < n {
      SafePrefix(notation, args, n - 1, k);
    }
  }

  /** A value and more values, if there are any. */
  function Before(v: Option<Value>, vs: Option<seq<Value>>): Option<seq<Value>> {
    if v.None? || vs.None? then None else Some([v.value] + vs.value)
  }

  lemma {:induction false} EvalBefore(cx: Context, data: Value, a: Expr, xs: seq<Expr>, j: nat)
    requires j <= |xs|
    ensures EvalArgs(cx, data, [a] + xs, j + 1) == Before(Eval(cx, data, a), EvalArgs(cx, data, xs, j))
    decreases j
  {
    var all := [a] + xs;
    if j == 0 {
      assert EvalArgs(cx, data, all, 0) == Some([]) == EvalArgs(cx, data, xs, 0) && all[0] == a;
      var v := Eval(cx, data, a);
      assert v.Some? ==> [] + [v.value] == [v.value] + [];
    } else {
      EvalBefore(cx, data, a, xs, j - 1);
      assert all[j] == xs[j - 1];
      var v, vs, w := Eval(cx, data, a), EvalArgs(cx, data, xs, j - 1), Eval(cx, data, xs[j - 1]);
      if v.Some? && vs.Some? && w.Some? {
        assert [v.value] + vs.value + [w.value] == [v.value] + (vs.value + [w.value]);
      }
    }
  }

  lemma {:induction false} EvalPrefix(cx: Context, data: Value, xs: seq<Expr>, ys: seq<Expr>, j: nat)
    requires j <= |xs| && j <= |ys| && xs[..j] == ys[..j]
    ensures EvalArgs(cx, data, xs, j) == EvalArgs(cx, data, ys, j)
    decreases j
  {
    if j > 0 {
      assert xs[j - 1] == xs[..j][j - 1] == ys[..j][j - 1] == ys[j - 1];
      assert xs[..j - 1] == xs[..j][..j - 1] == ys[..j][..j - 1] == ys[..j - 1];
      EvalPrefix(cx, data, xs, ys, j - 1);
    }
  }

  /** The arguments on the stack, a being the first of them. */
  lemma {:induction false} EvalMoved(cx: Context, data: Value, a: Expr, args: seq<Expr>, k: nat)
    requires 0 < k <= |args|
    ensures EvalArgs(cx, data, Moved(a, args, k), k)
            == Before(Eval(cx, data, a), EvalArgs(cx, data, args, k - 1))
  {
    var xs := args[..k - 1] + args[k..];
    assert xs[..k - 1] == args[..k - 1];
    EvalBefore(cx, data, a, xs, k - 1);
    EvalPrefix(cx, data, xs, args, k - 1);
  }

  /** a's code, and that of some arguments. */
  lemma {:induction false} RunMoved(p: Program, st: State, a: Expr, args: seq<Expr>, k: nat) returns (n: nat)
    requires Safe(p.cx.notation, a) && 0 < k <= |args| && SafeArgs(p.cx.notation, args, k - 1)
    requires Obeys(p) && Holds(p.code, st.pc, Code(p.cx.notation, a) + CodeArgs(p.cx.notation, args, k - 1))
    ensures From(p, st, n) ==
            Pushed(st, |Code(p.cx.notation, a)| + |CodeArgs(p.cx.notation, args, k - 1)|,
                   EvalArgs(p.cx, DataAt(p, st), Moved(a, args, k), k))
  {
    var data, ca, cs := DataAt(p, st), Code(p.cx.notation, a), CodeArgs(p.cx.notation, args, k - 1);
    HoldsSplit(p.code, st.pc, ca, cs);
    EvalMoved(p.cx, data, a, args, k);
    n := RunExpr(p, st, a);
    var v := Eval(p.cx, data, a);
    if v.Some? {
      var mid := Pushed(st, |ca|, Some([v.value])).st;
      var m := RunArgs(p, mid, args, k - 1);
      RunOn(p, st, n, mid, m);
      PushedTwice(st, |ca|, |cs|, v.value, EvalArgs(p.cx, data, args, k - 1));
      n := n + m;
    }
  }

  lemma {:induction false} PushedTwice(st: State, i: nat, j: nat, v: Value, vs: Option<seq<Value>>)
    ensures Pushed(Pushed(st, i, Some([v])).st, j, vs) == Pushed(st, i + j, Before(Some(v), vs))
  {
    if vs.Some? {
      assert st.stack + [v] + vs.value == st.stack + ([v] + vs.value);
    }
  }

  lemma {:induction false} MovedMeaning(cx: Context, data: Value, a: Expr, b: Expr, bc: Bytecode)
    requires Swallows(b) && !(b.Apply? && b.f == DefaultFn) && Applies(bc, |b.args|)
    requires if b.Apply? then bc.op == Fn(b.f) else bc.op == Callback && bc.str == b.name
    ensures var args := Moved(a, b.args, OnStack(b));
            Eval(cx, data, Shifted(a, b)) == Applied(cx, bc, EvalArgs(cx, data, args, |args|))
  {
  }

  lemma {:induction false} LastMoved(cx: Context, data: Value, a: Expr, args: seq<Expr>)
    requires |args| >= 2
    ensures var moved := Moved(a, args, |args| - 1);
            EvalArgs(cx, data, moved, |args|)
            == AndOne(EvalArgs(cx, data, moved, |args| - 1), Eval(cx, data, args[|args| - 1]))
  {
    var moved := Moved(a, args, |args| - 1);
    assert moved[|args| - 1] == args[|args| - 1];
  }

  /** What b's last instruction is, and where it finds its arguments. */
  lemma {:induction false} LastInstr(notation: Notation, b: Expr)
    requires Safe(notation, b) && Swallows(b) && !(b.Apply? && b.f == DefaultFn)
    ensures var bc, k, n := LastOf(notation, b), OnStack(b), |b.args|;
            && Applies(bc, n) && (if b.Apply? then bc.op == Fn(b.f) else bc.op == Callback && bc.str == b.name)
            && ((k == n && bc.flags == Pop)
                || (k == n - 1 && IsLeaf(b.args[k]) && Carries(notation, bc, b.args[k])))
  {
    CodeParts(notation, b);
  }

  /** a's value is taken by b's last instruction, in place of the argument that is left out. */
  lemma {:induction false} RunShiftedCall(p: Program, st: State, a: Expr, b: Expr) returns (n: nat)
    requires Safe(p.cx.notation, a) && Safe(p.cx.notation, b) && Swallows(b) && !(b.Apply? && b.f == DefaultFn)
    requires Obeys(p)
    requires Holds(p.code, st.pc, Code(p.cx.notation, a) + Rest(p.cx.notation, b) + [LastOf(p.cx.notation, b)])
    ensures From(p, st, n) ==
            Pushed(st, |Code(p.cx.notation, a)| + |Rest(p.cx.notation, b)| + 1,
                   One(Eval(p.cx, DataAt(p, st), Shifted(a, b))))
  {
    var data, k, bc := DataAt(p, st), OnStack(b), LastOf(p.cx.notation, b);
    var front := Code(p.cx.notation, a) + Rest(p.cx.notation, b);
    LastInstr(p.cx.notation, b);
    SafePrefix(p.cx.notation, b.args, |b.args|, k - 1);
    HoldsSplit(p.code, st.pc, front, [bc]);
    HoldsOne(p.code, st.pc + |front|, bc);
    n := RunMoved(p, st, a, b.args, k);
    MovedMeaning(p.cx, data, a, b, bc);
    FinishShifted(p, st, |front|, n, a, b.args, k, bc);
    n := n + 1;
  }

  /** The instruction, with the arguments on the stack and its last, if that is a leaf, in it. */
  lemma {:induction false} FinishShifted(p: Program, st: State, length: nat, n: nat, a: Expr, args: seq<Expr>, k: nat,
                                         bc: Bytecode)
    requires Obeys(p) && 0 < k <= |args| && Applies(bc, |args|)
    requires From(p, st, n) == Pushed(st, length, EvalArgs(p.cx, DataAt(p, st), Moved(a, args, k), k))
    requires st.pc + length < |p.code| && p.code[st.pc + length] == bc
    requires (k == |args| && bc.flags == Pop)
             || (k == |args| - 1 && IsLeaf(args[k]) && Carries(p.cx.notation, bc, args[k]))
    ensures From(p, st, n + 1) ==
            Pushed(st, length + 1, One(Applied(p.cx, bc, EvalArgs(p.cx, DataAt(p, st), Moved(a, args, k), |args|))))
  {
    var data := DataAt(p, st);
    var vs := EvalArgs(p.cx, data, Moved(a, args, k), k);
    if k < |args| {
      LastMoved(p.cx, data, a, args);
      FinishWithLeaf(p, st, length, vs, n, bc, args[k]);
    } else {
      if vs.Some? {
        FetchFromStack(p.cx, data, bc, st.stack, vs.value);
      }
      FinishApply(p, st, length, vs, n, bc, vs);
    }
  }

  /** A default instruction that carries a leaf, behind code for another expression. */
  lemma {:induction false} FinishLeaf(p: Program, st: State, length: nat, n: nat, leaf: Expr, e: Expr)
    requires Obeys(p) && IsLeaf(leaf) && From(p, st, n) == Pushed(st, length, One(Eval(p.cx, DataAt(p, st), e)))
    requires st.pc + length < |p.code|
    requires p.code[st.pc + length] == PushOf(p.cx.notation, leaf).(op := Fn(DefaultFn), args := 2)
    ensures From(p, st, n + 1) ==
            Pushed(st, length + 1, One(Eval(p.cx, DataAt(p, st), Expr.Apply(DefaultFn, [leaf, e]))))
  {
    var bc := p.code[st.pc + length];
    LeafImmediate(p.cx, DataAt(p, st), leaf, bc);
    FinishDefault(p, st, length, Eval(p.cx, DataAt(p, st), e), n, bc);
  }

  lemma {:induction false} RunLeafDefault(p: Program, st: State, leaf: Expr, e: Expr) returns (n: nat)
    requires Obeys(p) && IsLeaf(leaf) && Safe(p.cx.notation, e)
    requires Holds(p.code, st.pc, DefaultCode(PushOf(p.cx.notation, leaf), Code(p.cx.notation, e)))
    ensures From(p, st, n) ==
            Pushed(st, |Code(p.cx.notation, e)| + 1,
                   One(Eval(p.cx, DataAt(p, st), Expr.Apply(DefaultFn, [leaf, e]))))
  {
    var code, bc := Code(p.cx.notation, e), PushOf(p.cx.notation, leaf).(op := Fn(DefaultFn), args := 2);
    HoldsSplit(p.code, st.pc, code, [bc]);
    HoldsOne(p.code, st.pc + |code|, bc);
    n := RunExpr(p, st, e);
    FinishLeaf(p, st, |code|, n, leaf, e);
    n := n + 1;
  }

  function TakenFront(notation: Notation, a: Expr, b: Expr): seq<Bytecode>
    requires Swallows(b)
  {
    Code(notation, a) + Rest(notation, b) + [LastOf(notation, b)]
  }

  /** The code up to b's last instruction computes b with a in it. */
  lemma {:induction false} RunShifted(p: Program, st: State, a: Expr, b: Expr) returns (n: nat)
    requires Safe(p.cx.notation, a) && Safe(p.cx.notation, b) && Swallows(b)
    requires Obeys(p) && Holds(p.code, st.pc, TakenFront(p.cx.notation, a, b))
    ensures From(p, st, n) ==
            Pushed(st, |TakenFront(p.cx.notation, a, b)|, One(Eval(p.cx, DataAt(p, st), Shifted(a, b))))
  {
    if b.Apply? && b.f == DefaultFn {
      assert Code(p.cx.notation, a) + [] == Code(p.cx.notation, a);
      n := RunLeafDefault(p, st, b.args[0], a);
    } else {
      n := RunShiftedCall(p, st, a, b);
    }
  }

  lemma {:induction false} HoldsTaken(code: seq<Bytecode>, pc: nat, notation: Notation, a: Expr, b: Expr)
    requires Safe(notation, b) && Swallows(b) && Holds(code, pc, Emitted(notation, a, b))
    ensures var front := TakenFront(notation, a, b);
            && Holds(code, pc, front) && |Emitted(notation, a, b)| == |front| + 1
            && pc + |front| < |code| && code[pc + |front|] == TakenInstr(notation, b)
  {
    var front := TakenFront(notation, a, b);
    EmitsTaken(notation, a, b);
    HoldsSplit(code, pc, front, [TakenInstr(notation, b)]);
    HoldsOne(code, pc + |front|, TakenInstr(notation, b));
  }

  lemma {:induction false} FinishTaken(p: Program, st: State, length: nat, n: nat, a: Expr, b: Expr)
    requires Obeys(p) && Swallows(b) && st.pc + length < |p.code|
    requires From(p, st, n) == Pushed(st, length, One(Eval(p.cx, DataAt(p, st), Shifted(a, b))))
    requires p.code[st.pc + length] == TakenInstr(p.cx.notation, b)
    ensures From(p, st, n + 1) ==
            Pushed(st, length + 1,
                   One(Eval(p.cx, DataAt(p, st), Expr.Apply(DefaultFn, [Taken(b), Shifted(a, b)]))))
  {
    FinishLeaf(p, st, length, n, Taken(b), Shifted(a, b));
  }

  lemma {:induction false} RunTaken(p: Program, st: State, a: Expr, b: Expr, length: nat) returns (n: nat)
    requires Safe(p.cx.notation, a) && Safe(p.cx.notation, b) && Swallows(b)
    requires Obeys(p) && Holds(p.code, st.pc, TakenFront(p.cx.notation, a, b))
    requires length == |TakenFront(p.cx.notation, a, b)| && st.pc + length < |p.code|
    requires p.code[st.pc + length] == TakenInstr(p.cx.notation, b)
    ensures From(p, st, n) ==
            Pushed(st, length + 1,
                   One(Eval(p.cx, DataAt(p, st), Expr.Apply(DefaultFn, [Taken(b), Shifted(a, b)]))))
  {
    n := RunShifted(p, st, a, b);
    FinishTaken(p, st, length, n, a, b);
    n := n + 1;
  }

  lemma {:induction false} RunEmittedTaken(p: Program, st: State, a: Expr, b: Expr) returns (n: nat)
    requires Safe(p.cx.notation, a) && Safe(p.cx.notation, b) && Swallows(b)
    requires Obeys(p) && Holds(p.code, st.pc, Emitted(p.cx.notation, a, b))
    ensures From(p, st, n) ==
            Pushed(st, |Emitted(p.cx.notation, a, b)|,
                   One(Eval(p.cx, DataAt(p, st), Expr.Apply(DefaultFn, [Taken(b), Shifted(a, b)]))))
  {
    HoldsTaken(p.code, st.pc, p.cx.notation, a, b);
    n := RunTaken(p, st, a, b, |TakenFront(p.cx.notation, a, b)|);
  }

  lemma {:induction false} RunEmittedWritten(p: Program, st: State, a: Expr, b: Expr) returns (n: nat)
    requires Safe(p.cx.notation, b) && IsLeaf(a) && |Code(p.cx.notation, b)| == 1
    requires Obeys(p) && Holds(p.code, st.pc, Emitted(p.cx.notation, a, b))
    ensures From(p, st, n) ==
            Pushed(st, |Emitted(p.cx.notation, a, b)|,
                   One(Eval(p.cx, DataAt(p, st), Expr.Apply(DefaultFn, [a, b]))))
  {
    EmitsWritten(p.cx.notation, a, b);
    n := RunLeafDefault(p, st, a, b);
  }

  // ----- a default instruction without an immediate -----

  predicate Straight(code: seq<Bytecode>) {
    forall i | 0 <= i < |code| :: !Patching.Jumpy(code[i].op)
  }

  lemma {:induction false} StraightConcat(xs: seq<Bytecode>, ys: seq<Bytecode>)
    requires Straight(xs) && Straight(ys)
    ensures Straight(xs + ys)
  {
  }

  lemma {:induction false} StraightAppend(code: seq<Bytecode>, f: Function, name: string, n: nat)
    requires Straight(code)
    ensures Straight(AppendFunction(code, Fn(f), n)) && Straight(AppendCallback(code, name, n))
  {
  }

  lemma {:induction false} CodeIsStraight(notation: Notation, e: Expr)
    ensures Straight(Code(notation, e))
    decreases e, 1, 0
  {
    match e
    case Lit(_, _) =>
    case Lookup(_) =>
    case Apply(f, args) =>
      if f == DefaultFn && |args| == 2 && IsLeaf(args[0]) {
        CodeIsStraight(notation, args[1]);
        StraightConcat(Code(notation, args[1]), [PushOf(notation, args[0]).(op := Fn(DefaultFn), args := 2)]);
      } else {
        CodeArgsAreStraight(notation, args, |args|);
        StraightAppend(CodeArgs(notation, args, |args|), f, "", |args|);
      }
    case Call(name, args) =>
      CodeArgsAreStraight(notation, args, |args|);
      StraightAppend(CodeArgs(notation, args, |args|), NotFn, name, |args|);
  }

  lemma {:induction false} CodeArgsAreStraight(notation: Notation, args: seq<Expr>, n: nat)
    requires n <= |args|
    ensures Straight(CodeArgs(notation, args, n))
    decreases args, 0, n
  {
    if n > 0 {
      CodeArgsAreStraight(notation, args, n - 1);
      CodeIsStraight(notation, args[n - 1]);
      StraightConcat(CodeArgs(notation, args, n - 1), Code(notation, args[n - 1]));
    }
  }

  /** One instruction other than a jump goes to the next address or ends the run. */
  lemma {:induction false} StraightStep(p: Program, st: State)
    requires Obeys(p) && st.pc < |p.code| && !Patching.Jumpy(p.code[st.pc].op)
    ensures var s := From(p, st, 1); s.At? ==> s.st.pc == st.pc + 1 && p.code[st.pc] != Instr(Fn(DefaultFn), 2)
  {
    assert Here(st);
  }

  lemma {:induction false} StraightRun(p: Program, st: State, frag: seq<Bytecode>, k: nat)
    requires Obeys(p) && Holds(p.code, st.pc, frag) && k <= |frag|
    requires Straight(frag)
    ensures var s := From(p, st, k);
            s.At? ==> s.st.pc == st.pc + k && (k > 0 ==> frag[k - 1] != Instr(Fn(DefaultFn), 2))
    decreases k
  {
    if k > 0 {
      StraightRun(p, st, frag, k - 1);
      RunSplit(p.next, |p.code|, st, k - 1, 1);
      if From(p, st, k - 1).At? {
        assert Spot(k - 1);
        StraightStep(p, From(p, st, k - 1).st);
      }
    }
  }

  lemma {:induction false} EmittedIsStraight(notation: Notation, a: Expr, b: Expr)
    ensures Straight(Emitted(notation, a, b))
  {
    CodeIsStraight(notation, a);
    CodeIsStraight(notation, b);
    StraightConcat(Code(notation, a), Code(notation, b));
    StraightAppend(Swapped(Both(notation, a, b)), DefaultFn, "", 2);
  }

  lemma {:induction false} RunEmittedBare(p: Program, st: State, a: Expr, b: Expr)
    requires Safe(p.cx.notation, b) && ReadAs(p.cx.notation, a, b).None?
    requires Obeys(p) && Holds(p.code, st.pc, Emitted(p.cx.notation, a, b))
    ensures !From(p, st, |Emitted(p.cx.notation, a, b)|).At?
  {
    var code := Emitted(p.cx.notation, a, b);
    EmitsBare(p.cx.notation, a, b);
    EmittedIsStraight(p.cx.notation, a, b);
    StraightRun(p, st, code, |code|);
  }

  // ----- the meaning of default, for all arguments -----

  /** The code emitted for default(a, b) computes the expression it is read as; if there is none, it
      never comes to its end. */
  lemma {:induction false} DefaultMeans(p: Program, st: State, a: Expr, b: Expr) returns (n: nat)
    requires Safe(p.cx.notation, a) && Safe(p.cx.notation, b)
    requires Obeys(p) && Holds(p.code, st.pc, Emitted(p.cx.notation, a, b))
    ensures match ReadAs(p.cx.notation, a, b)
            case Some(e) =>
              From(p, st, n) == Pushed(st, |Emitted(p.cx.notation, a, b)|, One(Eval(p.cx, DataAt(p, st), e)))
            case None => !From(p, st, n).At?
  {
    if IsLeaf(a) && |Code(p.cx.notation, b)| == 1 {
      n := RunEmittedWritten(p, st, a, b);
    } else if Swallows(b) {
      n := RunEmittedTaken(p, st, a, b);
    } else {
      n := |Emitted(p.cx.notation, a, b)|;
      RunEmittedBare(p, st, a, b);
    }
  }

  // ----- a first argument that is no literal and no name -----

  lemma {:induction false} FailureStays(cx: Context, data: Value, args: seq<Expr>, j: nat, n: nat)
    requires j <= n <= |args| && EvalArgs(cx, data, args, j).None?
    ensures EvalArgs(cx, data, args, n).None?
    decreases n
  {
    if j < n {
      FailureStays(cx, data, args, j, n - 1);
    }
  }

  lemma {:induction false} ShiftedFails(cx: Context, data: Value, a: Expr, b: Expr)
    requires Swallows(b) && Eval(cx, data, a).None?
    ensures Eval(cx, data, Shifted(a, b)).None?
  {
    if !(b.Apply? && b.f == DefaultFn) {
      var moved := Moved(a, b.args, OnStack(b));
      EvalMoved(cx, data, a, b.args, OnStack(b));
      FailureStays(cx, data, moved, OnStack(b), |moved|);
    }
  }

  /** What default is for does not work: where such an argument throws, the fallback is not used,
      whatever it is. Nothing is. */
  lemma {:induction false} FallbackIsNotUsed(p: Program, st: State, a: Expr, b: Expr) returns (n: nat)
    requires Safe(p.cx.notation, a) && Safe(p.cx.notation, b) && !IsLeaf(a)
    requires Obeys(p) && Holds(p.code, st.pc, Emitted(p.cx.notation, a, b))
    requires Eval(p.cx, DataAt(p, st), a).None?
    ensures !From(p, st, n).At?
  {
    n := DefaultMeans(p, st, a, b);
    if Swallows(b) {
      ShiftedFails(p.cx, DataAt(p, st), a, b);
    }
  }

  function FofX(): Expr {
    Call("f", [Lookup("x")])
  }

  function GofY(): Expr {
    Call("g", [Lookup("y")])
  }

  /** And where it does not throw, its value may still be ignored. default(f(x), g(y)) computes y,
      or g(f(x)) when there is no y. */
  lemma {:induction false} WrongDefault(cx: Context, data: Value, x: Value, y: Value, fx: Value)
    requires Resolve(cx.env, data, cx.notation, "x") == Some(x) && Resolve(cx.env, data, cx.notation, "y") == Some(y)
    requires cx.env.hasCallback("f", 1) && cx.env.callback("f", [x]) == Some(fx)
    requires cx.env.hasCallback("g", 1) && cx.env.callback("g", [y]).Some? && cx.env.callback("g", [fx]).Some?
    ensures ReadAs(cx.notation, FofX(), GofY()) == Some(Expr.Apply(DefaultFn, [Lookup("y"), Call("g", [FofX()])]))
    ensures Eval(cx, data, Expr.Apply(DefaultFn, [FofX(), GofY()])) == Some(fx)
    ensures Eval(cx, data, ReadAs(cx.notation, FofX(), GofY()).value) == Some(y)
  {
    assert Moved(FofX(), [Lookup("y")], 1) == [FofX()];
    OneArgument(cx, data, Lookup("x"));
    OneArgument(cx, data, Lookup("y"));
    OneArgument(cx, data, FofX());
  }

  lemma {:induction false} OneArgument(cx: Context, data: Value, e: Expr)
    ensures EvalArgs(cx, data, [e], 1) == One(Eval(cx, data, e))
  {
    assert EvalArgs(cx, data, [e], 0) == Some([]);
    var v := Eval(cx, data, [e][0]);
    assert v.Some? ==> [] + [v.value] == [v.value];
  }

  lemma {:induction false} TwoArguments(cx: Context, data: Value, e: Expr, f: Expr)
    ensures EvalArgs(cx, data, [e, f], 2) ==
            if Eval(cx, data, e).None? || Eval(cx, data, f).None? then None
            else Some([Eval(cx, data, e).value, Eval(cx, data, f).value])
  {
    var es := [e, f];
    EvalPrefix(cx, data, es, [e], 1);
    OneArgument(cx, data, e);
    var v, w := Eval(cx, data, e), Eval(cx, data, es[1]);
    assert v.Some? && w.Some? ==> [v.value] + [w.value] == [v.value, w.value];
  }

  /** An environment in which the two differ. */
  function Telling(): Env {
    Env((v: Value, s: string) => Some(Int(2)), (s: string, n: nat) => true,
        (s: string, vs: seq<Value>) => Some(Int(if s == "f" then 1 else 3)),
        (f: Builtin, vs: seq<Value>) => None, (v: Value) => None)
  }

  lemma {:induction false} DefaultGoesWrong(notation: Notation, data: Value)
    ensures var cx := Context(Telling(), data, notation);
            && Eval(cx, data, Expr.Apply(DefaultFn, [FofX(), GofY()])) == Some(Int(1))
            && ReadAs(notation, FofX(), GofY()).Some?
            && Eval(cx, data, ReadAs(notation, FofX(), GofY()).value) == Some(Int(2))
  {
    WrongDefault(Context(Telling(), data, notation), data, Int(2), Int(2), Int(1));
  }

  // ----- a wrong reading may agree all the same -----

  function NotFalse(): Expr {
    Expr.Apply(NotFn, [Lit(Shown(Id, "false"), Bool(false))])
  }

  function TrueAtZero(): Expr {
    Expr.Apply(Pure(ElementAt), [Lit(Shown(Id, "true"), Bool(true)), Lit(Shown(Number, "0"), Int(0))])
  }

  /** default(not false, at(true, 0)) is read as default(true, at(not false, 0)), and means the same in
      every environment. So no condition on the shape of a and b alone says where the meaning is
      right; DefaultMeans says what it is. */
  lemma {:induction false} RightByAccident(cx: Context, data: Value)
    ensures !SwapWorks(cx.notation, NotFalse(), TrueAtZero())
    ensures ReadAs(cx.notation, NotFalse(), TrueAtZero()).Some?
    ensures Eval(cx, data, ReadAs(cx.notation, NotFalse(), TrueAtZero()).value)
            == Eval(cx, data, Expr.Apply(DefaultFn, [NotFalse(), TrueAtZero()]))
  {
    var t, zero := Lit(Shown(Id, "true"), Bool(true)), Lit(Shown(Number, "0"), Int(0));
    assert Moved(NotFalse(), [t, zero], 1) == [NotFalse(), zero];
    OneArgument(cx, data, Lit(Shown(Id, "false"), Bool(false)));
    assert Eval(cx, data, NotFalse()) == Some(Bool(true));
    TwoArguments(cx, data, t, zero);
    TwoArguments(cx, data, NotFalse(), zero);
  }
}
