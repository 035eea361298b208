/** Running a tree's code does what the interpreter says, and never anything undefined. */
module Correctness {
  import opened Options
  import opened Json
  import opened Bytecodes
  import opened Machine
  import opened Syntax
  import opened Compiler

  predicate Spot(i: nat) {
    true
  }

  /** `frag` stands at address `pc` of `code`. */
  ghost predicate Holds(code: seq<Bytecode>, pc: nat, frag: seq<Bytecode>) {
    pc + |frag| <= |code| &&
    forall i: nat {:trigger Spot(i)} :: Spot(i) && i < |frag| ==> code[pc + i] == frag[i]
  }

  lemma {:induction false} HoldsFits(code: seq<Bytecode>, pc: nat, frag: seq<Bytecode>)
    requires Holds(code, pc, frag)
    ensures pc + |frag| <= |code|
  {
  }

  lemma {:induction false} HoldsSplit(code: seq<Bytecode>, pc: nat, a: seq<Bytecode>, b: seq<Bytecode>)
    requires Holds(code, pc, a + b)
    ensures Holds(code, pc, a) && Holds(code, pc + |a|, b)
  {
    forall i: nat | i < |a| ensures code[pc + i] == a[i] {
      assert Spot(i) && (a + b)[i] == a[i];
    }
    forall i: nat | i < |b| ensures code[pc + |a| + i] == b[i] {
      assert Spot(|a| + i) && (a + b)[|a| + i] == b[i];
    }
  }

  lemma {:induction false} HoldsParts(code: seq<Bytecode>, pc: nat, a: seq<Bytecode>, b: seq<Bytecode>,
                                      c: seq<Bytecode>, d: seq<Bytecode>)
    requires Holds(code, pc, a + b + c + d)
    ensures Holds(code, pc, a + b) && Holds(code, pc + |a| + |b|, c) && Holds(code, pc + |a| + |b| + |c|, d)
    ensures pc + |a| + |b| + |c| + |d| <= |code|
  {
    HoldsSplit(code, pc, a + b + c, d);
    HoldsSplit(code, pc, a + b, c);
  }

  lemma {:induction false} HoldsOne(code: seq<Bytecode>, pc: nat, bc: Bytecode)
    requires Holds(code, pc, [bc])
    ensures pc < |code| && code[pc] == bc
  {
    assert Spot(0);
  }

  /** A program being run. `next` and `kit` are kept abstract: the proofs below unfold them one
      named state or expression at a time. */
  datatype Program = Program(next: State -> Status, code: seq<Bytecode>, cx: Context, kit: Kit)

  predicate Here(st: State) {
    true
  }

  predicate Used(e: Expr) {
    true
  }

  ghost predicate Obeys(p: Program) {
    && (forall st: State {:trigger Here(st)} :: Here(st) && st.pc < |p.code| ==>
          p.next(st) == Step(p.cx.env, p.cx.root, p.code[st.pc], st))
    && (forall e: Expr {:trigger Used(e)} :: Used(e) ==>
          p.kit.code(e) == Code(p.cx.notation, e) && p.kit.show(e) == PrintCode(p.cx.notation, e))
  }

  function From(p: Program, st: State, n: nat): Status {
    Run(p.next, |p.code|, st, n)
  }

  function DataAt(p: Program, st: State): Value {
    Current(p.cx.root, st.loops)
  }

  /** st after code of the given length has put vs on the stack; or failure. */
  function Pushed(st: State, length: nat, vs: Option<seq<Value>>): Status {
    match vs
    case None => Failed
    case Some(values) => At(st.(pc := st.pc + length, stack := st.stack + values))
  }

  function One(v: Option<Value>): Option<seq<Value>> {
    match v
    case None => None
    case Some(x) => Some([x])
  }

  // One step, for each kind of instruction.

  lemma {:induction false} OneFunction(p: Program, st: State)
    requires Obeys(p) && st.pc < |p.code| && p.code[st.pc].op.Fn? && p.code[st.pc].op.f != DefaultFn
    ensures From(p, st, 1) == StepFunction(p.cx.env, p.cx.root, DataAt(p, st), p.code[st.pc], st)
  {
    assert Here(st);
  }

  lemma {:induction false} OneDefault(p: Program, st: State)
    requires Obeys(p) && st.pc < |p.code| && p.code[st.pc].op == Fn(DefaultFn)
    ensures From(p, st, 1) == StepDefault(p.cx.env, DataAt(p, st), p.code[st.pc], st)
  {
    assert Here(st);
  }

  lemma {:induction false} OneCallback(p: Program, st: State)
    requires Obeys(p) && st.pc < |p.code| && p.code[st.pc].op == Callback
    ensures From(p, st, 1) == StepCallback(p.cx.env, DataAt(p, st), p.code[st.pc], st)
  {
    assert Here(st);
  }

  lemma {:induction false} OnePush(p: Program, st: State)
    requires Obeys(p) && st.pc < |p.code| && p.code[st.pc].op == Push && p.code[st.pc].flags != Pop
    ensures From(p, st, 1) == Pushed(st, 1, One(ImmediateValue(p.cx.env, DataAt(p, st), p.code[st.pc])))
  {
    assert Here(st);
    assert st.stack[..|st.stack|] == st.stack;
  }

  lemma {:induction false} OnePrint(p: Program, st: State)
    requires Obeys(p) && st.pc < |p.code| && p.code[st.pc].op == PrintValue
    ensures From(p, st, 1) == StepPrint(p.cx.env, DataAt(p, st), p.code[st.pc], st)
  {
    assert Here(st);
  }

  lemma {:induction false} OneCondition(p: Program, st: State)
    requires Obeys(p) && st.pc < |p.code| && p.code[st.pc].op == ConditionalJump
    ensures From(p, st, 1) == StepCond(p.code[st.pc], st)
  {
    assert Here(st);
  }

  lemma {:induction false} OneStart(p: Program, st: State)
    requires Obeys(p) && st.pc < |p.code| && p.code[st.pc].op == StartLoop
    ensures From(p, st, 1) == StepStart(p.cx.root, p.code[st.pc], st)
  {
    assert Here(st);
  }

  lemma {:induction false} OneEnd(p: Program, st: State)
    requires Obeys(p) && st.pc < |p.code| && p.code[st.pc].op == EndLoop
    ensures From(p, st, 1) == StepEnd(p.code[st.pc], st)
  {
    assert Here(st);
  }

  lemma {:induction false} RunOn(p: Program, st: State, n: nat, mid: State, m: nat)
    requires From(p, st, n) == At(mid)
    ensures From(p, st, n + m) == From(p, mid, m)
  {
    RunSplit(p.next, |p.code|, st, n, m);
  }

  // ----- expressions -----

  /** bc holds in its immediate what a leaf's push would. */
  predicate Carries(notation: Notation, bc: Bytecode, leaf: Expr)
    requires IsLeaf(leaf)
  {
    var push := PushOf(notation, leaf);
    bc.flags == push.flags && bc.value == push.value && (bc.flags == Immediate || bc.str == push.str)
  }

  /** A leaf's push, or the immediate it becomes, reads what the interpreter reads. */
  lemma {:induction false} LeafImmediate(cx: Context, data: Value, leaf: Expr, bc: Bytecode)
    requires IsLeaf(leaf)
    requires Carries(cx.notation, bc, leaf)
    ensures bc.flags != Pop && ImmediateValue(cx.env, data, bc) == Eval(cx, data, leaf)
  {
  }

  /** Code for some values, then one instruction. */
  lemma {:induction false} RunThenOne(p: Program, st: State, length: nat, vs: Option<seq<Value>>, n: nat)
    requires From(p, st, n) == Pushed(st, length, vs)
    ensures From(p, st, n + 1) == if vs.None? then Failed else From(p, Pushed(st, length, vs).st, 1)
  {
    RunSplit(p.next, |p.code|, st, n, 1);
  }

  /** The arguments an instruction finds when all of them are on the stack. */
  lemma {:induction false} FetchFromStack(cx: Context, data: Value, bc: Bytecode, below: seq<Value>, vs: seq<Value>)
    requires bc.flags == Pop && bc.args == |vs|
    ensures Fetch(cx.env, data, below + vs, bc) == Got(vs)
  {
  }

  /** The same when the last argument, a leaf, is in the immediate. */
  lemma {:induction false} FetchWithImmediate(cx: Context, data: Value, bc: Bytecode, below: seq<Value>,
                                              vs: seq<Value>, leaf: Expr)
    requires IsLeaf(leaf) && bc.args == |vs| + 1
    requires Carries(cx.notation, bc, leaf)
    ensures Fetch(cx.env, data, below + vs, bc) ==
            match Eval(cx, data, leaf)
            case None => Thrown
            case Some(v) => Got(vs + [v])
  {
    LeafImmediate(cx, data, leaf, bc);
    assert (below + vs)[|below|..] == vs;
  }

  predicate Applies(bc: Bytecode, n: nat) {
    bc.args == n && (bc.op == Callback || (bc.op.Fn? && bc.op.f != DefaultFn && Arity(bc.op.f) == n))
  }

  /** What a function or callback makes of its arguments. */
  function Applied(cx: Context, bc: Bytecode, vs: Option<seq<Value>>): Option<Value>
    requires vs.Some? ==> Applies(bc, |vs.value|)
  {
    match vs
    case None => None
    case Some(args) =>
      if bc.op.Fn? then Machine.Apply(cx.env, cx.root, bc.op.f, args)
      else if cx.env.hasCallback(bc.str, |args|) then cx.env.callback(bc.str, args)
      else None
  }

  /** The instruction itself, once its arguments but the immediate are on the stack. */
  lemma {:induction false} FinishApply(p: Program, st: State, length: nat, vs: Option<seq<Value>>, n: nat, bc: Bytecode,
                    all: Option<seq<Value>>)
    requires Obeys(p) && From(p, st, n) == Pushed(st, length, vs)
    requires vs.None? ==> all.None?
    requires all.Some? ==> Applies(bc, |all.value|)
    requires vs.Some? ==>
               && st.pc + length < |p.code| && p.code[st.pc + length] == bc
               && Applies(bc, bc.args) && Popped(bc) == |vs.value|
               && Fetch(p.cx.env, DataAt(p, st), st.stack + vs.value, bc)
                  == (if all.Some? then Got(all.value) else Thrown)
    ensures From(p, st, n + 1) == Pushed(st, length + 1, One(Applied(p.cx, bc, all)))
  {
    RunThenOne(p, st, length, vs, n);
    if vs.Some? {
      var mid := Pushed(st, length, vs).st;
      assert (st.stack + vs.value)[..|st.stack|] == st.stack;
      if bc.op.Fn? {
        OneFunction(p, mid);
      } else {
        OneCallback(p, mid);
      }
    }
  }

  lemma {:induction false} FinishDefault(p: Program, st: State, length: nat, fallback: Option<Value>, n: nat,
                                         bc: Bytecode)
    requires Obeys(p) && From(p, st, n) == Pushed(st, length, One(fallback))
    requires bc.op == Fn(DefaultFn) && bc.flags != Pop
    requires fallback.Some? ==> st.pc + length < |p.code| && p.code[st.pc + length] == bc
    ensures From(p, st, n + 1) ==
            Pushed(st, length + 1,
                   if fallback.None? then None
                   else match ImmediateValue(p.cx.env, DataAt(p, st), bc)
                     case None => One(fallback)
                     case Some(v) => Some([v]))
  {
    RunThenOne(p, st, length, One(fallback), n);
    if fallback.Some? {
      OneDefault(p, Pushed(st, length, One(fallback)).st);
      var stack := st.stack + [fallback.value];
      assert stack[..|stack| - 1] == st.stack;
      assert stack[..|stack|] + [] == stack;
    }
  }

  /** How the last of n arguments reaches the instruction that uses it. */
  lemma {:induction false} LastArgument(notation: Notation, args: seq<Expr>)
    requires args != []
    ensures var all, last := CodeArgs(notation, args, |args|), args[|args| - 1];
            && (IsLeaf(last) ==> all == CodeArgs(notation, args, |args| - 1) + [PushOf(notation, last)])
            && (!IsLeaf(last) ==> !EndsWithPush(all))
  {
    var last := args[|args| - 1];
    LastIsPush(notation, last);
    CodeNonEmpty(notation, last);
    var c, all := Code(notation, last), CodeArgs(notation, args, |args|);
    assert all[|all| - 1] == c[|c| - 1];
  }

  lemma {:induction false} RunExpr(p: Program, st: State, e: Expr) returns (n: nat)
    requires Safe(p.cx.notation, e)
    requires Obeys(p) && Holds(p.code, st.pc, Code(p.cx.notation, e))
    ensures From(p, st, n) ==
            Pushed(st, |Code(p.cx.notation, e)|, One(Eval(p.cx, DataAt(p, st), e)))
    decreases e, 1, 0
  {
    var data := DataAt(p, st);
    match e
    case Lit(_, v) =>
      HoldsOne(p.code, st.pc, PushLiteral(v));
      OnePush(p, st);
      n := 1;
    case Lookup(name) =>
      HoldsOne(p.code, st.pc, PushLookup(p.cx.notation, name));
      OnePush(p, st);
      n := 1;
    case Apply(f, args) =>
      if f == DefaultFn {
        n := RunDefault(p, st, args);
      } else {
        n := RunApply(p, st, f, args);
      }
    case Call(name, args) =>
      n := RunCall(p, st, name, args);
  }

  /** Some values, then one more. */
  lemma {:induction false} PushMore(p: Program, st: State, a: nat, b: nat, vs: seq<Value>, v: Option<Value>, n: nat,
                                    m: nat)
    requires From(p, st, n) == Pushed(st, a, Some(vs))
    requires From(p, Pushed(st, a, Some(vs)).st, m) == Pushed(Pushed(st, a, Some(vs)).st, b, One(v))
    ensures From(p, st, n + m) ==
            Pushed(st, a + b, if v.None? then None else Some(vs + [v.value]))
  {
    RunOn(p, st, n, Pushed(st, a, Some(vs)).st, m);
    if v.Some? {
      assert st.stack + vs + [v.value] == st.stack + (vs + [v.value]);
    }
  }

  lemma {:induction false} RunArgs(p: Program, st: State, args: seq<Expr>, k: nat) returns (n: nat)
    requires k <= |args| && SafeArgs(p.cx.notation, args, k)
    requires Obeys(p) && Holds(p.code, st.pc, CodeArgs(p.cx.notation, args, k))
    ensures From(p, st, n) ==
            Pushed(st, |CodeArgs(p.cx.notation, args, k)|, EvalArgs(p.cx, DataAt(p, st), args, k))
    decreases args, 0, k
  {
    if k == 0 {
      assert st.stack + [] == st.stack;
      n := 0;
    } else {
      var front, last := CodeArgs(p.cx.notation, args, k - 1), Code(p.cx.notation, args[k - 1]);
      HoldsSplit(p.code, st.pc, front, last);
      n := RunArgs(p, st, args, k - 1);
      var vs := EvalArgs(p.cx, DataAt(p, st), args, k - 1);
      if vs.Some? {
        var mid := Pushed(st, |front|, vs).st;
        var m := RunExpr(p, mid, args[k - 1]);
        PushMore(p, st, |front|, |last|, vs.value, Eval(p.cx, DataAt(p, st), args[k - 1]), n, m);
        n := n + m;
      }
    }
  }

  /** Arguments, then an instruction that finds them all on the stack. */
  lemma {:induction false} RunFromStack(p: Program, st: State, args: seq<Expr>, bc: Bytecode) returns (n: nat)
    requires SafeArgs(p.cx.notation, args, |args|) && Applies(bc, |args|) && bc.flags == Pop
    requires Obeys(p) && Holds(p.code, st.pc, CodeArgs(p.cx.notation, args, |args|) + [bc])
    ensures From(p, st, n) == Pushed(st, |CodeArgs(p.cx.notation, args, |args|)| + 1,
                                     One(Applied(p.cx, bc, EvalArgs(p.cx, DataAt(p, st), args, |args|))))
    decreases args, 1, 0
  {
    var all, vs := CodeArgs(p.cx.notation, args, |args|), EvalArgs(p.cx, DataAt(p, st), args, |args|);
    HoldsSplit(p.code, st.pc, all, [bc]);
    HoldsOne(p.code, st.pc + |all|, bc);
    n := RunArgs(p, st, args, |args|);
    if vs.Some? {
      FetchFromStack(p.cx, DataAt(p, st), bc, st.stack, vs.value);
    }
    FinishApply(p, st, |all|, vs, n, bc, vs);
    n := n + 1;
  }

  /** Some values and one more that may be missing. */
  function AndOne(vs: Option<seq<Value>>, v: Option<Value>): Option<seq<Value>> {
    if vs.None? || v.None? then None else Some(vs.value + [v.value])
  }

  /** An instruction that carries its last argument, behind the others. */
  lemma {:induction false} FinishWithLeaf(p: Program, st: State, length: nat, vs: Option<seq<Value>>, n: nat,
                                          bc: Bytecode, leaf: Expr)
    requires Obeys(p) && From(p, st, n) == Pushed(st, length, vs) && IsLeaf(leaf) && Carries(p.cx.notation, bc, leaf)
    requires Applies(bc, bc.args)
    requires vs.Some? ==> |vs.value| + 1 == bc.args && st.pc + length < |p.code| && p.code[st.pc + length] == bc
    ensures From(p, st, n + 1) ==
            Pushed(st, length + 1, One(Applied(p.cx, bc, AndOne(vs, Eval(p.cx, DataAt(p, st), leaf)))))
  {
    LeafImmediate(p.cx, DataAt(p, st), leaf, bc);
    if vs.Some? {
      FetchWithImmediate(p.cx, DataAt(p, st), bc, st.stack, vs.value, leaf);
    }
    FinishApply(p, st, length, vs, n, bc, AndOne(vs, Eval(p.cx, DataAt(p, st), leaf)));
  }

  /** Arguments, then an instruction that carries the last of them itself. */
  lemma {:induction false} RunWithLeaf(p: Program, st: State, args: seq<Expr>, bc: Bytecode) returns (n: nat)
    requires SafeArgs(p.cx.notation, args, |args|) && args != [] && IsLeaf(args[|args| - 1])
    requires Applies(bc, |args|) && Carries(p.cx.notation, bc, args[|args| - 1])
    requires Obeys(p) && Holds(p.code, st.pc, CodeArgs(p.cx.notation, args, |args| - 1) + [bc])
    ensures From(p, st, n) == Pushed(st, |CodeArgs(p.cx.notation, args, |args| - 1)| + 1,
                                     One(Applied(p.cx, bc, EvalArgs(p.cx, DataAt(p, st), args, |args|))))
    decreases args, 1, 0
  {
    var k := |args| - 1;
    var front := CodeArgs(p.cx.notation, args, k);
    HoldsSplit(p.code, st.pc, front, [bc]);
    HoldsOne(p.code, st.pc + |front|, bc);
    n := RunArgs(p, st, args, k);
    FinishWithLeaf(p, st, |front|, EvalArgs(p.cx, DataAt(p, st), args, k), n, bc, args[k]);
    n := n + 1;
  }

  function FunctionInstr(notation: Notation, f: Function, args: seq<Expr>): Bytecode
    requires args != []
  {
    if IsLeaf(args[|args| - 1]) then
      PushOf(notation, args[|args| - 1]).(op := Fn(f), args := Arg30(|args|))
    else
      Instr(Fn(f), |args|)
  }

  /** The code that comes before a function's instruction. */
  function FrontCode(notation: Notation, args: seq<Expr>): seq<Bytecode>
    requires args != []
  {
    CodeArgs(notation, args, if IsLeaf(args[|args| - 1]) then |args| - 1 else |args|)
  }

  lemma {:induction false} CodeOfApply(notation: Notation, f: Function, args: seq<Expr>)
    requires f != DefaultFn && args != []
    ensures Code(notation, Expr.Apply(f, args)) == FrontCode(notation, args) + [FunctionInstr(notation, f, args)]
  {
    LastArgument(notation, args);
  }

  lemma {:induction false} ApplyMeaning(cx: Context, data: Value, f: Function, args: seq<Expr>, bc: Bytecode)
    requires f != DefaultFn && |args| == Arity(f) && bc.op == Fn(f) && bc.args == |args|
    ensures Eval(cx, data, Expr.Apply(f, args)) == Applied(cx, bc, EvalArgs(cx, data, args, |args|))
  {
  }

  /** The last argument of a function sits where its instruction says. */
  lemma {:induction false} RunTail(p: Program, st: State, f: Function, args: seq<Expr>, bc: Bytecode) returns (n: nat)
    requires args != [] && SafeArgs(p.cx.notation, args, |args|) && Applies(bc, |args|) && bc.op == Fn(f)
    requires bc == FunctionInstr(p.cx.notation, f, args)
    requires Obeys(p) && Holds(p.code, st.pc, FrontCode(p.cx.notation, args) + [bc])
    ensures From(p, st, n) == Pushed(st, |FrontCode(p.cx.notation, args)| + 1,
                                     One(Applied(p.cx, bc, EvalArgs(p.cx, DataAt(p, st), args, |args|))))
    decreases args, 2, 0
  {
    if IsLeaf(args[|args| - 1]) {
      n := RunWithLeaf(p, st, args, bc);
    } else {
      n := RunFromStack(p, st, args, bc);
    }
  }

  lemma {:induction false} RunApply(p: Program, st: State, f: Function, args: seq<Expr>) returns (n: nat)
    requires f != DefaultFn && Safe(p.cx.notation, Expr.Apply(f, args))
    requires Obeys(p) && Holds(p.code, st.pc, Code(p.cx.notation, Expr.Apply(f, args)))
    ensures From(p, st, n) == Pushed(st, |Code(p.cx.notation, Expr.Apply(f, args))|,
                                     One(Eval(p.cx, DataAt(p, st), Expr.Apply(f, args))))
    decreases args, 3, 0
  {
    var bc := FunctionInstr(p.cx.notation, f, args);
    CodeOfApply(p.cx.notation, f, args);
    ApplyMeaning(p.cx, DataAt(p, st), f, args, bc);
    n := RunTail(p, st, f, args, bc);
  }

  lemma {:induction false} RunCall(p: Program, st: State, name: string, args: seq<Expr>) returns (n: nat)
    requires Safe(p.cx.notation, Call(name, args))
    requires Obeys(p) && Holds(p.code, st.pc, Code(p.cx.notation, Call(name, args)))
    ensures From(p, st, n) == Pushed(st, |Code(p.cx.notation, Call(name, args))|,
                                     One(Eval(p.cx, DataAt(p, st), Call(name, args))))
    decreases args, 2, 0
  {
    var bc := CallInstr(p.cx.notation, name, args);
    CodeOfCall(p.cx.notation, name, args);
    if args != [] && args[|args| - 1].Lit? {
      n := RunWithLeaf(p, st, args, bc);
    } else {
      n := RunFromStack(p, st, args, bc);
    }
  }

  function CallInstr(notation: Notation, name: string, args: seq<Expr>): Bytecode {
    if args != [] && args[|args| - 1].Lit? then
      PushOf(notation, args[|args| - 1]).(op := Callback, args := Arg30(|args|), str := name)
    else
      Instr(Callback, |args|).(str := name)
  }

  lemma {:induction false} CodeOfCall(notation: Notation, name: string, args: seq<Expr>)
    ensures Code(notation, Call(name, args)) ==
            (if args != [] && args[|args| - 1].Lit? then CodeArgs(notation, args, |args| - 1)
             else CodeArgs(notation, args, |args|)) + [CallInstr(notation, name, args)]
  {
    if args != [] {
      LastArgument(notation, args);
    }
  }

  lemma {:induction false} RunDefault(p: Program, st: State, args: seq<Expr>) returns (n: nat)
    requires Safe(p.cx.notation, Expr.Apply(DefaultFn, args))
    requires Obeys(p) && Holds(p.code, st.pc, Code(p.cx.notation, Expr.Apply(DefaultFn, args)))
    ensures From(p, st, n) ==
            Pushed(st, |Code(p.cx.notation, Expr.Apply(DefaultFn, args))|,
                   One(Eval(p.cx, DataAt(p, st), Expr.Apply(DefaultFn, args))))
    decreases args, 2, 0
  {
    var data := DataAt(p, st);
    var c := Code(p.cx.notation, args[1]);
    var bc := PushOf(p.cx.notation, args[0]).(op := Fn(DefaultFn), args := 2);
    HoldsSplit(p.code, st.pc, c, [bc]);
    HoldsOne(p.code, st.pc + |c|, bc);
    n := RunExpr(p, st, args[1]);
    LeafImmediate(p.cx, data, args[0], bc);
    FinishDefault(p, st, |c|, Eval(p.cx, data, args[1]), n, bc);
    n := n + 1;
  }

  // ----- statements -----

  /** st after statements that end at address `pc`; or failure. */
  function Wrote(st: State, pc: nat, out: Option<string>): Status {
    match out
    case None => Failed
    case Some(text) => At(st.(pc := pc, out := st.out + text))
  }

  function Then(a: Option<string>, b: Option<string>): Option<string> {
    match a
    case None => None
    case Some(x) => (match b case None => None case Some(y) => Some(x + y))
  }

  lemma {:induction false} WroteTwice(st: State, pc: nat, text: string, end: nat, rest: Option<string>)
    ensures Wrote(Wrote(st, pc, Some(text)).st, end, rest) == Wrote(st, end, Then(Some(text), rest))
  {
    if rest.Some? {
      assert st.out + text + rest.value == st.out + (text + rest.value);
    }
  }

  lemma {:induction false} WriteMore(p: Program, st: State, pc: nat, text: string, n: nat, end: nat,
                                     rest: Option<string>, m: nat)
    requires From(p, st, n) == Wrote(st, pc, Some(text))
    requires From(p, Wrote(st, pc, Some(text)).st, m) == Wrote(Wrote(st, pc, Some(text)).st, end, rest)
    ensures From(p, st, n + m) == Wrote(st, end, Then(Some(text), rest))
  {
    RunOn(p, st, n, Wrote(st, pc, Some(text)).st, m);
    WroteTwice(st, pc, text, end, rest);
  }

  // Each of these is one statement-level instruction, seen from outside.

  lemma {:induction false} TextStep(p: Program, st: State, text: string)
    requires Obeys(p) && st.pc < |p.code| && p.code[st.pc] == TextInstr(text)
    ensures From(p, st, 1) == Wrote(st, st.pc + 1, Some(text))
  {
    assert Here(st);
  }

  lemma {:induction false} JumpStep(p: Program, st: State, end: nat)
    requires Obeys(p) && st.pc < |p.code| && p.code[st.pc] == Instr(Jump, end) && end < ARGS_LIMIT
    ensures From(p, st, 1) == At(st.(pc := end))
  {
    assert Here(st);
  }

  function Branch(st: State, yes: nat, no: nat, v: Option<Value>): Status {
    if v.None? || Truthy(v.value).None? then Failed
    else At(st.(pc := if Truthy(v.value).value then yes else no))
  }

  lemma {:induction false} FinishCondition(p: Program, st: State, length: nat, v: Option<Value>, n: nat, target: nat)
    requires Obeys(p) && From(p, st, n) == Pushed(st, length, One(v)) && target < ARGS_LIMIT
    requires st.pc + length < |p.code| && p.code[st.pc + length] == Instr(ConditionalJump, target)
    ensures From(p, st, n + 1) == Branch(st, st.pc + length + 1, target, v)
  {
    RunThenOne(p, st, length, One(v), n);
    if v.Some? {
      OneCondition(p, Pushed(st, length, One(v)).st);
      assert (st.stack + [v.value])[..|st.stack|] == st.stack;
    }
  }

  lemma {:induction false} FinishPrint(p: Program, st: State, length: nat, vs: Option<seq<Value>>, n: nat,
                                       bc: Bytecode, v: Option<Value>)
    requires Obeys(p) && From(p, st, n) == Pushed(st, length, vs) && bc.op == PrintValue
    requires vs.None? ==> v.None?
    requires vs.Some? ==>
               && st.pc + length < |p.code| && p.code[st.pc + length] == bc && Popped(bc) == |vs.value|
               && Fetch(p.cx.env, DataAt(p, st), st.stack + vs.value, bc)
                  == (if v.Some? then Got([v.value]) else Thrown)
    ensures From(p, st, n + 1) ==
            Wrote(st, st.pc + length + 1, if v.None? then None else Printed(p.cx.env, v.value))
  {
    RunThenOne(p, st, length, vs, n);
    if vs.Some? {
      OnePrint(p, Pushed(st, length, vs).st);
      assert (st.stack + vs.value)[..|st.stack|] + [] == st.stack;
    }
  }

  lemma {:induction false} FinishStart(p: Program, st: State, length: nat, v: Option<Value>, n: nat, vars: LoopVars,
                                       last: nat)
    requires Obeys(p) && From(p, st, n) == Pushed(st, length, One(v))
    requires st.pc + length < |p.code| && p.code[st.pc + length] == StartInstr(vars).(args := last)
    ensures From(p, st, n + 1) ==
            if v.None? then Failed
            else EnterLoop(vars, DataAt(p, st), v.value, last + 1, st.(pc := st.pc + length))
  {
    RunThenOne(p, st, length, One(v), n);
    if v.Some? {
      OneStart(p, Pushed(st, length, One(v)).st);
      assert (st.stack + [v.value])[..|st.stack|] == st.stack;
      assert LoopVarsOf(StartInstr(vars).(args := last)) == vars;
    }
  }

  /** The state at the head of a loop's body, at one iteration. */
  function InLoop(st: State, start: nat, vars: LoopVars, scope: Value, items: seq<(string, Value)>, index: nat): State {
    st.(pc := start, loops := st.loops + [Level(vars, scope, items, index)])
  }

  predicate Iteration(k: nat) {
    true
  }

  /** Each scope, updated for the next item, is the next scope. */
  ghost predicate Follow(scopes: seq<Option<Value>>, vars: LoopVars, items: seq<(string, Value)>) {
    |scopes| == |items| &&
    forall k: nat {:trigger Iteration(k)} :: Iteration(k) && k + 1 < |items| && scopes[k].Some? ==>
      Bind(vars, scopes[k].value, items, k + 1) == scopes[k + 1]
  }

  /** Where the end of iteration k leads. */
  function AfterBody(st: State, pc: nat, start: nat, vars: LoopVars, scopes: seq<Option<Value>>,
                     items: seq<(string, Value)>, k: nat): Status
    requires k < |scopes|
  {
    if k + 1 == |scopes| then At(st.(pc := pc + 1))
    else match scopes[k + 1]
      case None => Failed
      case Some(scope) => At(InLoop(st, start, vars, scope, items, k + 1))
  }

  lemma {:induction false} EndStep(p: Program, st: State, pc: nat, start: nat, vars: LoopVars,
                                   scopes: seq<Option<Value>>, items: seq<(string, Value)>, k: nat)
    requires Obeys(p) && pc < |p.code| && p.code[pc] == Instr(EndLoop, start) && start < ARGS_LIMIT
    requires Follow(scopes, vars, items) && k < |items| && scopes[k].Some?
    ensures From(p, InLoop(st, pc, vars, scopes[k].value, items, k), 1) ==
            AfterBody(st, pc, start, vars, scopes, items, k)
  {
    var here := InLoop(st, pc, vars, scopes[k].value, items, k);
    OneEnd(p, here);
    assert here.loops[..|here.loops| - 1] == st.loops;
    assert Iteration(k);
  }

  // ----- statements, one kind at a time -----

  lemma {:induction false} RunValue(p: Program, st: State, e: Expr) returns (n: nat)
    requires Obeys(p) && Safe(p.cx.notation, e) && Holds(p.code, st.pc, p.kit.code(e))
    ensures From(p, st, n) == Pushed(st, |p.kit.code(e)|, One(Eval(p.cx, DataAt(p, st), e)))
  {
    assert Used(e);
    n := RunExpr(p, st, e);
  }

  lemma {:induction false} RunCondition(p: Program, st: State, e: Expr, target: nat) returns (n: nat)
    requires Obeys(p) && Safe(p.cx.notation, e) && target < ARGS_LIMIT
    requires Holds(p.code, st.pc, p.kit.code(e) + [Instr(ConditionalJump, target)])
    ensures From(p, st, n) == Branch(st, st.pc + |p.kit.code(e)| + 1, target, Eval(p.cx, DataAt(p, st), e))
  {
    var c := p.kit.code(e);
    HoldsSplit(p.code, st.pc, c, [Instr(ConditionalJump, target)]);
    HoldsOne(p.code, st.pc + |c|, Instr(ConditionalJump, target));
    n := RunValue(p, st, e);
    FinishCondition(p, st, |c|, Eval(p.cx, DataAt(p, st), e), n, target);
    n := n + 1;
  }

  lemma {:induction false} RunPrint(p: Program, st: State, e: Expr) returns (n: nat)
    requires Obeys(p) && Safe(p.cx.notation, e) && Holds(p.code, st.pc, p.kit.show(e))
    ensures From(p, st, n) == Wrote(st, st.pc + |p.kit.show(e)|, ExecStmt(p.cx, DataAt(p, st), Print(e)))
  {
    assert Used(e);
    if IsLeaf(e) {
      n := RunPrintLeaf(p, st, e);
    } else {
      n := RunPrintStack(p, st, e);
    }
  }

  lemma {:induction false} RunPrintLeaf(p: Program, st: State, e: Expr) returns (n: nat)
    requires Obeys(p) && IsLeaf(e) && Holds(p.code, st.pc, PrintCode(p.cx.notation, e))
    ensures From(p, st, n) == Wrote(st, st.pc + |PrintCode(p.cx.notation, e)|,
                                    ExecStmt(p.cx, DataAt(p, st), Print(e)))
  {
    var bc := PushOf(p.cx.notation, e).(op := PrintValue, args := 1);
    assert PrintCode(p.cx.notation, e) == [bc];
    HoldsOne(p.code, st.pc, bc);
    FetchWithImmediate(p.cx, DataAt(p, st), bc, st.stack, [], e);
    assert st.stack + [] == st.stack;
    FinishPrint(p, st, 0, Some([]), 0, bc, Eval(p.cx, DataAt(p, st), e));
    n := 1;
  }

  lemma {:induction false} RunPrintStack(p: Program, st: State, e: Expr) returns (n: nat)
    requires Obeys(p) && Safe(p.cx.notation, e) && !IsLeaf(e)
    requires Holds(p.code, st.pc, PrintCode(p.cx.notation, e))
    ensures From(p, st, n) == Wrote(st, st.pc + |PrintCode(p.cx.notation, e)|,
                                    ExecStmt(p.cx, DataAt(p, st), Print(e)))
  {
    var c, bc, v := Code(p.cx.notation, e), Instr(PrintValue, 1), Eval(p.cx, DataAt(p, st), e);
    LastIsPush(p.cx.notation, e);
    HoldsSplit(p.code, st.pc, c, [bc]);
    HoldsOne(p.code, st.pc + |c|, bc);
    n := RunExpr(p, st, e);
    if v.Some? {
      FetchFromStack(p.cx, DataAt(p, st), bc, st.stack, [v.value]);
    }
    FinishPrint(p, st, |c|, One(v), n, bc, v);
    n := n + 1;
  }

  lemma {:induction false} RunBlock(p: Program, st: State, b: seq<Stmt>, i: nat) returns (n: nat)
    requires i <= |b| && Obeys(p) && |p.code| < ARGS_LIMIT && SafeBlock(p.cx.notation, b, i)
    requires Holds(p.code, st.pc, Layout(p.kit, b, i, st.pc))
    requires Fits(|st.loops|, b, i)
    ensures From(p, st, n) == Wrote(st, st.pc + Size(p.kit, b, i), Exec(p.cx, DataAt(p, st), b, i))
    decreases b, 0, |b| - i
  {
    if i == |b| {
      assert st.out + "" == st.out;
      n := 0;
    } else {
      var pc := st.pc + SizeStmt(p.kit, b[i]);
      HoldsSplit(p.code, st.pc, LayoutStmt(p.kit, b[i], st.pc), Layout(p.kit, b, i + 1, pc));
      n := RunStmt(p, st, b[i]);
      var first := ExecStmt(p.cx, DataAt(p, st), b[i]);
      if first.Some? {
        var m := RunBlock(p, Wrote(st, pc, first).st, b, i + 1);
        WriteMore(p, st, pc, first.value, n, pc + Size(p.kit, b, i + 1),
                  Exec(p.cx, DataAt(p, st), b, i + 1), m);
        n := n + m;
      }
    }
  }

  lemma {:induction false} RunStmt(p: Program, st: State, s: Stmt) returns (n: nat)
    requires Obeys(p) && |p.code| < ARGS_LIMIT && SafeStmt(p.cx.notation, s)
    requires Holds(p.code, st.pc, LayoutStmt(p.kit, s, st.pc))
    requires FitsStmt(|st.loops|, s)
    ensures From(p, st, n) == Wrote(st, st.pc + SizeStmt(p.kit, s), ExecStmt(p.cx, DataAt(p, st), s))
    decreases s, 0, 0
  {
    match s
    case Text(text) =>
      HoldsOne(p.code, st.pc, TextInstr(text));
      TextStep(p, st, text);
      n := 1;
    case Comment(_) =>
      assert st.out + "" == st.out;
      n := 0;
    case Print(e) =>
      n := RunPrint(p, st, e);
    case If(_, br) =>
      n := RunBranches(p, st, br, st.pc + SizeStmt(p.kit, s));
    case For(_, vars, e, body, _) =>
      ForParts(p.code, p.kit, s, st.pc);
      n := RunFor(p, st, vars, e, body, st.pc + |p.kit.code(e)| + 1);
  }

  /** The parts of a branch's code, each at its address. */
  lemma {:induction false} BranchParts(code: seq<Bytecode>, kit: Kit, br: Branches, pc: nat, end: nat)
    requires Holds(code, pc, LayoutBranches(kit, br, pc, end))
    ensures var start := pc + |kit.code(br.cond)| + 1;
            var rest := start + Size(kit, br.thn, 0);
            && Holds(code, pc, kit.code(br.cond) + [Instr(ConditionalJump, ElseTarget(br.els, rest))])
            && Holds(code, start, Layout(kit, br.thn, 0, start))
            && Holds(code, rest, LayoutElse(kit, br.els, rest, end))
            && rest + SizeElse(kit, br.els) <= |code|
  {
    var start := pc + |kit.code(br.cond)| + 1;
    var rest := start + Size(kit, br.thn, 0);
    HoldsParts(code, pc, kit.code(br.cond), [Instr(ConditionalJump, ElseTarget(br.els, rest))],
               Layout(kit, br.thn, 0, start), LayoutElse(kit, br.els, rest, end));
  }

  lemma {:induction false} RunBranches(p: Program, st: State, br: Branches, end: nat) returns (n: nat)
    requires Obeys(p) && |p.code| < ARGS_LIMIT && SafeBranches(p.cx.notation, br)
    requires FitsBranches(|st.loops|, br)
    requires Holds(p.code, st.pc, LayoutBranches(p.kit, br, st.pc, end))
    requires end == st.pc + SizeBranches(p.kit, br)
    ensures From(p, st, n) == Wrote(st, end, ExecBranches(p.cx, DataAt(p, st), br))
    decreases br, 1, 0
  {
    var start := st.pc + |p.kit.code(br.cond)| + 1;
    var rest := start + Size(p.kit, br.thn, 0);
    BranchParts(p.code, p.kit, br, st.pc, end);
    n := RunCondition(p, st, br.cond, ElseTarget(br.els, rest));
    var v := Eval(p.cx, DataAt(p, st), br.cond);
    if v.Some? && Truthy(v.value).Some? {
      var yes := Truthy(v.value).value;
      var mid := st.(pc := if yes then start else ElseTarget(br.els, rest));
      var m := RunChosen(p, mid, br, start, rest, end, yes);
      RunOn(p, st, n, mid, m);
      n := n + m;
    }
  }

  /** The branch a condition leads to. */
  lemma {:induction false} RunChosen(p: Program, st: State, br: Branches, start: nat, rest: nat, end: nat, yes: bool)
    returns (n: nat)
    requires Obeys(p) && |p.code| < ARGS_LIMIT && SafeBranches(p.cx.notation, br)
    requires FitsBranches(|st.loops|, br)
    requires rest == start + Size(p.kit, br.thn, 0) && end == rest + SizeElse(p.kit, br.els)
    requires Holds(p.code, start, Layout(p.kit, br.thn, 0, start))
    requires Holds(p.code, rest, LayoutElse(p.kit, br.els, rest, end))
    requires st.pc == if yes then start else ElseTarget(br.els, rest)
    ensures From(p, st, n) ==
            Wrote(st, end, if yes then Exec(p.cx, DataAt(p, st), br.thn, 0) else ExecElse(p.cx, DataAt(p, st), br.els))
    decreases br, 0, 0
  {
    if yes {
      n := RunThen(p, st, br, rest, end);
    } else {
      n := RunElse(p, st, br.els, rest, end);
    }
  }

  /** A branch that is taken, and the jump over the rest of its chain. */
  lemma {:induction false} RunThen(p: Program, st: State, br: Branches, rest: nat, end: nat) returns (n: nat)
    requires Obeys(p) && |p.code| < ARGS_LIMIT && SafeBlock(p.cx.notation, br.thn, 0)
    requires Fits(|st.loops|, br.thn, 0)
    requires Holds(p.code, st.pc, Layout(p.kit, br.thn, 0, st.pc))
    requires rest == st.pc + Size(p.kit, br.thn, 0) && end == rest + SizeElse(p.kit, br.els)
    requires Holds(p.code, rest, LayoutElse(p.kit, br.els, rest, end))
    ensures From(p, st, n) == Wrote(st, end, Exec(p.cx, DataAt(p, st), br.thn, 0))
    decreases br.thn, 1, 0
  {
    n := RunBlock(p, st, br.thn, 0);
    var text := Exec(p.cx, DataAt(p, st), br.thn, 0);
    if text.Some? && !br.els.EndIf? {
      var code := LayoutElse(p.kit, br.els, rest, end);
      HoldsFits(p.code, rest, code);
      assert code == [Instr(Jump, end)] + code[1..];
      HoldsSplit(p.code, rest, [Instr(Jump, end)], code[1..]);
      HoldsOne(p.code, rest, Instr(Jump, end));
      var last := Wrote(st, rest, text).st;
      JumpStep(p, last, end);
      RunOn(p, st, n, last, 1);
      n := n + 1;
    }
  }

  lemma {:induction false} RunElse(p: Program, st: State, els: Else, base: nat, end: nat) returns (n: nat)
    requires Obeys(p) && |p.code| < ARGS_LIMIT && SafeElse(p.cx.notation, els)
    requires FitsElse(|st.loops|, els)
    requires st.pc == ElseTarget(els, base) && end == base + SizeElse(p.kit, els)
    requires Holds(p.code, base, LayoutElse(p.kit, els, base, end))
    ensures From(p, st, n) == Wrote(st, end, ExecElse(p.cx, DataAt(p, st), els))
    decreases els, 0, 0
  {
    match els
    case EndIf(_) =>
      assert st.out + "" == st.out;
      n := 0;
    case ElseDo(_, b, _) =>
      HoldsSplit(p.code, base, [Instr(Jump, end)], Layout(p.kit, b, 0, base + 1));
      n := RunBlock(p, st, b, 0);
    case ElseIf(_, br) =>
      HoldsSplit(p.code, base, [Instr(Jump, end)], LayoutBranches(p.kit, br, base + 1, end));
      n := RunBranches(p, st, br, end);
  }

  // ----- loops -----

  lemma {:induction false} LoopRecordTwice(record: Value, i: nat, j: nat, size: nat)
    requires LoopRecord(record, i, size).Some?
    ensures LoopRecord(LoopRecord(record, i, size).value, j, size) == LoopRecord(record, j, size)
  {
    var f := if record.Obj? then record.fields else map[];
    assert (f + LoopMarks(i, size)) + LoopMarks(j, size) == f + LoopMarks(j, size);
    assert map[] + LoopMarks(i, size) == LoopMarks(i, size);
    assert map[] + LoopMarks(j, size) == LoopMarks(j, size);
  }

  lemma {:induction false} BindTwice(vars: LoopVars, base: Value, items: seq<(string, Value)>, i: nat, j: nat)
    requires i < |items| && j < |items|
    requires Bind(vars, base, items, i).Some?
    ensures Bind(vars, Bind(vars, base, items, i).value, items, j) == Bind(vars, base, items, j)
  {
    var f := if base.Obj? then base.fields else map[];
    match vars
    case PairVars(key, value) =>
      assert f[key := Str(items[i].0)][value := items[i].1][key := Str(items[j].0)][value := items[j].1]
          == f[key := Str(items[j].0)][value := items[j].1];
    case ItemVar(value) =>
      var fi, fj := f[value := items[i].1], f[value := items[j].1];
      assert SetField(base, value, items[i].1) == Some(Obj(fi));
      var ri := LoopRecord(FieldOrNull(Obj(fi), "loop"), i, |items|);
      var after := fi["loop" := ri.value];
      assert Bind(vars, base, items, i) == Some(Obj(after));
      if value == "loop" {
        assert after[value := items[j].1] == fj;
      } else {
        assert after[value := items[j].1] == fj["loop" := ri.value];
        LoopRecordTwice(FieldOrNull(Obj(fi), "loop"), i, j, |items|);
        assert FieldOrNull(Obj(fi), "loop") == FieldOrNull(Obj(fj), "loop");
      }
      var rj := LoopRecord(FieldOrNull(Obj(fj), "loop"), j, |items|);
      if rj.Some? {
        assert fj["loop" := ri.value]["loop" := rj.value] == fj["loop" := rj.value];
      }
  }

  /** Updating the scope of one iteration for the next gives the scope a fresh start would. */
  lemma {:induction false} ScopesFollow(vars: LoopVars, data: Value, items: seq<(string, Value)>)
    ensures Follow(Scopes(vars, data, items), vars, items)
  {
    var scopes := Scopes(vars, data, items);
    forall k: nat | k + 1 < |items| && scopes[k].Some?
      ensures Bind(vars, scopes[k].value, items, k + 1) == scopes[k + 1]
    {
      assert scopes[k] == Opened(vars, data, items, k);
      BindTwice(vars, WithParent(data).value, items, k, k + 1);
    }
  }

  lemma {:induction false} RunBody(p: Program, st: State, start: nat, vars: LoopVars, scopes: seq<Option<Value>>,
                                   items: seq<(string, Value)>, k: nat, body: seq<Stmt>)
    returns (n: nat)
    requires Obeys(p) && |p.code| < ARGS_LIMIT && SafeBlock(p.cx.notation, body, 0)
    requires Follow(scopes, vars, items) && k < |items| && scopes[k].Some?
    requires |st.loops| < RESERVED_LOOPS && Fits(|st.loops| + 1, body, 0)
    requires Holds(p.code, start, Layout(p.kit, body, 0, start) + [Instr(EndLoop, start)])
    ensures From(p, InLoop(st, start, vars, scopes[k].value, items, k), n) ==
            match Exec(p.cx, scopes[k].value, body, 0)
            case None => Failed
            case Some(text) =>
              AfterBody(st.(out := st.out + text), start + Size(p.kit, body, 0), start, vars, scopes, items, k)
    decreases body, 1, 0
  {
    var head := InLoop(st, start, vars, scopes[k].value, items, k);
    var last := start + Size(p.kit, body, 0);
    HoldsSplit(p.code, start, Layout(p.kit, body, 0, start), [Instr(EndLoop, start)]);
    HoldsOne(p.code, last, Instr(EndLoop, start));
    n := RunBlock(p, head, body, 0);
    var text := Exec(p.cx, scopes[k].value, body, 0);
    if text.Some? {
      EndStep(p, st.(out := st.out + text.value), last, start, vars, scopes, items, k);
      RunOn(p, head, n, Wrote(head, last, text).st, 1);
      n := n + 1;
    }
  }

  /** From the head of the body on: the remaining iterations, then the state outside the loop. */
  lemma {:induction false} RunEach(p: Program, st: State, start: nat, vars: LoopVars, scopes: seq<Option<Value>>,
                                   items: seq<(string, Value)>, k: nat, body: seq<Stmt>)
    returns (n: nat)
    requires Obeys(p) && |p.code| < ARGS_LIMIT && SafeBlock(p.cx.notation, body, 0)
    requires Follow(scopes, vars, items) && k < |items| && scopes[k].Some?
    requires |st.loops| < RESERVED_LOOPS && Fits(|st.loops| + 1, body, 0)
    requires Holds(p.code, start, Layout(p.kit, body, 0, start) + [Instr(EndLoop, start)])
    ensures From(p, InLoop(st, start, vars, scopes[k].value, items, k), n) ==
            Wrote(st, start + Size(p.kit, body, 0) + 1, ExecEach(p.cx, scopes, k, body))
    decreases body, 1, |items| - k
  {
    var head, end := InLoop(st, start, vars, scopes[k].value, items, k), start + Size(p.kit, body, 0) + 1;
    n := RunBody(p, st, start, vars, scopes, items, k, body);
    var text := Exec(p.cx, scopes[k].value, body, 0);
    if text.Some? {
      WroteTwice(st, st.pc, text.value, end, ExecEach(p.cx, scopes, k + 1, body));
      if k + 1 < |items| && scopes[k + 1].Some? {
        var st' := st.(out := st.out + text.value);
        var m := RunEach(p, st', start, vars, scopes, items, k + 1, body);
        RunOn(p, head, n, InLoop(st', start, vars, scopes[k + 1].value, items, k + 1), m);
        n := n + m;
      }
    }
  }

  /** A loop from the instruction that starts it, its value already known; `st0` is where the
      run began. */
  lemma {:induction false} RunEntered(p: Program, st: State, vars: LoopVars, v: Value, body: seq<Stmt>,
                                      st0: State, n0: nat)
    returns (n: nat)
    requires Obeys(p) && |p.code| < ARGS_LIMIT && SafeBlock(p.cx.notation, body, 0)
    requires |st.loops| < RESERVED_LOOPS && Fits(|st.loops| + 1, body, 0)
    requires Holds(p.code, st.pc + 1, Layout(p.kit, body, 0, st.pc + 1) + [Instr(EndLoop, st.pc + 1)])
    requires From(p, st0, n0) ==
             EnterLoop(vars, DataAt(p, st), v, st.pc + 1 + Size(p.kit, body, 0) + 1, st)
    ensures From(p, st0, n) ==
            Wrote(st, st.pc + 1 + Size(p.kit, body, 0) + 1, ExecLoop(p.cx, DataAt(p, st), vars, v, body))
    decreases body, 2, 0
  {
    n := n0;
    var items := Items(vars, v);
    if IsEmpty(v) {
      assert st.out + "" == st.out;
    } else if items.Some? {
      NonEmptyHasItems(vars, v);
      ScopesFollow(vars, DataAt(p, st), items.value);
      var scopes := Scopes(vars, DataAt(p, st), items.value);
      assert scopes[0] == Opened(vars, DataAt(p, st), items.value, 0);
      if scopes[0].Some? {
        var m := RunEach(p, st, st.pc + 1, vars, scopes, items.value, 0, body);
        RunOn(p, st0, n0, InLoop(st, st.pc + 1, vars, scopes[0].value, items.value, 0), m);
        n := n0 + m;
      }
    }
  }

  /** The parts of a for-loop's code, each at its address. */
  lemma {:induction false} ForParts(code: seq<Bytecode>, kit: Kit, s: Stmt, pc: nat)
    requires s.For? && |code| < ARGS_LIMIT && Holds(code, pc, LayoutStmt(kit, s, pc))
    ensures var c := kit.code(s.e);
            var start := pc + |c| + 1;
            && Holds(code, pc, c)
            && pc + |c| < |code|
            && code[pc + |c|] == StartInstr(s.vars).(args := start + Size(kit, s.body, 0))
            && Holds(code, start, Layout(kit, s.body, 0, start) + [Instr(EndLoop, start)])
  {
    var c := kit.code(s.e);
    var start := pc + |c| + 1;
    var bc := StartInstr(s.vars).(args := start + Size(kit, s.body, 0));
    var loopCode := Layout(kit, s.body, 0, start) + [Instr(EndLoop, start)];
    HoldsFits(code, pc, LayoutStmt(kit, s, pc));
    assert LayoutStmt(kit, s, pc) == (c + [bc]) + loopCode;
    HoldsSplit(code, pc, c + [bc], loopCode);
    HoldsSplit(code, pc, c, [bc]);
    HoldsOne(code, pc + |c|, bc);
  }

  lemma {:induction false} RunFor(p: Program, st: State, vars: LoopVars, e: Expr, body: seq<Stmt>, start: nat)
    returns (n: nat)
    requires Obeys(p) && |p.code| < ARGS_LIMIT && Safe(p.cx.notation, e) && SafeBlock(p.cx.notation, body, 0)
    requires |st.loops| < RESERVED_LOOPS && Fits(|st.loops| + 1, body, 0)
    requires start == st.pc + |p.kit.code(e)| + 1 && start - 1 < |p.code|
    requires Holds(p.code, st.pc, p.kit.code(e))
    requires p.code[start - 1] == StartInstr(vars).(args := start + Size(p.kit, body, 0))
    requires Holds(p.code, start, Layout(p.kit, body, 0, start) + [Instr(EndLoop, start)])
    ensures var v := Eval(p.cx, DataAt(p, st), e);
            From(p, st, n) ==
            Wrote(st, start + Size(p.kit, body, 0) + 1,
                  if v.None? then None else ExecLoop(p.cx, DataAt(p, st), vars, v.value, body))
    decreases body, 3, 0
  {
    var k, v := |p.kit.code(e)|, Eval(p.cx, DataAt(p, st), e);
    n := RunValue(p, st, e);
    FinishStart(p, st, k, v, n, vars, start + Size(p.kit, body, 0));
    n := n + 1;
    if v.Some? {
      n := RunEntered(p, st.(pc := st.pc + k), vars, v.value, body, st, n);
    }
  }

  // ----- whole templates -----

  function TemplateProgram(cx: Context, b: seq<Stmt>): Program {
    var code := TemplateCode(cx.notation, b);
    Program(Stepper(code, cx.env, cx.root), code, cx, Expressions(cx.notation))
  }

  lemma {:induction false} TemplateProgramObeys(cx: Context, b: seq<Stmt>)
    ensures Obeys(TemplateProgram(cx, b))
  {
  }

  /** How rendering a tree's code must end: output and all stacks empty, or an exception. */
  function Finished(out: Option<string>, size: nat): Status {
    match out
    case None => Failed
    case Some(text) => At(State(size, [], [], text))
  }

  lemma {:induction false} FinishedIsFinal(code: seq<Bytecode>, cx: Context, out: Option<string>, n: nat)
    requires Rendering(code, cx.env, cx.root, n) == Wrote(START, |code|, out)
    ensures EndsWith(code, cx.env, cx.root, Finished(out, |code|))
  {
    if out.Some? {
      assert START.out + out.value == out.value;
    }
  }

  /** Compiler correctness: rendering a tree's code halts, with the interpreter's output, all
      stacks empty and the program counter at the end, or by throwing exactly when the
      interpreter throws. It is never undefined. */
  lemma {:induction false} CompiledTemplateRuns(cx: Context, b: seq<Stmt>)
    requires SafeBlock(cx.notation, b, 0) && Fits(0, b, 0)
    requires |TemplateCode(cx.notation, b)| < ARGS_LIMIT
    ensures var code := TemplateCode(cx.notation, b);
            EndsWith(code, cx.env, cx.root, Finished(Exec(cx, cx.root, b, 0), |code|))
  {
    var p := TemplateProgram(cx, b);
    TemplateProgramObeys(cx, b);
    var n := RunBlock(p, START, b, 0);
    FinishedIsFinal(p.code, cx, Exec(cx, cx.root, b, 0), n);
  }
}
