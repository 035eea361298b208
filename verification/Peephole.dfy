/** Merging a push into the instruction behind it, against code that pushes everything. */
module Peephole {
  import opened Options
  import opened Json
  import opened Bytecodes
  import opened Machine
  import opened Syntax
  import opened Compiler
  import opened Correctness

  // ----- one merge -----

  /** The instruction a push and what follows it are merged into. */
  function Merged(push: Bytecode, bc: Bytecode): Bytecode {
    if bc.op == Callback then push.(op := bc.op, args := bc.args, str := bc.str)
    else push.(op := bc.op, args := bc.args)
  }

  /** What append_function and append_callback merge: any push into a function or a print, a
      literal only into a callback. */
  predicate Mergeable(push: Bytecode, bc: Bytecode) {
    && push.op == Push && push.flags != Pop && bc.flags == Pop
    && (bc.op == PrintValue || (bc.op.Fn? && bc.op.f != DefaultFn) || (bc.op == Callback && push.flags == Immediate))
  }

  /** The parser's appends do merge so. */
  lemma {:induction false} AppendsMerge(code: seq<Bytecode>, push: Bytecode, f: Function, name: string, n: nat)
    requires push.op == Push
    ensures AppendFunction(code + [push], Fn(f), n) == code + [Merged(push, Instr(Fn(f), n))]
    ensures AppendFunction(code + [push], PrintValue, n) == code + [Merged(push, Instr(PrintValue, n))]
    ensures AppendCallback(code + [push], name, n) ==
            if push.flags == Immediate then code + [Merged(push, Instr(Callback, n).(str := name))]
            else code + [push, Instr(Callback, n).(str := name)]
  {
    var all := code + [push];
    assert all[..|all| - 1] == code;
  }

  /** The push, then the instruction. */
  function PushThen(env: Env, root: Value, push: Bytecode, bc: Bytecode, st: State): Status {
    match Step(env, root, push, st)
    case At(mid) => Step(env, root, bc, mid)
    case Failed => Failed
    case Undefined => Undefined
  }

  /** The same status, one instruction further. */
  function Later(s: Status): Status {
    match s
    case At(st) => At(st.(pc := st.pc + 1))
    case Failed => Failed
    case Undefined => Undefined
  }

  lemma {:induction false} FetchMerged(env: Env, data: Value, stack: seq<Value>, push: Bytecode, bc: Bytecode, v: Value)
    requires Mergeable(push, bc) && 1 <= bc.args <= |stack| + 1
    requires ImmediateValue(env, data, push) == Some(v)
    ensures Fetch(env, data, stack, Merged(push, bc)) == Fetch(env, data, stack + [v], bc)
    ensures Fetch(env, data, stack, Merged(push, bc)).Got?
    ensures (stack + [v])[..|stack| + 1 - bc.args] == stack[..|stack| - (bc.args - 1)]
  {
    var n := bc.args - 1;
    assert (stack + [v])[|stack| + 1 - bc.args..] == stack[|stack| - n..] + [v];
  }

  lemma {:induction false} MergePrint(env: Env, data: Value, push: Bytecode, bc: Bytecode, st: State, v: Value)
    requires Mergeable(push, bc) && 1 <= bc.args <= |st.stack| + 1 && ImmediateValue(env, data, push) == Some(v)
    ensures StepPrint(env, data, bc, st.(pc := st.pc + 1, stack := st.stack + [v]))
            == Later(StepPrint(env, data, Merged(push, bc), st))
  {
    FetchMerged(env, data, st.stack, push, bc, v);
  }

  lemma {:induction false} MergeFunction(env: Env, root: Value, data: Value, push: Bytecode, bc: Bytecode,
                                         st: State, v: Value)
    requires Mergeable(push, bc) && 1 <= bc.args <= |st.stack| + 1 && ImmediateValue(env, data, push) == Some(v)
    requires bc.op.Fn?
    ensures StepFunction(env, root, data, bc, st.(pc := st.pc + 1, stack := st.stack + [v]))
            == Later(StepFunction(env, root, data, Merged(push, bc), st))
  {
    FetchMerged(env, data, st.stack, push, bc, v);
  }

  lemma {:induction false} MergeCallback(env: Env, data: Value, push: Bytecode, bc: Bytecode, st: State, v: Value)
    requires Mergeable(push, bc) && 1 <= bc.args <= |st.stack| + 1 && ImmediateValue(env, data, push) == Some(v)
    requires bc.op == Callback
    ensures StepCallback(env, data, bc, st.(pc := st.pc + 1, stack := st.stack + [v]))
            == Later(StepCallback(env, data, Merged(push, bc), st))
  {
    FetchMerged(env, data, st.stack, push, bc, v);
  }

  /** A merged instruction whose immediate cannot be read fails like the push. */
  lemma {:induction false} MergeFails(env: Env, root: Value, push: Bytecode, bc: Bytecode, st: State)
    requires Mergeable(push, bc) && 1 <= bc.args <= |st.stack| + 1
    requires ImmediateValue(env, Current(root, st.loops), push).None?
    ensures Step(env, root, push, st) == Failed == Step(env, root, Merged(push, bc), st)
  {
    var data := Current(root, st.loops);
    assert Fetch(env, data, st.stack, Merged(push, bc)) == Thrown;
  }

  /** With at least one argument, and those below it on the stack, the merged instruction does
      what the two did: the same result, failure included. */
  lemma {:induction false} MergeIsExact(env: Env, root: Value, push: Bytecode, bc: Bytecode, st: State)
    requires Mergeable(push, bc) && 1 <= bc.args <= |st.stack| + 1
    ensures PushThen(env, root, push, bc, st) == Later(Step(env, root, Merged(push, bc), st))
  {
    var data := Current(root, st.loops);
    var v := ImmediateValue(env, data, push);
    if v.None? {
      MergeFails(env, root, push, bc, st);
    } else {
      PushStep(env, root, push, st, v.value);
      if bc.op == PrintValue {
        MergePrint(env, data, push, bc, st, v.value);
      } else if bc.op.Fn? {
        MergeFunction(env, root, data, push, bc, st, v.value);
      } else {
        MergeCallback(env, data, push, bc, st, v.value);
      }
    }
  }

  lemma {:induction false} PushStep(env: Env, root: Value, push: Bytecode, st: State, v: Value)
    requires push.op == Push && push.flags != Pop && ImmediateValue(env, Current(root, st.loops), push) == Some(v)
    ensures Step(env, root, push, st) == At(st.(pc := st.pc + 1, stack := st.stack + [v]))
  {
    assert st.stack[..|st.stack|] == st.stack;
  }

  /** Without an argument the merge is wrong: it turns a call that works into an instruction that
      takes one argument too many. */
  lemma {:induction false} NullaryMergeIsUndefined(env: Env, root: Value, push: Bytecode, bc: Bytecode, st: State)
    requires Mergeable(push, bc) && bc.op == Callback && bc.args == 0 && env.hasCallback(bc.str, 0)
    ensures Step(env, root, Merged(push, bc), st) == Undefined
    ensures env.callback(bc.str, []).Some? ==> PushThen(env, root, push, bc, st).At?
  {
    PushStep(env, root, push, st, push.value);
    var stack := st.stack + [push.value];
    assert stack[|stack|..] == [];
  }

  // ----- whole expressions -----

  /** What an expression must satisfy without any merging. */
  predicate Formed(e: Expr)
    decreases e
  {
    match e
    case Apply(f, args) =>
      && |args| == Arity(f) && (forall i | 0 <= i < |args| :: Formed(args[i]))
      && (f == DefaultFn ==> IsLeaf(args[0]))
    case Call(_, args) => |args| < ARGS_LIMIT && forall i | 0 <= i < |args| :: Formed(args[i])
    case _ => true
  }

  /** Code that pushes every argument. Only default keeps its first argument in the immediate:
      that argument must not be evaluated before the instruction is there to catch its failure. */
  function Plain(notation: Notation, e: Expr): seq<Bytecode>
    decreases e, 1, 0, notation
  {
    match e
    case Lit(_, v) => [PushLiteral(v)]
    case Lookup(name) => [PushLookup(notation, name)]
    case Apply(f, args) =>
      if f == DefaultFn && |args| == 2 && IsLeaf(args[0]) then
        DefaultCode(PushOf(notation, args[0]), Plain(notation, args[1]))
      else
        PlainArgs(notation, args, |args|) + [Instr(Fn(f), |args|)]
    case Call(name, args) => PlainArgs(notation, args, |args|) + [Instr(Callback, |args|).(str := name)]
  }

  function PlainArgs(notation: Notation, args: seq<Expr>, n: nat): seq<Bytecode>
    requires n <= |args|
    decreases args, 0, n, notation
  {
    if n == 0 then [] else PlainArgs(notation, args, n - 1) + Plain(notation, args[n - 1])
  }

  lemma {:induction false} RunPlain(p: Program, st: State, e: Expr) returns (n: nat)
    requires Formed(e) && Obeys(p) && Holds(p.code, st.pc, Plain(p.cx.notation, e))
    ensures From(p, st, n) == Pushed(st, |Plain(p.cx.notation, e)|, One(Eval(p.cx, DataAt(p, st), e)))
    decreases e, 1, 0
  {
    match e
    case Lit(_, v) =>
      HoldsOne(p.code, st.pc, PushLiteral(v));
      OnePush(p, st);
      n := 1;
    case Lookup(name) =>
      HoldsOne(p.code, st.pc, PushLookup(p.cx.notation, name));
      OnePush(p, st);
      n := 1;
    case Apply(f, args) =>
      if f == DefaultFn {
        n := RunPlainDefault(p, st, args);
      } else {
        var bc := Instr(Fn(f), |args|);
        n := RunPlainAll(p, st, args, bc);
        ApplyMeaning(p.cx, DataAt(p, st), f, args, bc);
      }
    case Call(name, args) =>
      n := RunPlainAll(p, st, args, Instr(Callback, |args|).(str := name));
  }

  lemma {:induction false} RunPlainArgs(p: Program, st: State, args: seq<Expr>, k: nat) returns (n: nat)
    requires k <= |args| && (forall i | 0 <= i < |args| :: Formed(args[i]))
    requires Obeys(p) && Holds(p.code, st.pc, PlainArgs(p.cx.notation, args, k))
    ensures From(p, st, n) ==
            Pushed(st, |PlainArgs(p.cx.notation, args, k)|, EvalArgs(p.cx, DataAt(p, st), args, k))
    decreases args, 0, k
  {
    if k == 0 {
      assert st.stack + [] == st.stack;
      n := 0;
    } else {
      var front, last := PlainArgs(p.cx.notation, args, k - 1), Plain(p.cx.notation, args[k - 1]);
      HoldsSplit(p.code, st.pc, front, last);
      n := RunPlainArgs(p, st, args, k - 1);
      var vs := EvalArgs(p.cx, DataAt(p, st), args, k - 1);
      if vs.Some? {
        var m := RunPlain(p, Pushed(st, |front|, vs).st, args[k - 1]);
        PushMore(p, st, |front|, |last|, vs.value, Eval(p.cx, DataAt(p, st), args[k - 1]), n, m);
        n := n + m;
      }
    }
  }

  lemma {:induction false} RunPlainAll(p: Program, st: State, args: seq<Expr>, bc: Bytecode) returns (n: nat)
    requires (forall i | 0 <= i < |args| :: Formed(args[i])) && Applies(bc, |args|) && bc.flags == Pop
    requires Obeys(p) && Holds(p.code, st.pc, PlainArgs(p.cx.notation, args, |args|) + [bc])
    ensures From(p, st, n) == Pushed(st, |PlainArgs(p.cx.notation, args, |args|)| + 1,
                                     One(Applied(p.cx, bc, EvalArgs(p.cx, DataAt(p, st), args, |args|))))
    decreases args, 1, 0
  {
    var all, vs := PlainArgs(p.cx.notation, args, |args|), EvalArgs(p.cx, DataAt(p, st), args, |args|);
    HoldsSplit(p.code, st.pc, all, [bc]);
    HoldsOne(p.code, st.pc + |all|, bc);
    n := RunPlainArgs(p, st, args, |args|);
    if vs.Some? {
      FetchFromStack(p.cx, DataAt(p, st), bc, st.stack, vs.value);
    }
    FinishApply(p, st, |all|, vs, n, bc, vs);
    n := n + 1;
  }

  lemma {:induction false} RunPlainDefault(p: Program, st: State, args: seq<Expr>) returns (n: nat)
    requires |args| == 2 && Formed(args[1]) && IsLeaf(args[0])
    requires Obeys(p) && Holds(p.code, st.pc, Plain(p.cx.notation, Expr.Apply(DefaultFn, args)))
    ensures From(p, st, n) == Pushed(st, |Plain(p.cx.notation, Expr.Apply(DefaultFn, args))|,
                                     One(Eval(p.cx, DataAt(p, st), Expr.Apply(DefaultFn, args))))
    decreases args, 1, 0
  {
    var bc := PushOf(p.cx.notation, args[0]).(op := Fn(DefaultFn), args := 2);
    var c, data := Plain(p.cx.notation, args[1]), DataAt(p, st);
    HoldsSplit(p.code, st.pc, c, [bc]);
    HoldsOne(p.code, st.pc + |c|, bc);
    n := RunPlain(p, st, args[1]);
    LeafImmediate(p.cx, data, args[0], bc);
    FinishDefault(p, st, |c|, Eval(p.cx, data, args[1]), n, bc);
    n := n + 1;
  }

  lemma {:induction false} SafeIsFormed(notation: Notation, e: Expr)
    requires Safe(notation, e)
    ensures Formed(e)
    decreases e
  {
    match e
    case Lit(_, _) =>
    case Lookup(_) =>
    case Apply(f, args) => SafeArgsAreFormed(notation, args, |args|);
    case Call(_, args) => SafeArgsAreFormed(notation, args, |args|);
  }

  lemma {:induction false} SafeArgsAreFormed(notation: Notation, args: seq<Expr>, n: nat)
    requires n <= |args| && SafeArgs(notation, args, n)
    ensures forall i | 0 <= i < n :: Formed(args[i])
    decreases args, n
  {
    if n > 0 {
      SafeArgsAreFormed(notation, args, n - 1);
      SafeIsFormed(notation, args[n - 1]);
    }
  }

  /** What an expression's code leaves behind, wherever it ends. */
  predicate Yields(s: Status, st: State, v: Option<Value>) {
    match v
    case None => s == Failed
    case Some(x) => s.At? && s.st == st.(pc := s.st.pc, stack := st.stack + [x])
  }

  /** The peephole preserves meaning: merged code and push-everything code, each in a program of
      its own, take a state to the same value or fail together. */
  lemma {:induction false} MergingPreservesMeaning(p: Program, q: Program, st: State, e: Expr)
    returns (n: nat, m: nat)
    requires Safe(p.cx.notation, e) && p.cx == q.cx && Obeys(p) && Obeys(q)
    requires Holds(p.code, st.pc, Code(p.cx.notation, e)) && Holds(q.code, st.pc, Plain(q.cx.notation, e))
    ensures Yields(From(p, st, n), st, Eval(p.cx, DataAt(p, st), e))
    ensures Yields(From(q, st, m), st, Eval(p.cx, DataAt(p, st), e))
  {
    SafeIsFormed(p.cx.notation, e);
    n := RunExpr(p, st, e);
    m := RunPlain(q, st, e);
  }
}
