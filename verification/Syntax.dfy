/** Template trees and their meaning: a structural interpreter that knows nothing of bytecode,
    jumps, merged arguments or stacks. */
module Syntax {
  import opened Options
  import opened Json
  import opened Bytecodes
  import opened Tokens
  import opened Machine

  /** Lit carries the token it was written as; Apply is an operator or a built-in function. */
  datatype Expr =
    | Lit(tok: Shown, v: Value)
    | Lookup(name: string)
    | Apply(f: Function, args: seq<Expr>)
    | Call(name: string, args: seq<Expr>)

  /** A statement tag is written between block delimiters or on a line of its own. */
  datatype Delim = BlockTag | LineTag

  datatype Stmt =
    | Text(s: string)
    | Comment(s: string)
    | Print(e: Expr)
    | If(d: Delim, br: Branches)
    | For(d: Delim, vars: LoopVars, e: Expr, body: seq<Stmt>, dEnd: Delim)

  datatype Branches = Branches(cond: Expr, thn: seq<Stmt>, els: Else)

  datatype Else =
    | EndIf(d: Delim)
    | ElseDo(d: Delim, b: seq<Stmt>, dEnd: Delim)
    | ElseIf(d: Delim, br: Branches)

  /** What stays fixed while one template is rendered. */
  datatype Context = Context(env: Env, root: Value, notation: Notation)

  // ----- expressions -----

  /** None is an exception. Arguments are evaluated left to right, all of them, except that
      the first argument of default may fail. */
  function Eval(cx: Context, data: Value, e: Expr): Option<Value>
    decreases e, 1, 0, cx
  {
    match e
    case Lit(_, v) => Some(v)
    case Lookup(name) => Resolve(cx.env, data, cx.notation, name)
    case Apply(f, args) =>
      if f == DefaultFn then
        if |args| != 2 then None
        else
          var fallback :- Eval(cx, data, args[1]);
          match Eval(cx, data, args[0])
          case Some(v) => Some(v)
          case None => Some(fallback)
      else
        var vs :- EvalArgs(cx, data, args, |args|);
        if |vs| == Arity(f) then Machine.Apply(cx.env, cx.root, f, vs) else None
    case Call(name, args) =>
      var vs :- EvalArgs(cx, data, args, |args|);
      if cx.env.hasCallback(name, |args|) then cx.env.callback(name, vs) else None
  }

  /** The first n arguments. */
  function EvalArgs(cx: Context, data: Value, args: seq<Expr>, n: nat): (r: Option<seq<Value>>)
    requires n <= |args|
    ensures r.Some? ==> |r.value| == n
    decreases args, 0, n, cx
  {
    if n == 0 then Some([])
    else
      var vs :- EvalArgs(cx, data, args, n - 1);
      var v :- Eval(cx, data, args[n - 1]);
      Some(vs + [v])
  }

  // ----- statements -----

  /** The output of a list of statements from the i-th on, or None when rendering throws. */
  function Exec(cx: Context, data: Value, b: seq<Stmt>, i: nat): Option<string>
    requires i <= |b|
    decreases b, 0, |b| - i, cx
  {
    if i == |b| then Some("")
    else
      var first :- ExecStmt(cx, data, b[i]);
      var rest :- Exec(cx, data, b, i + 1);
      Some(first + rest)
  }

  function ExecStmt(cx: Context, data: Value, s: Stmt): Option<string>
    decreases s, 0, 0, cx
  {
    match s
    case Text(text) => Some(text)
    case Comment(_) => Some("")
    case Print(e) => var v :- Eval(cx, data, e); Printed(cx.env, v)
    case If(_, br) => ExecBranches(cx, data, br)
    case For(_, vars, e, body, _) =>
      var v :- Eval(cx, data, e);
      ExecLoop(cx, data, vars, v, body)
  }

  function ExecLoop(cx: Context, data: Value, vars: LoopVars, v: Value, body: seq<Stmt>): Option<string>
    decreases body, 2, 0, cx
  {
    if IsEmpty(v) then Some("")
    else
      var items :- Items(vars, v);
      ExecEach(cx, Scopes(vars, data, items), 0, body)
  }

  /** The scope of each iteration, made afresh from the data around the loop. */
  function Scopes(vars: LoopVars, data: Value, items: seq<(string, Value)>): seq<Option<Value>> {
    seq(|items|, i requires 0 <= i < |items| => Opened(vars, data, items, i))
  }

  /** The body once in each scope from the k-th on. */
  function ExecEach(cx: Context, scopes: seq<Option<Value>>, k: nat, body: seq<Stmt>): Option<string>
    requires k <= |scopes|
    decreases body, 1, |scopes| - k, cx
  {
    if k == |scopes| then Some("")
    else
      var scope :- scopes[k];
      var first :- Exec(cx, scope, body, 0);
      var rest :- ExecEach(cx, scopes, k + 1, body);
      Some(first + rest)
  }

  function ExecBranches(cx: Context, data: Value, br: Branches): Option<string>
    decreases br, 0, 0, cx
  {
    var v :- Eval(cx, data, br.cond);
    var b :- Truthy(v);
    if b then Exec(cx, data, br.thn, 0) else ExecElse(cx, data, br.els)
  }

  function ExecElse(cx: Context, data: Value, els: Else): Option<string>
    decreases els, 0, 0, cx
  {
    match els
    case EndIf(_) => Some("")
    case ElseDo(_, b, _) => Exec(cx, data, b, 0)
    case ElseIf(_, br) => ExecBranches(cx, data, br)
  }

  // ----- nesting -----

  /** Inside `depth` loops, no loop of the block goes beyond what the loop stack was reserved for. */
  predicate Fits(depth: nat, b: seq<Stmt>, i: nat)
    requires i <= |b|
    decreases b, |b| - i, depth
  {
    i == |b| || (FitsStmt(depth, b[i]) && Fits(depth, b, i + 1))
  }

  predicate FitsStmt(depth: nat, s: Stmt)
    decreases s, depth
  {
    match s
    case If(_, br) => FitsBranches(depth, br)
    case For(_, _, _, body, _) => depth < RESERVED_LOOPS && Fits(depth + 1, body, 0)
    case _ => true
  }

  predicate FitsBranches(depth: nat, br: Branches)
    decreases br, depth
  {
    Fits(depth, br.thn, 0) && FitsElse(depth, br.els)
  }

  predicate FitsElse(depth: nat, els: Else)
    decreases els, depth
  {
    match els
    case EndIf(_) => true
    case ElseDo(_, b, _) => Fits(depth, b, 0)
    case ElseIf(_, br) => FitsBranches(depth, br)
  }
}
