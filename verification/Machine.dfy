/** What one bytecode does to the renderer's state, and what a run of them does. */
module Machine {
  import opened Options
  import opened Json
  import opened Bytecodes
  import opened Pointers

  /** The foreign code the renderer calls. None is an exception. */
  datatype Env = Env(
    lookup: (Value, string) -> Option<Value>,        // data.at(json_pointer)
    hasCallback: (string, nat) -> bool,
    callback: (string, seq<Value>) -> Option<Value>,
    builtin: (Builtin, seq<Value>) -> Option<Value>,
    dump: Value -> Option<string>)

  /** One open loop: its variables, the scope its body sees, what it iterates over and where it is. */
  datatype Level = Level(vars: LoopVars, scope: Value, items: seq<(string, Value)>, index: nat)

  datatype State = State(pc: nat, stack: seq<Value>, loops: seq<Level>, out: string)

  /** A run is somewhere, has thrown, or has done something the C++ standard leaves undefined:
      popped an empty stack, indexed past the arguments, read a null immediate or a moved scope. */
  datatype Status = At(st: State) | Failed | Undefined

  /** m_loop_stack is reserved for this many levels; one more moves the scopes m_data points into. */
  const RESERVED_LOOPS: nat := 16

  // ----- data -----

  /** *m_data: the innermost open loop's scope, or the data the template is rendered with. */
  function Current(root: Value, loops: seq<Level>): Value {
    if loops == [] then root else loops[|loops| - 1].scope
  }

  /** Renderer::get_imm for a lookup: the data, else a callback without arguments. */
  function Resolve(env: Env, data: Value, notation: Notation, name: string): Option<Value> {
    var pointer := if notation == LookupDot then DotToPointer(name) else "/" + name;
    match env.lookup(data, pointer)
    case Some(v) => Some(v)
    case None => if env.hasCallback(name, 0) then env.callback(name, []) else None
  }

  /** Renderer::get_imm. */
  function ImmediateValue(env: Env, data: Value, bc: Bytecode): Option<Value>
    requires bc.flags != Pop
  {
    if bc.flags == Immediate then Some(bc.value) else Resolve(env, data, bc.flags, bc.str)
  }

  /** Renderer::get_args. */
  datatype Fetched = Got(args: seq<Value>) | Thrown | Missing

  function Popped(bc: Bytecode): int {
    if bc.flags == Pop then bc.args else bc.args - 1
  }

  function Fetch(env: Env, data: Value, stack: seq<Value>, bc: Bytecode): Fetched {
    var n := Popped(bc);
    if n < 0 || n > |stack| then Missing
    else
      var top := stack[|stack| - n..];
      if bc.flags == Pop then Got(top)
      else match ImmediateValue(env, data, bc)
        case None => Thrown
        case Some(v) => Got(top + [v])
  }

  /** The value of a function other than default on its arguments. */
  function Apply(env: Env, root: Value, f: Function, args: seq<Value>): Option<Value>
    requires |args| >= Arity(f) && f != DefaultFn
  {
    match f
    case NotFn => var a :- Truthy(args[0]); Some(Bool(!a))
    case AndFn =>
      var a :- Truthy(args[0]);
      if !a then Some(Bool(false)) else var b :- Truthy(args[1]); Some(Bool(b))
    case OrFn =>
      var a :- Truthy(args[0]);
      if a then Some(Bool(true)) else var b :- Truthy(args[1]); Some(Bool(b))
    case ExistsFn =>
      if args[0].Str? then Some(Bool(root.Obj? && args[0].s in root.fields)) else None
    case Pure(b) => env.builtin(b, args)
  }

  function Printed(env: Env, v: Value): Option<string> {
    if v.Str? then Some(v.s) else env.dump(v)
  }

  // ----- loops -----

  /** What a loop iterates over, in order; None when the value has the wrong type. */
  function Items(vars: LoopVars, v: Value): Option<seq<(string, Value)>> {
    match vars
    case ItemVar(_) =>
      if v.Arr? then Some(seq(|v.elems|, i requires 0 <= i < |v.elems| => ("", v.elems[i]))) else None
    case PairVars(_, _) =>
      if v.Obj? then Some(Entries(v.fields)) else None
  }

  lemma {:induction false} NonEmptyHasItems(vars: LoopVars, v: Value)
    requires !IsEmpty(v) && Items(vars, v).Some?
    ensures Items(vars, v).value != []
  {
    if v.Obj? {
      assert v.fields.Keys != {};
    }
  }

  /** StartLoop gives an enclosing loop's record a copy of itself as "parent". */
  function WithParent(data: Value): Option<Value> {
    if data.Obj? && "loop" in data.fields then
      var outer := data.fields["loop"];
      var inner :- SetField(outer, "parent", outer);
      SetField(data, "loop", inner)
    else
      Some(data)
  }

  /** What the four assignments loopData["index"], ... leave in a record. */
  function LoopMarks(index: nat, size: nat): map<string, Value> {
    map["index" := Int(index), "index1" := Int(index + 1),
        "is_first" := Bool(index == 0), "is_last" := Bool(index == size - 1)]
  }

  function LoopRecord(record: Value, index: nat, size: nat): Option<Value> {
    match record
    case Null => Some(Obj(LoopMarks(index, size)))
    case Obj(fields) => Some(Obj(fields + LoopMarks(index, size)))
    case _ => None
  }

  /** Renderer::update_loop_data on the scope of one level. */
  function Bind(vars: LoopVars, scope: Value, items: seq<(string, Value)>, index: nat): Option<Value>
    requires index < |items|
  {
    match vars
    case ItemVar(value) =>
      var s :- SetField(scope, value, items[index].1);
      var record :- LoopRecord(FieldOrNull(s, "loop"), index, |items|);
      SetField(s, "loop", record)
    case PairVars(key, value) =>
      var s :- SetField(scope, key, Str(items[index].0));
      SetField(s, value, items[index].1)
  }

  // ----- one instruction -----

  function Advance(st: State, popped: nat, pushed: seq<Value>): Status
    requires popped <= |st.stack|
  {
    At(st.(pc := st.pc + 1, stack := st.stack[..|st.stack| - popped] + pushed))
  }

  function StepPrint(env: Env, data: Value, bc: Bytecode, st: State): Status {
    match Fetch(env, data, st.stack, bc)
    case Missing => Undefined
    case Thrown => Failed
    case Got(args) =>
      if args == [] then Undefined
      else match Printed(env, args[0])
        case None => Failed
        case Some(text) => Advance(st.(out := st.out + text), Popped(bc), [])
  }

  function StepFunction(env: Env, root: Value, data: Value, bc: Bytecode, st: State): Status
    requires bc.op.Fn? && bc.op.f != DefaultFn
  {
    match Fetch(env, data, st.stack, bc)
    case Missing => Undefined
    case Thrown => Failed
    case Got(args) =>
      if |args| < Arity(bc.op.f) then Undefined
      else match Apply(env, root, bc.op.f, args)
        case None => Failed
        case Some(v) => Advance(st, Popped(bc), [v])
  }

  /** The first argument of default() is in the immediate, the second on the stack. */
  function StepDefault(env: Env, data: Value, bc: Bytecode, st: State): Status {
    if bc.flags == Pop then Undefined
    else match ImmediateValue(env, data, bc)
      case None => Advance(st, 0, [])
      case Some(v) => if st.stack == [] then Undefined else Advance(st, 1, [v])
  }

  function StepCallback(env: Env, data: Value, bc: Bytecode, st: State): Status {
    if !env.hasCallback(bc.str, bc.args) then Failed
    else match Fetch(env, data, st.stack, bc)
      case Missing => Undefined
      case Thrown => Failed
      case Got(args) =>
        match env.callback(bc.str, args)
        case None => Failed
        case Some(v) => Advance(st, Popped(bc), [v])
  }

  function StepCond(bc: Bytecode, st: State): Status {
    if st.stack == [] then Undefined
    else
      var rest := st.stack[..|st.stack| - 1];
      match Truthy(st.stack[|st.stack| - 1])
      case None => Failed
      case Some(b) => At(st.(pc := if b then st.pc + 1 else bc.args, stack := rest))
  }

  function StepStart(root: Value, bc: Bytecode, st: State): Status {
    if st.stack == [] then Undefined
    else
      EnterLoop(LoopVarsOf(bc), Current(root, st.loops), st.stack[|st.stack| - 1], bc.args + 1,
                st.(stack := st.stack[..|st.stack| - 1]))
  }

  /** A loop over v, once v is off the stack: skipped, refused, or entered with its first scope. */
  function EnterLoop(vars: LoopVars, data: Value, v: Value, skip: nat, st: State): Status {
    if IsEmpty(v) then At(st.(pc := skip))
    else if |st.loops| >= RESERVED_LOOPS then Undefined
    else match Items(vars, v)
      case None => Failed
      case Some(items) =>
        NonEmptyHasItems(vars, v);
        match Opened(vars, data, items, 0)
        case None => Failed
        case Some(scope) =>
          At(st.(pc := st.pc + 1, loops := st.loops + [Level(vars, scope, items, 0)]))
  }

  /** The scope a loop's body sees at one iteration, computed from the enclosing data. */
  function Opened(vars: LoopVars, data: Value, items: seq<(string, Value)>, index: nat): Option<Value>
    requires index < |items|
  {
    var base :- WithParent(data);
    Bind(vars, base, items, index)
  }

  function StepEnd(bc: Bytecode, st: State): Status {
    if st.loops == [] then Failed
    else
      var level := st.loops[|st.loops| - 1];
      var outer := st.loops[..|st.loops| - 1];
      if level.index + 1 >= |level.items| then At(st.(pc := st.pc + 1, loops := outer))
      else match Bind(level.vars, level.scope, level.items, level.index + 1)
        case None => Failed
        case Some(scope) =>
          At(st.(pc := bc.args, loops := outer + [level.(scope := scope, index := level.index + 1)]))
  }

  function Step(env: Env, root: Value, bc: Bytecode, st: State): Status {
    var data := Current(root, st.loops);
    match bc.op
    case PrintText => At(st.(pc := st.pc + 1, out := st.out + bc.str))
    case PrintValue => StepPrint(env, data, bc, st)
    case Push =>
      if bc.flags == Pop then Undefined
      else (match ImmediateValue(env, data, bc)
        case None => Failed
        case Some(v) => Advance(st, 0, [v]))
    case Fn(f) =>
      if f == DefaultFn then StepDefault(env, data, bc, st) else StepFunction(env, root, data, bc, st)
    case Callback => StepCallback(env, data, bc, st)
    case Jump => At(st.(pc := bc.args))
    case ConditionalJump => StepCond(bc, st)
    case StartLoop => StepStart(root, bc, st)
    case EndLoop => StepEnd(bc, st)
  }

  // ----- runs -----

  /** The renderer's loop body: fetch the instruction at pc and carry it out. */
  function Stepper(code: seq<Bytecode>, env: Env, root: Value): State -> Status {
    (st: State) => if st.pc < |code| then Step(env, root, code[st.pc], st) else At(st)
  }

  // Proofs about runs keep `next` abstract and ask about one named state at a time.

  predicate Ticked(st: State) {
    true
  }

  /** next carries out the instruction at pc. */
  ghost predicate Ticks(next: State -> Status, code: seq<Bytecode>, env: Env, data: Value) {
    forall st: State {:trigger Ticked(st)} :: Ticked(st) && st.pc < |code| ==>
      next(st) == Step(env, data, code[st.pc], st)
  }

  /** At most n steps, stopping at the end of code of the given size. */
  function Run(next: State -> Status, size: nat, st: State, n: nat): Status
    decreases n
  {
    if n == 0 || st.pc >= size then At(st)
    else match next(st)
      case At(after) => Run(next, size, after, n - 1)
      case Failed => Failed
      case Undefined => Undefined
  }

  predicate IsFinal(size: nat, s: Status) {
    s.At? ==> s.st.pc >= size
  }

  const START: State := State(0, [], [], "")

  function Rendering(code: seq<Bytecode>, env: Env, root: Value, n: nat): Status {
    Run(Stepper(code, env, root), |code|, START, n)
  }

  /** What rendering ends with, whatever the number of steps it takes. */
  ghost predicate EndsWith(code: seq<Bytecode>, env: Env, root: Value, s: Status) {
    IsFinal(|code|, s) && exists n: nat :: Rendering(code, env, root, n) == s
  }

  ghost predicate Halts(code: seq<Bytecode>, env: Env, root: Value) {
    exists n: nat :: IsFinal(|code|, Rendering(code, env, root, n))
  }

  lemma {:induction false} RunSplit(next: State -> Status, size: nat, st: State, n: nat, m: nat)
    ensures Run(next, size, st, n + m) ==
              match Run(next, size, st, n)
              case At(mid) => Run(next, size, mid, m)
              case Failed => Failed
              case Undefined => Undefined
    decreases n
  {
    if n > 0 && st.pc < size {
      match next(st)
      case At(after) => RunSplit(next, size, after, n - 1, m);
      case Failed =>
      case Undefined =>
    }
  }

  lemma {:induction false} FinalIsStable(next: State -> Status, size: nat, st: State, n: nat, m: nat)
    requires n <= m && IsFinal(size, Run(next, size, st, n))
    ensures Run(next, size, st, m) == Run(next, size, st, n)
  {
    RunSplit(next, size, st, n, m - n);
  }

  /** A template, its callbacks and its data determine how rendering ends. */
  lemma {:induction false} EndIsUnique(code: seq<Bytecode>, env: Env, root: Value, s: Status, t: Status)
    requires EndsWith(code, env, root, s) && EndsWith(code, env, root, t)
    ensures s == t
  {
    var n: nat :| Rendering(code, env, root, n) == s;
    var m: nat :| Rendering(code, env, root, m) == t;
    FinalIsStable(Stepper(code, env, root), |code|, START, if n <= m then n else m, if n <= m then m else n);
  }
}
