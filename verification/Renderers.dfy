/** The renderer: an operand stack, a loop stack and a pointer to the current data, all updated in
    place by one instruction after another. */
module Renderers {
  import opened Options
  import opened Json
  import opened Bytecodes
  import opened Machine
  import opened Pointers

  /** How an instruction, or a whole rendering, comes back. */
  datatype Came = Onward | Threw | Undef

  class Renderer {
    const env: Env
    var stack: seq<Value>
    var loopStack: seq<Level>
    /** What m_data points to: the scope of this loop level, counted from 1, or the data itself. */
    var dataLevel: nat
    var out: string
    /** The loop counter of render_to; a jump leaves it one before its target. */
    var pc: int

    ghost predicate Valid()
      reads this
    {
      dataLevel == |loopStack| && pc >= 0
    }

    ghost function Snapshot(): State
      reads this
      requires Valid()
    {
      State(pc, stack, loopStack, out)
    }

    /** The state an instruction leaves, once the loop has counted on. */
    ghost function Reached(c: Came): Status
      reads this
      requires c == Onward ==> pc >= -1
    {
      match c
      case Onward => At(State(pc + 1, stack, loopStack, out))
      case Threw => Failed
      case Undef => Undefined
    }

    ghost predicate After(c: Came, s: Status)
      reads this
    {
      (c == Onward ==> pc >= -1 && dataLevel == |loopStack|) && Reached(c) == s
    }

    constructor (env: Env)
      ensures this.env == env
    {
      this.env := env;
      stack, loopStack, dataLevel, out, pc := [], [], 0, "", 0;
    }

    function Data(data: Value): (d: Value)
      reads this
      requires dataLevel <= |loopStack|
      ensures dataLevel == |loopStack| ==> d == Current(data, loopStack)
    {
      if dataLevel == 0 then data else loopStack[dataLevel - 1].scope
    }

    // ----- operands -----

    method GetImm(bc: Bytecode, data: Value) returns (v: Option<Value>)
      requires dataLevel <= |loopStack| && bc.flags != Pop
      ensures v == ImmediateValue(env, Data(data), bc)
    {
      if bc.flags == Immediate {
        return Some(bc.value);
      }
      var pointer := "/" + bc.str;
      if bc.flags == LookupDot {
        pointer := ConvertDotToJsonPointer(bc.str);
      }
      v := env.lookup(Data(data), pointer);
      if v.None? {
        v := if env.hasCallback(bc.str, 0) then env.callback(bc.str, []) else None;
      }
    }

    method GetArgs(bc: Bytecode, data: Value) returns (r: Fetched)
      requires dataLevel <= |loopStack|
      ensures r == Fetch(env, Data(data), stack, bc)
      ensures r.Got? ==> 0 <= Popped(bc) <= |stack|
    {
      var popArgs: int := bc.args;
      if bc.flags != Pop {
        popArgs := popArgs - 1;
      }
      if popArgs < 0 || popArgs > |stack| {
        return Missing;
      }
      var args := stack[|stack| - popArgs..];
      if bc.flags != Pop {
        var imm := GetImm(bc, data);
        if imm.None? {
          return Thrown;
        }
        args := args + [imm.value];
      }
      r := Got(args);
    }

    method PopArgs(bc: Bytecode)
      requires 0 <= Popped(bc) <= |stack|
      modifies this`stack
      ensures stack == old(stack)[..|old(stack)| - Popped(bc)]
    {
      for i := 0 to Popped(bc)
        invariant |stack| == |old(stack)| - i && stack == old(stack)[..|old(stack)| - i]
      {
        stack := stack[..|stack| - 1];
      }
    }

    /** The arguments off the stack and a result onto it. */
    method Replace(bc: Bytecode, v: Value)
      requires 0 <= Popped(bc) <= |stack|
      modifies this`stack
      ensures stack == old(stack)[..|old(stack)| - Popped(bc)] + [v]
    {
      PopArgs(bc);
      stack := stack + [v];
    }

    // ----- instructions -----

    method DoPrint(bc: Bytecode, data: Value) returns (c: Came)
      requires Valid()
      modifies this`stack, this`out
      ensures After(c, StepPrint(env, Current(data, loopStack), bc, old(Snapshot())))
    {
      var r := GetArgs(bc, data);
      if !r.Got? {
        return if r == Missing then Undef else Threw;
      }
      if r.args == [] {
        return Undef;
      }
      var text := Printed(env, r.args[0]);
      if text.None? {
        return Threw;
      }
      out := out + text.value;
      PopArgs(bc);
      c := Onward;
    }

    method DoPush(bc: Bytecode, data: Value) returns (c: Came)
      requires Valid() && bc.op == Push
      modifies this`stack
      ensures After(c, Step(env, data, bc, old(Snapshot())))
    {
      if bc.flags == Pop {
        return Undef;
      }
      var v := GetImm(bc, data);
      if v.None? {
        return Threw;
      }
      stack := stack + [v.value];
      c := Onward;
    }

    method DoFunction(bc: Bytecode, data: Value) returns (c: Came)
      requires Valid() && bc.op.Fn? && bc.op.f != DefaultFn
      modifies this`stack
      ensures After(c, StepFunction(env, data, Current(data, loopStack), bc, old(Snapshot())))
    {
      var r := GetArgs(bc, data);
      if !r.Got? {
        return if r == Missing then Undef else Threw;
      }
      if |r.args| < Arity(bc.op.f) {
        return Undef;
      }
      var v := Machine.Apply(env, data, bc.op.f, r.args);
      if v.None? {
        return Threw;
      }
      Replace(bc, v.value);
      c := Onward;
    }

    method DoDefault(bc: Bytecode, data: Value) returns (c: Came)
      requires Valid()
      modifies this`stack
      ensures After(c, StepDefault(env, Current(data, loopStack), bc, old(Snapshot())))
    {
      if bc.flags == Pop {
        return Undef;
      }
      var imm := GetImm(bc, data);
      if imm.Some? {
        if stack == [] {
          return Undef;
        }
        stack := stack[..|stack| - 1] + [imm.value];
      }
      c := Onward;
    }

    method DoCallback(bc: Bytecode, data: Value) returns (c: Came)
      requires Valid()
      modifies this`stack
      ensures After(c, StepCallback(env, Current(data, loopStack), bc, old(Snapshot())))
    {
      if !env.hasCallback(bc.str, bc.args) {
        return Threw;
      }
      var r := GetArgs(bc, data);
      if !r.Got? {
        return if r == Missing then Undef else Threw;
      }
      var v := env.callback(bc.str, r.args);
      if v.None? {
        return Threw;
      }
      Replace(bc, v.value);
      c := Onward;
    }

    method DoCond(bc: Bytecode) returns (c: Came)
      requires Valid()
      modifies this`stack, this`pc
      ensures After(c, StepCond(bc, old(Snapshot())))
    {
      if stack == [] {
        return Undef;
      }
      var b := Truthy(stack[|stack| - 1]);
      if b.None? {
        return Threw;
      }
      if !b.value {
        pc := bc.args - 1;
      }
      stack := stack[..|stack| - 1];
      c := Onward;
    }

    /** update_loop_data on a scope: the item, or the key and the value, then the loop record. */
    method UpdateLoopData(vars: LoopVars, scope: Value, items: seq<(string, Value)>, index: nat)
      returns (r: Option<Value>)
      requires index < |items|
      ensures r == Bind(vars, scope, items, index)
    {
      match vars
      case ItemVar(value) =>
        r := SetField(scope, value, items[index].1);
        if r.Some? {
          var record := FillRecord(FieldOrNull(r.value, "loop"), index, |items|);
          r := if record.None? then None else SetField(r.value, "loop", record.value);
        }
      case PairVars(key, value) =>
        r := SetField(scope, key, Str(items[index].0));
        if r.Some? {
          r := SetField(r.value, value, items[index].1);
        }
    }

    /** The four assignments to the loop record, one after another. */
    method FillRecord(record: Value, index: nat, size: nat) returns (r: Option<Value>)
      ensures r == LoopRecord(record, index, size)
    {
      if !record.Null? && !record.Obj? {
        return None;
      }
      var fields: map<string, Value> := if record.Obj? then record.fields else map[];
      ghost var before := fields;
      fields := fields["index" := Int(index)];
      fields := fields["index1" := Int(index + 1)];
      fields := fields["is_first" := Bool(index == 0)];
      fields := fields["is_last" := Bool(index == size - 1)];
      assert fields == before + LoopMarks(index, size);
      assert map[] + LoopMarks(index, size) == LoopMarks(index, size);
      r := Some(Obj(fields));
    }

    method DoStart(bc: Bytecode, data: Value) returns (c: Came)
      requires Valid()
      modifies this`stack, this`loopStack, this`dataLevel, this`pc
      ensures After(c, StepStart(data, bc, old(Snapshot())))
    {
      if stack == [] {
        return Undef;
      }
      var v := stack[|stack| - 1];
      stack := stack[..|stack| - 1];
      if IsEmpty(v) {
        pc := bc.args;
        return Onward;
      }
      if |loopStack| >= RESERVED_LOOPS {
        return Undef;
      }
      c := DoEnter(LoopVarsOf(bc), data, v, bc.args + 1);
    }

    /** A new level on the loop stack, with the current data copied into it. */
    method DoEnter(vars: LoopVars, data: Value, v: Value, ghost skip: nat) returns (c: Came)
      requires Valid() && !IsEmpty(v) && |loopStack| < RESERVED_LOOPS
      modifies this`loopStack, this`dataLevel
      ensures After(c, EnterLoop(vars, old(Current(data, loopStack)), v, skip, old(Snapshot())))
    {
      var items := Items(vars, v);
      if items.None? {
        return Threw;
      }
      NonEmptyHasItems(vars, v);
      var base := WithParent(Data(data));
      if base.None? {
        return Threw;
      }
      var scope := UpdateLoopData(vars, base.value, items.value, 0);
      if scope.None? {
        return Threw;
      }
      loopStack := loopStack + [Level(vars, scope.value, items.value, 0)];
      dataLevel := |loopStack|;
      c := Onward;
    }

    method DoEnd(bc: Bytecode) returns (c: Came)
      requires Valid()
      modifies this`loopStack, this`dataLevel, this`pc
      ensures After(c, StepEnd(bc, old(Snapshot())))
    {
      if loopStack == [] {
        return Threw;
      }
      var level := loopStack[|loopStack| - 1];
      level := level.(index := level.index + 1);
      if level.index >= |level.items| {
        loopStack := loopStack[..|loopStack| - 1];
        dataLevel := |loopStack|;
        return Onward;
      }
      var scope := UpdateLoopData(level.vars, level.scope, level.items, level.index);
      if scope.None? {
        return Threw;
      }
      loopStack := loopStack[|loopStack| - 1 := level.(scope := scope.value)];
      pc := bc.args - 1;
      c := Onward;
    }

    /** The switch of render_to. */
    method Execute(bc: Bytecode, data: Value) returns (c: Came)
      requires Valid()
      modifies this
      ensures After(c, Step(env, data, bc, old(Snapshot())))
    {
      match bc.op
      case PrintText => out := out + bc.str; c := Onward;
      case PrintValue => c := DoPrint(bc, data);
      case Push => c := DoPush(bc, data);
      case Fn(f) => if f == DefaultFn { c := DoDefault(bc, data); } else { c := DoFunction(bc, data); }
      case Callback => c := DoCallback(bc, data);
      case Jump => pc := bc.args - 1; c := Onward;
      case ConditionalJump => c := DoCond(bc);
      case StartLoop => c := DoStart(bc, data);
      case EndLoop => c := DoEnd(bc);
    }

    /** One turn of render_to's loop, up to its count. */
    method Tick(code: seq<Bytecode>, data: Value, ghost next: State -> Status) returns (c: Came)
      requires Valid() && pc < |code| && Ticks(next, code, env, data)
      modifies this
      ensures After(c, next(old(Snapshot())))
    {
      assert Ticked(Snapshot());
      c := Execute(code[pc], data);
    }

    /** The loop of render_to; `left` bounds the turns it takes. */
    method Loop(code: seq<Bytecode>, data: Value, ghost next: State -> Status, ghost n: nat) returns (c: Came)
      requires Valid() && Ticks(next, code, env, data) && IsFinal(|code|, Run(next, |code|, Snapshot(), n))
      modifies this
      ensures (c == Onward ==> pc >= 0 && dataLevel == |loopStack|)
              && Run(next, |code|, old(Snapshot()), n) == Left(c)
    {
      ghost var left := n;
      while pc < |code|
        invariant Valid()
        invariant Run(next, |code|, Snapshot(), left) == Run(next, |code|, old(Snapshot()), n)
        decreases left
      {
        c := Tick(code, data, next);
        if c != Onward {
          return;
        }
        left := left - 1;
        pc := pc + 1;
      }
      c := Onward;
    }

    /** What the loop left, as the status of a run. */
    ghost function Left(c: Came): Status
      reads this
      requires c == Onward ==> pc >= 0
    {
      match c
      case Onward => At(State(pc, stack, loopStack, out))
      case Threw => Failed
      case Undef => Undefined
    }

    /** render_to, on any code that does not run for ever: it leaves what the machine's run ends
        with, and m_data at the innermost open loop's scope. */
    method RenderTo(code: seq<Bytecode>, data: Value) returns (c: Came)
      requires Halts(code, env, data)
      modifies this
      ensures c == Onward ==> pc >= 0 && dataLevel == |loopStack|
      ensures EndsWith(code, env, data, Left(c))
    {
      stack, loopStack, dataLevel, out, pc := [], [], 0, "", 0;
      ghost var n: nat :| IsFinal(|code|, Rendering(code, env, data, n));
      c := Loop(code, data, Stepper(code, env, data), n);
    }
  }
}
