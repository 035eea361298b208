/** Ifs and loops that overlap: the parser accepts them, every jump is set, and one such template
    renders for ever on small data. Nesting is what makes rendering halt.

      {% for a in x %}{% if default(d, true) %}{% for b in y %}{% endif %}{% endfor %}
      {% for d in z %}{% if false %}{% endfor %}{% endif %}{% endfor %}

    (on one line), where x and y hold one item and z holds false twice. */
module Divergence {
  import opened Options
  import opened Json
  import opened Bytecodes
  import opened Machine
  import opened Syntax
  import opened Compiler
  import opened Assembler
  import opened Scoping
  import opened Correctness

  // ----- what the parser makes of it -----

  function Overlapping(): seq<Action> {
    [PushVar("x"), OpenFor(ItemVar("a"))]
    + [PushVar("d"), PushLit(Bool(true)), SwapLast, EmitFn(DefaultFn, 2), OpenIf]
    + [PushVar("y"), OpenFor(ItemVar("b")), CloseIf, CloseFor]
    + [PushVar("z"), OpenFor(ItemVar("d")), PushLit(Bool(false)), OpenIf]
    + [CloseFor, CloseIf, CloseFor]
  }

  function OverlappingCode(notation: Notation): seq<Bytecode> {
    [PushLookup(notation, "x"),
     StartInstr(ItemVar("a")).(args := 13),
     PushLiteral(Bool(true)),
     PushLookup(notation, "d").(op := Fn(DefaultFn), args := 2),
     Instr(ConditionalJump, 7),
     PushLookup(notation, "y"),
     StartInstr(ItemVar("b")).(args := 7),
     Instr(EndLoop, 7),
     PushLookup(notation, "z"),
     StartInstr(ItemVar("d")).(args := 12),
     PushLiteral(Bool(false)),
     Instr(ConditionalJump, 13),
     Instr(EndLoop, 10),
     Instr(EndLoop, 2)]
  }

  /** The assembly after each part. */
  function Built1(notation: Notation): Asm {
    Asm([PushLookup(notation, "x"), StartInstr(ItemVar("a"))], [], [1])
  }

  function Built2(notation: Notation): Asm {
    Asm(Built1(notation).code
        + [PushLiteral(Bool(true)), PushLookup(notation, "d").(op := Fn(DefaultFn), args := 2),
           Instr(ConditionalJump, 0)],
        [IfData(Some(4), [])], [1])
  }

  function Built3(notation: Notation): Asm {
    Asm(Built1(notation).code
        + [PushLiteral(Bool(true)), PushLookup(notation, "d").(op := Fn(DefaultFn), args := 2),
           Instr(ConditionalJump, 7),
           PushLookup(notation, "y"), StartInstr(ItemVar("b")).(args := 7), Instr(EndLoop, 7)],
        [], [1])
  }

  function Built4(notation: Notation): Asm {
    Asm(Built3(notation).code
        + [PushLookup(notation, "z"), StartInstr(ItemVar("d")), PushLiteral(Bool(false)), Instr(ConditionalJump, 0)],
        [IfData(Some(11), [])], [1, 9])
  }

  lemma {:induction false} Build1(notation: Notation)
    ensures Assemble(notation, EMPTY, [PushVar("x"), OpenFor(ItemVar("a"))]) == Fine(Built1(notation))
  {
    var next, acts := Emitter(notation), [PushVar("x"), OpenFor(ItemVar("a"))];
    assert DoFirst(next, EMPTY, acts, 0) == Fine(EMPTY);
    assert DoFirst(next, EMPTY, acts, 1) == Fine(Asm([PushLookup(notation, "x")], [], []));
  }

  lemma {:induction false} Build2(notation: Notation)
    ensures Assemble(notation, Built1(notation),
                     [PushVar("d"), PushLit(Bool(true)), SwapLast, EmitFn(DefaultFn, 2), OpenIf])
            == Fine(Built2(notation))
  {
    var next, asm := Emitter(notation), Built1(notation);
    var acts := [PushVar("d"), PushLit(Bool(true)), SwapLast, EmitFn(DefaultFn, 2), OpenIf];
    var d, t := PushLookup(notation, "d"), PushLiteral(Bool(true));
    assert DoFirst(next, asm, acts, 0) == Fine(asm);
    assert DoFirst(next, asm, acts, 1) == Fine(asm.(code := asm.code + [d]));
    assert DoFirst(next, asm, acts, 2) == Fine(asm.(code := asm.code + [d, t]));
    assert DoFirst(next, asm, acts, 3) == Fine(asm.(code := asm.code + [t, d]));
    assert DoFirst(next, asm, acts, 4) == Fine(asm.(code := asm.code + [t, d.(op := Fn(DefaultFn), args := 2)]));
  }

  lemma {:induction false} Build3(notation: Notation)
    ensures Assemble(notation, Built2(notation), [PushVar("y"), OpenFor(ItemVar("b")), CloseIf, CloseFor])
            == Fine(Built3(notation))
  {
    var next, asm := Emitter(notation), Built2(notation);
    var acts := [PushVar("y"), OpenFor(ItemVar("b")), CloseIf, CloseFor];
    var y, b := PushLookup(notation, "y"), StartInstr(ItemVar("b"));
    assert DoFirst(next, asm, acts, 0) == Fine(asm);
    assert DoFirst(next, asm, acts, 1) == Fine(asm.(code := asm.code + [y]));
    assert DoFirst(next, asm, acts, 2) == Fine(Asm(asm.code + [y, b], asm.ifs, [1, 6]));
    assert DoFirst(next, asm, acts, 3) == Fine(Asm((asm.code + [y, b])[4 := Instr(ConditionalJump, 7)], [], [1, 6]));
  }

  lemma {:induction false} Build4(notation: Notation)
    ensures Assemble(notation, Built3(notation), [PushVar("z"), OpenFor(ItemVar("d")), PushLit(Bool(false)), OpenIf])
            == Fine(Built4(notation))
  {
    var next, asm := Emitter(notation), Built3(notation);
    var acts := [PushVar("z"), OpenFor(ItemVar("d")), PushLit(Bool(false)), OpenIf];
    var z, d, f := PushLookup(notation, "z"), StartInstr(ItemVar("d")), PushLiteral(Bool(false));
    assert DoFirst(next, asm, acts, 0) == Fine(asm);
    assert DoFirst(next, asm, acts, 1) == Fine(asm.(code := asm.code + [z]));
    assert DoFirst(next, asm, acts, 2) == Fine(Asm(asm.code + [z, d], [], [1, 9]));
    assert DoFirst(next, asm, acts, 3) == Fine(Asm(asm.code + [z, d, f], [], [1, 9]));
  }

  lemma {:induction false} Build5(notation: Notation)
    ensures Assemble(notation, Built4(notation), [CloseFor, CloseIf, CloseFor])
            == Fine(Asm(OverlappingCode(notation), [], []))
  {
    var next, asm := Emitter(notation), Built4(notation);
    var acts := [CloseFor, CloseIf, CloseFor];
    var code1 := asm.code[9 := StartInstr(ItemVar("d")).(args := 12)] + [Instr(EndLoop, 10)];
    var code2 := code1[11 := Instr(ConditionalJump, 13)];
    assert DoFirst(next, asm, acts, 0) == Fine(asm);
    assert DoFirst(next, asm, acts, 1) == Fine(Asm(code1, asm.ifs, [1]));
    assert DoFirst(next, asm, acts, 2) == Fine(Asm(code2, [], [1]));
    var code3 := code2[1 := StartInstr(ItemVar("a")).(args := 13)] + [Instr(EndLoop, 2)];
    assert DoFirst(next, asm, acts, 3) == Fine(Asm(code3, [], []));
  }

  /** The overlapping template is accepted, with nothing left open. */
  lemma {:induction false} OverlappingIsBuilt(notation: Notation)
    ensures Assemble(notation, EMPTY, Overlapping()) == Fine(Asm(OverlappingCode(notation), [], []))
  {
    var next := Emitter(notation);
    var p1 := [PushVar("x"), OpenFor(ItemVar("a"))];
    var p2 := [PushVar("d"), PushLit(Bool(true)), SwapLast, EmitFn(DefaultFn, 2), OpenIf];
    var p3 := [PushVar("y"), OpenFor(ItemVar("b")), CloseIf, CloseFor];
    var p4 := [PushVar("z"), OpenFor(ItemVar("d")), PushLit(Bool(false)), OpenIf];
    Build1(notation);
    Build2(notation);
    Build3(notation);
    Build4(notation);
    Build5(notation);
    DoThen(next, EMPTY, p1, Built1(notation), p2);
    DoThen(next, EMPTY, p1 + p2, Built2(notation), p3);
    DoThen(next, EMPTY, p1 + p2 + p3, Built3(notation), p4);
    DoThen(next, EMPTY, p1 + p2 + p3 + p4, Built4(notation), [CloseFor, CloseIf, CloseFor]);
  }

  // ----- how it renders -----

  function RootFields(): map<string, Value> {
    map["x" := Arr([Int(1)]), "y" := Arr([Int(1)]), "z" := Arr([Bool(false), Bool(false)])]
  }

  /** Names of fields are looked up in the object; nothing else answers to them. */
  ghost predicate FindsFields(env: Env, notation: Notation) {
    forall fields: map<string, Value>, name: string | name in {"x", "y", "z", "d"} ::
      Resolve(env, Obj(fields), notation, name) == if name in fields then Some(fields[name]) else None
  }

  const ITEMS_X: seq<(string, Value)> := [("", Int(1))]
  const ITEMS_Z: seq<(string, Value)> := [("", Bool(false)), ("", Bool(false))]

  /** The outer loop's scope. */
  function ScopeA(): Value {
    var r := Opened(ItemVar("a"), Obj(RootFields()), ITEMS_X, 0);
    if r.Some? then r.value else Null
  }

  /** The scope of the loop over z, opened inside it, at each of its items. */
  function ScopeD(index: nat): Value
    requires index < 2
  {
    var r := Opened(ItemVar("d"), ScopeA(), ITEMS_Z, index);
    if r.Some? then r.value else Null
  }

  lemma {:induction false} ScopesExist()
    ensures Opened(ItemVar("a"), Obj(RootFields()), ITEMS_X, 0) == Some(ScopeA())
    ensures ScopeA().Obj? && "z" in ScopeA().fields && ScopeA().fields["z"] == Arr([Bool(false), Bool(false)])
    ensures "y" in ScopeA().fields && ScopeA().fields["y"] == Arr([Int(1)])
    ensures "d" !in ScopeA().fields && Openable(ScopeA().fields)
  {
    ItemScope("a", RootFields(), ITEMS_X, 0);
  }

  lemma {:induction false} ScopeOfD(index: nat)
    requires index < 2
    ensures Opened(ItemVar("d"), ScopeA(), ITEMS_Z, index) == Some(ScopeD(index))
    ensures ScopeD(index).Obj? && "d" in ScopeD(index).fields && ScopeD(index).fields["d"] == Bool(false)
  {
    ScopesExist();
    ItemScope("d", ScopeA().fields, ITEMS_Z, index);
  }

  function ScopeB(): Value {
    var r := Opened(ItemVar("b"), ScopeA(), ITEMS_X, 0);
    if r.Some? then r.value else Null
  }

  lemma {:induction false} ScopeBExists()
    ensures Opened(ItemVar("b"), ScopeA(), ITEMS_X, 0) == Some(ScopeB())
  {
    ScopesExist();
    ItemScope("b", ScopeA().fields, ITEMS_X, 0);
  }

  lemma {:induction false} NextItemOfD()
    ensures Bind(ItemVar("d"), ScopeD(0), ITEMS_Z, 1) == Some(ScopeD(1))
  {
    ScopeOfD(0);
    ScopeOfD(1);
    BindTwice(ItemVar("d"), WithParent(ScopeA()).value, ITEMS_Z, 0, 1);
  }

  // ----- the states it passes through -----

  /** The data, the outer loop's scope, and those of the loops inside it. */
  datatype World = World(root: Value, a: Value, b: Value, d0: Value, d1: Value)

  function InA(w: World): seq<Level> {
    [Level(ItemVar("a"), w.a, ITEMS_X, 0)]
  }

  function InB(w: World): seq<Level> {
    InA(w) + [Level(ItemVar("b"), w.b, ITEMS_X, 0)]
  }

  function InD(w: World, index: nat): seq<Level>
    requires index < 2
  {
    InA(w) + [Level(ItemVar("d"), if index == 0 then w.d0 else w.d1, ITEMS_Z, index)]
  }

  const ONE: Value := Arr([Int(1)])
  const FALSES: Value := Arr([Bool(false), Bool(false)])

  /** Seventeen states; behind the last comes the ninth again. */
  function Stage(w: World, k: nat): State {
    match k
    case 0 => START
    case 1 => State(1, [ONE], [], "")
    case 2 => State(2, [], InA(w), "")
    case 3 => State(3, [Bool(true)], InA(w), "")
    case 4 => State(4, [Bool(true)], InA(w), "")
    case 5 => State(5, [], InA(w), "")
    case 6 => State(6, [ONE], InA(w), "")
    case 7 => State(7, [], InB(w), "")
    case 8 => State(8, [], InA(w), "")
    case 9 => State(9, [FALSES], InA(w), "")
    case 10 => State(10, [], InD(w, 0), "")
    case 11 => State(11, [Bool(false)], InD(w, 0), "")
    case 12 => State(13, [], InD(w, 0), "")
    case 13 => State(2, [], InD(w, 1), "")
    case 14 => State(3, [Bool(true)], InD(w, 1), "")
    case 15 => State(4, [Bool(false)], InD(w, 1), "")
    case _ => State(7, [], InD(w, 1), "")
  }

  function NextStage(k: nat): nat {
    if k >= 16 then 8 else k + 1
  }

  // The proofs below keep the machine's step abstract and use it one instruction at a time.

  predicate Done(bc: Bytecode, st: State) {
    true
  }

  ghost predicate Steps(step: (Bytecode, State) -> Status, env: Env, root: Value) {
    forall bc: Bytecode, st: State {:trigger Done(bc, st)} :: Done(bc, st) ==> step(bc, st) == Step(env, root, bc, st)
  }

  lemma {:induction false} PushStep(step: (Bytecode, State) -> Status, env: Env, root: Value, bc: Bytecode,
                                    st: State, v: Value)
    requires Steps(step, env, root) && bc.op == Push && bc.flags != Pop
    requires ImmediateValue(env, Current(root, st.loops), bc) == Some(v) && st.stack == []
    ensures step(bc, st) == At(State(st.pc + 1, [v], st.loops, st.out))
  {
    assert Done(bc, st);
  }

  lemma {:induction false} EnterStep(step: (Bytecode, State) -> Status, env: Env, root: Value, bc: Bytecode, st: State,
                                     items: seq<(string, Value)>, scope: Value)
    requires Steps(step, env, root) && bc.op == StartLoop && bc.value == Null
    requires |st.stack| == 1 && st.stack[0].Arr? && st.stack[0].elems != []
    requires Items(ItemVar(bc.str), st.stack[0]) == Some(items) && items != [] && |st.loops| < RESERVED_LOOPS
    requires Opened(ItemVar(bc.str), Current(root, st.loops), items, 0) == Some(scope)
    ensures step(bc, st) ==
            At(State(st.pc + 1, [], st.loops + [Level(ItemVar(bc.str), scope, items, 0)], st.out))
  {
    assert Done(bc, st);
    assert st.stack[..0] == [];
  }

  lemma {:induction false} LeaveStep(step: (Bytecode, State) -> Status, env: Env, root: Value, bc: Bytecode, st: State,
                                     outer: seq<Level>, level: Level)
    requires Steps(step, env, root) && bc.op == EndLoop
    requires st.loops == outer + [level] && level.index + 1 >= |level.items|
    ensures step(bc, st) == At(State(st.pc + 1, st.stack, outer, st.out))
  {
    assert Done(bc, st);
    assert st.loops[..|st.loops| - 1] == outer;
  }

  lemma {:induction false} TurnStep(step: (Bytecode, State) -> Status, env: Env, root: Value, bc: Bytecode, st: State,
                                    outer: seq<Level>, level: Level, scope: Value)
    requires Steps(step, env, root) && bc.op == EndLoop
    requires st.loops == outer + [level] && level.index + 1 < |level.items|
    requires Bind(level.vars, level.scope, level.items, level.index + 1) == Some(scope)
    ensures step(bc, st) ==
            At(State(bc.args, st.stack, outer + [level.(scope := scope, index := level.index + 1)], st.out))
  {
    assert Done(bc, st);
    assert st.loops[..|st.loops| - 1] == outer;
  }

  lemma {:induction false} CondStep(step: (Bytecode, State) -> Status, env: Env, root: Value, bc: Bytecode,
                                    st: State, b: bool)
    requires Steps(step, env, root) && bc.op == ConditionalJump && st.stack == [Bool(b)]
    ensures step(bc, st) == At(State(if b then st.pc + 1 else bc.args, [], st.loops, st.out))
  {
    assert Done(bc, st);
    assert st.stack[..0] == [];
  }

  lemma {:induction false} DefaultStep(step: (Bytecode, State) -> Status, env: Env, root: Value, bc: Bytecode,
                                       st: State, x: Value)
    requires Steps(step, env, root) && bc.op == Fn(DefaultFn) && bc.flags != Pop && st.stack == [x]
    ensures step(bc, st) ==
            At(State(st.pc + 1,
                     match ImmediateValue(env, Current(root, st.loops), bc) case None => [x] case Some(v) => [v],
                     st.loops, st.out))
  {
    assert Done(bc, st);
    assert st.stack[..1] == st.stack && st.stack[..0] == [];
  }

  // ----- the stages, one after another -----

  lemma {:induction false} LookupStage(step: (Bytecode, State) -> Status, env: Env, root: Value, bc: Bytecode, pc: nat,
                                       loops: seq<Level>, v: Value)
    requires Steps(step, env, root) && bc.op == Push && bc.flags != Pop
    requires ImmediateValue(env, Current(root, loops), bc) == Some(v)
    ensures step(bc, State(pc, [], loops, "")) == At(State(pc + 1, [v], loops, ""))
  {
    PushStep(step, env, root, bc, State(pc, [], loops, ""), v);
  }

  lemma {:induction false} EnterStage(step: (Bytecode, State) -> Status, env: Env, root: Value, bc: Bytecode, pc: nat,
                                      loops: seq<Level>, name: string, v: Value,
                                      items: seq<(string, Value)>, scope: Value)
    requires Steps(step, env, root) && bc.op == StartLoop && bc.value == Null && bc.str == name
    requires v.Arr? && v.elems != [] && Items(ItemVar(name), v) == Some(items) && items != []
    requires |loops| < RESERVED_LOOPS
    requires Opened(ItemVar(name), Current(root, loops), items, 0) == Some(scope)
    ensures step(bc, State(pc, [v], loops, "")) ==
            At(State(pc + 1, [], loops + [Level(ItemVar(name), scope, items, 0)], ""))
  {
    EnterStep(step, env, root, bc, State(pc, [v], loops, ""), items, scope);
  }

  lemma {:induction false} ItemsOfData(name: string)
    ensures Items(ItemVar(name), ONE) == Some(ITEMS_X) && Items(ItemVar(name), FALSES) == Some(ITEMS_Z)
  {
    assert Items(ItemVar(name), ONE).value == ITEMS_X && Items(ItemVar(name), FALSES).value == ITEMS_Z;
  }

  /** What the lookups find, and which scopes the loops open. */
  ghost predicate Setting(step: (Bytecode, State) -> Status, env: Env, notation: Notation, w: World) {
    && Steps(step, env, w.root)
    && Resolve(env, w.root, notation, "x") == Some(ONE)
    && Resolve(env, w.a, notation, "y") == Some(ONE) && Resolve(env, w.a, notation, "z") == Some(FALSES)
    && Resolve(env, w.a, notation, "d") == None && Resolve(env, w.d1, notation, "d") == Some(Bool(false))
  }

  lemma {:induction false} PushStages(step: (Bytecode, State) -> Status, env: Env, notation: Notation, w: World, k: nat)
    requires Setting(step, env, notation, w) && (k == 0 || k == 5 || k == 8)
    ensures var name := if k == 0 then "x" else if k == 5 then "y" else "z";
            step(PushLookup(notation, name), Stage(w, k)) == At(Stage(w, k + 1))
  {
    var bc := PushLookup(notation, if k == 0 then "x" else if k == 5 then "y" else "z");
    LookupStage(step, env, w.root, bc, k, if k == 0 then [] else InA(w), if k == 8 then FALSES else ONE);
  }

  lemma {:induction false} LiteralStages(step: (Bytecode, State) -> Status, env: Env, w: World, k: nat)
    requires Steps(step, env, w.root) && (k == 2 || k == 10 || k == 13)
    ensures step(PushLiteral(Bool(k != 10)), Stage(w, k)) == At(Stage(w, k + 1))
  {
    LookupStage(step, env, w.root, PushLiteral(Bool(k != 10)), if k == 10 then 10 else 2,
                if k == 2 then InA(w) else if k == 10 then InD(w, 0) else InD(w, 1), Bool(k != 10));
  }

  lemma {:induction false} ConditionStages(step: (Bytecode, State) -> Status, env: Env, w: World, k: nat)
    requires Steps(step, env, w.root) && (k == 4 || k == 11 || k == 15)
    ensures step(Instr(ConditionalJump, if k == 11 then 13 else 7), Stage(w, k)) == At(Stage(w, NextStage(k)))
  {
    CondStep(step, env, w.root, Instr(ConditionalJump, if k == 11 then 13 else 7), Stage(w, k), k == 4);
  }

  /** Outside the second loop d is unknown, inside it is false. */
  lemma {:induction false} DefaultStages(step: (Bytecode, State) -> Status, env: Env, notation: Notation, w: World,
                                         k: nat)
    requires Setting(step, env, notation, w) && (k == 3 || k == 14)
    ensures step(PushLookup(notation, "d").(op := Fn(DefaultFn), args := 2), Stage(w, k)) == At(Stage(w, k + 1))
  {
    DefaultStep(step, env, w.root, PushLookup(notation, "d").(op := Fn(DefaultFn), args := 2), Stage(w, k), Bool(true));
  }

  lemma {:induction false} Stage1(step: (Bytecode, State) -> Status, env: Env, w: World)
    requires Steps(step, env, w.root) && Opened(ItemVar("a"), w.root, ITEMS_X, 0) == Some(w.a)
    ensures step(StartInstr(ItemVar("a")).(args := 13), Stage(w, 1)) == At(Stage(w, 2))
  {
    ItemsOfData("a");
    EnterStage(step, env, w.root, StartInstr(ItemVar("a")).(args := 13), 1, [], "a", ONE, ITEMS_X, w.a);
    assert [] + InA(w) == InA(w);
  }

  lemma {:induction false} Stage6(step: (Bytecode, State) -> Status, env: Env, w: World)
    requires Steps(step, env, w.root) && Opened(ItemVar("b"), w.a, ITEMS_X, 0) == Some(w.b)
    ensures step(StartInstr(ItemVar("b")).(args := 7), Stage(w, 6)) == At(Stage(w, 7))
  {
    ItemsOfData("b");
    EnterStage(step, env, w.root, StartInstr(ItemVar("b")).(args := 7), 6, InA(w), "b", ONE, ITEMS_X, w.b);
  }

  lemma {:induction false} Stage9(step: (Bytecode, State) -> Status, env: Env, w: World)
    requires Steps(step, env, w.root) && Opened(ItemVar("d"), w.a, ITEMS_Z, 0) == Some(w.d0)
    ensures step(StartInstr(ItemVar("d")).(args := 12), Stage(w, 9)) == At(Stage(w, 10))
  {
    ItemsOfData("d");
    EnterStage(step, env, w.root, StartInstr(ItemVar("d")).(args := 12), 9, InA(w), "d", FALSES, ITEMS_Z, w.d0);
  }

  /** The end of the loop over y closes that loop first, and the loop over z, which it takes for
      its own, the other time. */
  lemma {:induction false} LeaveStages(step: (Bytecode, State) -> Status, env: Env, w: World, k: nat)
    requires Steps(step, env, w.root) && (k == 7 || k == 16)
    ensures step(Instr(EndLoop, 7), Stage(w, k)) == At(Stage(w, 8))
  {
    LeaveStep(step, env, w.root, Instr(EndLoop, 7), Stage(w, k), InA(w),
              if k == 7 then Level(ItemVar("b"), w.b, ITEMS_X, 0) else Level(ItemVar("d"), w.d1, ITEMS_Z, 1));
  }

  /** The end of the loop over x takes the loop over z for its own. */
  lemma {:induction false} Stage12(step: (Bytecode, State) -> Status, env: Env, w: World)
    requires Steps(step, env, w.root) && Bind(ItemVar("d"), w.d0, ITEMS_Z, 1) == Some(w.d1)
    ensures step(Instr(EndLoop, 2), Stage(w, 12)) == At(Stage(w, 13))
  {
    TurnStep(step, env, w.root, Instr(EndLoop, 2), Stage(w, 12), InA(w), Level(ItemVar("d"), w.d0, ITEMS_Z, 0), w.d1);
  }

  /** The loops open the scopes of w. */
  ghost predicate Opens(w: World) {
    && Opened(ItemVar("a"), w.root, ITEMS_X, 0) == Some(w.a) && Opened(ItemVar("b"), w.a, ITEMS_X, 0) == Some(w.b)
    && Opened(ItemVar("d"), w.a, ITEMS_Z, 0) == Some(w.d0) && Bind(ItemVar("d"), w.d0, ITEMS_Z, 1) == Some(w.d1)
  }

  /** The instruction that a stage meets. */
  function Met(notation: Notation, k: nat): Bytecode {
    match k
    case 0 => PushLookup(notation, "x")
    case 1 => StartInstr(ItemVar("a")).(args := 13)
    case 5 => PushLookup(notation, "y")
    case 6 => StartInstr(ItemVar("b")).(args := 7)
    case 8 => PushLookup(notation, "z")
    case 9 => StartInstr(ItemVar("d")).(args := 12)
    case 10 => PushLiteral(Bool(false))
    case 11 => Instr(ConditionalJump, 13)
    case 12 => Instr(EndLoop, 2)
    case _ =>
      if k == 2 || k == 13 then PushLiteral(Bool(true))
      else if k == 3 || k == 14 then PushLookup(notation, "d").(op := Fn(DefaultFn), args := 2)
      else if k == 4 || k == 15 then Instr(ConditionalJump, 7)
      else Instr(EndLoop, 7)
  }

  lemma {:induction false} MetInCode(notation: Notation, w: World, k: nat)
    requires k < 17
    ensures Stage(w, k).pc < 14 && OverlappingCode(notation)[Stage(w, k).pc] == Met(notation, k)
  {
  }

  lemma {:induction false} LoopStages(step: (Bytecode, State) -> Status, env: Env, notation: Notation, w: World, k: nat)
    requires Steps(step, env, w.root) && Opens(w)
    requires k == 1 || k == 6 || k == 7 || k == 9 || k == 12 || k == 16
    ensures step(Met(notation, k), Stage(w, k)) == At(Stage(w, NextStage(k)))
  {
    match k
    case 1 => Stage1(step, env, w);
    case 6 => Stage6(step, env, w);
    case 9 => Stage9(step, env, w);
    case 12 => Stage12(step, env, w);
    case _ => LeaveStages(step, env, w, k);
  }

  lemma {:induction false} EveryStage(step: (Bytecode, State) -> Status, env: Env, notation: Notation, w: World, k: nat)
    requires Setting(step, env, notation, w) && Opens(w) && k < 17
    ensures step(Met(notation, k), Stage(w, k)) == At(Stage(w, NextStage(k)))
  {
    if k == 0 || k == 5 || k == 8 {
      PushStages(step, env, notation, w, k);
    } else if k == 4 || k == 11 || k == 15 {
      ConditionStages(step, env, w, k);
    } else if k == 2 || k == 10 || k == 13 {
      LiteralStages(step, env, w, k);
    } else if k == 3 || k == 14 {
      DefaultStages(step, env, notation, w, k);
    } else {
      LoopStages(step, env, notation, w, k);
    }
  }

  // ----- for ever -----

  predicate Visited(k: nat) {
    true
  }

  /** Stage follows stage, all of them inside the code. */
  ghost predicate Circles(next: State -> Status, size: nat, stage: nat -> State) {
    forall k: nat {:trigger Visited(k)} :: Visited(k) && k < 17 ==>
      stage(k).pc < size && next(stage(k)) == At(stage(NextStage(k)))
  }

  lemma {:induction false} NeverEnds(next: State -> Status, size: nat, stage: nat -> State, k: nat, n: nat)
    requires Circles(next, size, stage) && k < 17
    ensures !IsFinal(size, Run(next, size, stage(k), n))
    decreases n
  {
    assert Visited(k);
    if n > 0 {
      NeverEnds(next, size, stage, NextStage(k), n - 1);
    }
  }

  lemma {:induction false} OverlappingCircles(env: Env, notation: Notation, w: World, stage: nat -> State)
    requires Setting((bc: Bytecode, st: State) => Step(env, w.root, bc, st), env, notation, w) && Opens(w)
    requires forall k :: stage(k) == Stage(w, k)
    ensures Circles(Stepper(OverlappingCode(notation), env, w.root), 14, stage)
  {
    var next := Stepper(OverlappingCode(notation), env, w.root);
    forall k: nat | k < 17 ensures stage(k).pc < 14 && next(stage(k)) == At(stage(NextStage(k))) {
      EveryStage((bc: Bytecode, st: State) => Step(env, w.root, bc, st), env, notation, w, k);
      MetInCode(notation, w, k);
    }
  }

  function TheWorld(): World {
    World(Obj(RootFields()), ScopeA(), ScopeB(), ScopeD(0), ScopeD(1))
  }

  lemma {:induction false} TheWorldOpens()
    ensures Opens(TheWorld())
  {
    ScopesExist();
    ScopeBExists();
    ScopeOfD(0);
    NextItemOfD();
  }

  lemma {:induction false} TheWorldIsFound(env: Env, notation: Notation)
    requires FindsFields(env, notation)
    ensures var w := TheWorld();
            && Resolve(env, w.root, notation, "x") == Some(ONE)
            && Resolve(env, w.a, notation, "y") == Some(ONE) && Resolve(env, w.a, notation, "z") == Some(FALSES)
            && Resolve(env, w.a, notation, "d") == None && Resolve(env, w.d1, notation, "d") == Some(Bool(false))
  {
    ScopesExist();
    ScopeOfD(1);
  }

  lemma {:induction false} WorldNeverHalts(env: Env, notation: Notation, w: World)
    requires Setting((bc: Bytecode, st: State) => Step(env, w.root, bc, st), env, notation, w) && Opens(w)
    ensures !Halts(OverlappingCode(notation), env, w.root)
  {
    var stage := (k: nat) => Stage(w, k);
    OverlappingCircles(env, notation, w, stage);
    forall n: nat ensures !IsFinal(14, Rendering(OverlappingCode(notation), env, w.root, n)) {
      NeverEnds(Stepper(OverlappingCode(notation), env, w.root), 14, stage, 0, n);
    }
  }

  /** Rendering this template never ends. */
  lemma {:induction false} OverlappingNeverHalts(env: Env, notation: Notation, root: Value)
    requires FindsFields(env, notation) && root == Obj(RootFields())
    ensures !Halts(OverlappingCode(notation), env, root)
  {
    TheWorldOpens();
    TheWorldIsFound(env, notation);
    WorldNeverHalts(env, notation, TheWorld());
  }
}
