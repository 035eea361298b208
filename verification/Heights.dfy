/** Stack discipline: every address of a tree's code has one height of the operand stack, the same
    along every jump, and every instruction finds what it pops. */
module Heights {
  import opened Options
  import opened Json
  import opened Bytecodes
  import opened Machine
  import opened Syntax
  import opened Compiler
  import opened Correctness

  /** What an instruction takes off the stack and what it puts there. */
  function Takes(bc: Bytecode): int {
    match bc.op
    case PrintValue => Popped(bc)
    case Fn(f) => if f == DefaultFn then 1 else Popped(bc)
    case Callback => Popped(bc)
    case ConditionalJump => 1
    case StartLoop => 1
    case _ => 0
  }

  function Gives(bc: Bytecode): int {
    if bc.op == Push || bc.op.Fn? || bc.op == Callback then 1 else 0
  }

  function Net(bc: Bytecode): int {
    Gives(bc) - Takes(bc)
  }

  /** The height at an address: what the instructions before it add up to. */
  function Height(code: seq<Bytecode>, pc: nat): int
    requires pc <= |code|
    decreases pc, code
  {
    if pc == 0 then 0 else Height(code, pc - 1) + Net(code[pc - 1])
  }

  /** Where an instruction can go besides the next address. */
  function Target(bc: Bytecode): Option<nat> {
    match bc.op
    case Jump => Some(bc.args)
    case ConditionalJump => Some(bc.args)
    case StartLoop => Some(bc.args + 1)
    case EndLoop => Some(bc.args)
    case _ => None
  }

  /** The instruction finds what it takes, and its jump agrees with falling through. */
  predicate Level(code: seq<Bytecode>, pc: nat)
    requires pc < |code|
  {
    && 0 <= Takes(code[pc]) <= Height(code, pc)
    && (Target(code[pc]).Some? ==>
          Target(code[pc]).value <= |code| && Height(code, Target(code[pc]).value) == Height(code, pc + 1))
  }

  /** Level throughout, from an empty stack to an empty stack. */
  ghost predicate Disciplined(code: seq<Bytecode>) {
    Height(code, |code|) == 0 && forall pc: nat {:trigger Spot(pc)} :: Spot(pc) && pc < |code| ==> Level(code, pc)
  }

  // ----- the machine keeps to it -----

  /** What a step leaves on the stack, and where it goes. */
  predicate Moves(bc: Bytecode, st: State, s: Status) {
    s.At? ==> |s.st.stack| == |st.stack| + Net(bc) && (s.st.pc == st.pc + 1 || Target(bc) == Some(s.st.pc))
  }

  lemma {:induction false} ApplyMoves(env: Env, root: Value, data: Value, bc: Bytecode, st: State)
    requires 0 <= Takes(bc) <= |st.stack|
    ensures bc.op == PrintValue ==> Moves(bc, st, StepPrint(env, data, bc, st))
    ensures bc.op.Fn? && bc.op.f != DefaultFn ==> Moves(bc, st, StepFunction(env, root, data, bc, st))
    ensures bc.op == Callback ==> Moves(bc, st, StepCallback(env, data, bc, st))
  {
  }

  lemma {:induction false} LoopMoves(env: Env, root: Value, bc: Bytecode, st: State)
    requires 0 <= Takes(bc) <= |st.stack|
    ensures bc.op == StartLoop ==> Moves(bc, st, StepStart(root, bc, st))
    ensures bc.op == EndLoop ==> Moves(bc, st, StepEnd(bc, st))
  {
  }

  lemma {:induction false} OtherMoves(env: Env, data: Value, bc: Bytecode, st: State)
    requires 0 <= Takes(bc) <= |st.stack|
    ensures bc.op == Fn(DefaultFn) ==> Moves(bc, st, StepDefault(env, data, bc, st))
    ensures bc.op == ConditionalJump ==> Moves(bc, st, StepCond(bc, st))
  {
  }

  lemma {:induction false} StepMoves(env: Env, root: Value, bc: Bytecode, st: State)
    requires 0 <= Takes(bc) <= |st.stack|
    ensures Moves(bc, st, Step(env, root, bc, st))
  {
    var data := Current(root, st.loops);
    ApplyMoves(env, root, data, bc, st);
    LoopMoves(env, root, bc, st);
    OtherMoves(env, data, bc, st);
  }

  /** An instruction whose operands are there leaves the stack at the height of where it goes. */
  lemma {:induction false} LevelMoves(code: seq<Bytecode>, st: State, s: Status)
    requires st.pc < |code| && |st.stack| == Height(code, st.pc) && Level(code, st.pc) && Moves(code[st.pc], st, s)
    ensures s.At? ==> s.st.pc <= |code| && |s.st.stack| == Height(code, s.st.pc)
  {
    assert Height(code, st.pc + 1) == Height(code, st.pc) + Net(code[st.pc]);
  }

  lemma {:induction false} TickKeepsHeight(code: seq<Bytecode>, env: Env, root: Value, next: State -> Status, st: State)
    requires Ticks(next, code, env, root) && st.pc < |code| && |st.stack| == Height(code, st.pc) && Level(code, st.pc)
    ensures var s := next(st); s.At? ==> s.st.pc <= |code| && |s.st.stack| == Height(code, s.st.pc)
  {
    assert Ticked(st);
    StepMoves(env, root, code[st.pc], st);
    LevelMoves(code, st, next(st));
  }

  lemma {:induction false} RunKeepsHeight(code: seq<Bytecode>, env: Env, root: Value, next: State -> Status,
                                          st: State, n: nat)
    requires Disciplined(code) && Ticks(next, code, env, root)
    requires st.pc <= |code| && |st.stack| == Height(code, st.pc)
    ensures var s := Run(next, |code|, st, n);
            s.At? ==> s.st.pc <= |code| && |s.st.stack| == Height(code, s.st.pc)
    decreases n
  {
    if n > 0 && st.pc < |code| {
      assert Spot(st.pc);
      TickKeepsHeight(code, env, root, next, st);
      var s := next(st);
      if s.At? {
        RunKeepsHeight(code, env, root, next, s.st, n - 1);
      }
    }
  }

  /** Every state a rendering passes through: the stack has the height of the address, and what
      the next instruction takes is there. */
  lemma {:induction false} ReachableHeight(code: seq<Bytecode>, env: Env, root: Value, n: nat)
    requires Disciplined(code)
    ensures var s := Rendering(code, env, root, n);
            s.At? ==>
              && s.st.pc <= |code| && |s.st.stack| == Height(code, s.st.pc)
              && (s.st.pc < |code| ==> 0 <= Takes(code[s.st.pc]) <= |s.st.stack|)
  {
    RunKeepsHeight(code, env, root, Stepper(code, env, root), START, n);
    var s := Rendering(code, env, root, n);
    if s.At? && s.st.pc < |code| {
      assert Spot(s.st.pc);
    }
  }

  // ----- expressions -----

  /** Straight code: no jumps, its operands are there, and it adds n values. */
  ghost predicate Adds(frag: seq<Bytecode>, n: int) {
    && Height(frag, |frag|) == n
    && forall i: nat {:trigger Spot(i)} :: Spot(i) && i < |frag| ==>
         0 <= Takes(frag[i]) <= Height(frag, i) && Target(frag[i]).None?
  }

  lemma {:induction false} HeightConcat(a: seq<Bytecode>, b: seq<Bytecode>, k: nat)
    requires k <= |b|
    ensures Height(a + b, |a| + k) == Height(a, |a|) + Height(b, k)
    decreases k
  {
    if k == 0 {
      HeightPrefix(a, b, |a|);
    } else {
      HeightConcat(a, b, k - 1);
      assert (a + b)[|a| + k - 1] == b[k - 1];
    }
  }

  lemma {:induction false} HeightPrefix(a: seq<Bytecode>, b: seq<Bytecode>, k: nat)
    requires k <= |a|
    ensures Height(a + b, k) == Height(a, k)
    decreases k
  {
    if k > 0 {
      HeightPrefix(a, b, k - 1);
      assert (a + b)[k - 1] == a[k - 1];
    }
  }

  lemma {:induction false} AddsConcat(a: seq<Bytecode>, m: nat, b: seq<Bytecode>, n: int)
    requires Adds(a, m) && Adds(b, n)
    ensures Adds(a + b, m + n)
  {
    HeightConcat(a, b, |b|);
    forall i: nat | i < |a + b| ensures 0 <= Takes((a + b)[i]) <= Height(a + b, i) && Target((a + b)[i]).None? {
      if i < |a| {
        assert Spot(i);
        HeightPrefix(a, b, i);
      } else {
        assert Spot(i - |a|);
        HeightConcat(a, b, i - |a|);
      }
    }
  }

  /** Values, then an instruction that takes some of them. */
  lemma {:induction false} AddsThen(a: seq<Bytecode>, m: nat, bc: Bytecode)
    requires Adds(a, m) && 0 <= Takes(bc) <= m && Target(bc).None?
    ensures Adds(a + [bc], m + Net(bc))
  {
    HeightConcat(a, [bc], 0);
    assert Height(a + [bc], |a| + 1) == Height(a + [bc], |a|) + Net((a + [bc])[|a|]);
    forall i: nat | i < |a| + 1
      ensures 0 <= Takes((a + [bc])[i]) <= Height(a + [bc], i) && Target((a + [bc])[i]).None?
    {
      if i < |a| {
        assert Spot(i);
        HeightPrefix(a, [bc], i);
      }
    }
  }

  lemma {:induction false} AddsNothing()
    ensures Adds([], 0)
  {
  }

  lemma {:induction false} ExprAdds(notation: Notation, e: Expr)
    requires Safe(notation, e)
    ensures Adds(Code(notation, e), 1)
    decreases e, 1, 0
  {
    match e
    case Lit(_, v) => LeafAdds(notation, e);
    case Lookup(name) => LeafAdds(notation, e);
    case Apply(f, args) =>
      if f == DefaultFn {
        ExprAdds(notation, args[1]);
        AddsThen(Code(notation, args[1]), 1, PushOf(notation, args[0]).(op := Fn(DefaultFn), args := 2));
      } else {
        CodeOfApply(notation, f, args);
        FrontAdds(notation, args);
        AddsThen(FrontCode(notation, args), FrontCount(args), FunctionInstr(notation, f, args));
      }
    case Call(name, args) => CallAdds(notation, name, args);
  }

  lemma {:induction false} LeafAdds(notation: Notation, leaf: Expr)
    requires IsLeaf(leaf)
    ensures Adds(Code(notation, leaf), 1)
  {
    AddsNothing();
    AddsThen([], 0, PushOf(notation, leaf));
    assert [] + [PushOf(notation, leaf)] == Code(notation, leaf);
  }

  lemma {:induction false} ArgsAdd(notation: Notation, args: seq<Expr>, n: nat)
    requires n <= |args| && SafeArgs(notation, args, n)
    ensures Adds(CodeArgs(notation, args, n), n)
    decreases args, 0, n
  {
    if n == 0 {
      AddsNothing();
    } else {
      ArgsAdd(notation, args, n - 1);
      ExprAdds(notation, args[n - 1]);
      AddsConcat(CodeArgs(notation, args, n - 1), n - 1, Code(notation, args[n - 1]), 1);
    }
  }

  /** How many arguments are on the stack for the instruction that uses them. */
  function FrontCount(args: seq<Expr>): nat
    requires args != []
  {
    if IsLeaf(args[|args| - 1]) then |args| - 1 else |args|
  }

  lemma {:induction false} FrontAdds(notation: Notation, args: seq<Expr>)
    requires args != [] && SafeArgs(notation, args, |args|)
    ensures Adds(FrontCode(notation, args), FrontCount(args))
    decreases args, 1, 0
  {
    ArgsAdd(notation, args, |args| - 1);
    ArgsAdd(notation, args, |args|);
  }

  lemma {:induction false} CallAdds(notation: Notation, name: string, args: seq<Expr>)
    requires Safe(notation, Call(name, args))
    ensures Adds(Code(notation, Call(name, args)), 1)
    decreases args, 1, 0
  {
    var carried := args != [] && args[|args| - 1].Lit?;
    var k := if carried then |args| - 1 else |args|;
    CodeOfCall(notation, name, args);
    ArgsAdd(notation, args, |args|);
    if carried {
      ArgsAdd(notation, args, k);
    }
    AddsThen(CodeArgs(notation, args, k), k, CallInstr(notation, name, args));
  }

  lemma {:induction false} PrintAdds(notation: Notation, e: Expr)
    requires Safe(notation, e)
    ensures Adds(PrintCode(notation, e), 0)
  {
    LastIsPush(notation, e);
    if IsLeaf(e) {
      var bc := PushOf(notation, e).(op := PrintValue, args := 1);
      assert PrintCode(notation, e) == [bc];
      AddsNothing();
      AddsThen([], 0, bc);
      assert [] + [bc] == [bc];
    } else {
      ExprAdds(notation, e);
      AddsThen(Code(notation, e), 1, Instr(PrintValue, 1));
    }
  }

  // ----- statements -----

  /** What statements need to know of expression code. */
  ghost predicate Ranked(kit: Kit, notation: Notation) {
    forall e: Expr {:trigger Used(e)} :: Used(e) && Safe(notation, e) ==> Adds(kit.code(e), 1) && Adds(kit.show(e), 0)
  }

  lemma {:induction false} ExpressionsAreRanked(notation: Notation)
    ensures Ranked(Expressions(notation), notation)
  {
    forall e: Expr | Safe(notation, e)
      ensures Adds(Expressions(notation).code(e), 1) && Adds(Expressions(notation).show(e), 0)
    {
      ExprAdds(notation, e);
      PrintAdds(notation, e);
    }
  }

  ghost predicate LevelOn(code: seq<Bytecode>, from: nat, to: nat) {
    to <= |code| && forall pc: nat {:trigger Spot(pc)} :: Spot(pc) && from <= pc < to ==> Level(code, pc)
  }

  lemma {:induction false} HeightInside(code: seq<Bytecode>, pc: nat, frag: seq<Bytecode>, k: nat)
    requires Holds(code, pc, frag) && k <= |frag|
    ensures Height(code, pc + k) == Height(code, pc) + Height(frag, k)
    decreases k
  {
    if k > 0 {
      HeightInside(code, pc, frag, k - 1);
      assert Spot(k - 1);
    }
  }

  /** Straight code on an empty stack. */
  lemma {:induction false} StraightIsLevel(code: seq<Bytecode>, pc: nat, frag: seq<Bytecode>, n: int)
    requires Holds(code, pc, frag) && Adds(frag, n) && Height(code, pc) == 0
    ensures pc + |frag| <= |code| && Height(code, pc + |frag|) == n && LevelOn(code, pc, pc + |frag|)
  {
    HeightInside(code, pc, frag, |frag|);
    forall j: nat | pc <= j < pc + |frag| ensures Level(code, j) {
      assert Spot(j - pc);
      HeightInside(code, pc, frag, j - pc);
    }
  }

  /** An expression, on an empty stack, and the instruction that takes its value. */
  lemma {:induction false} ValueTaken(code: seq<Bytecode>, kit: Kit, notation: Notation, e: Expr, pc: nat)
    requires Ranked(kit, notation) && Safe(notation, e) && Holds(code, pc, kit.code(e)) && Height(code, pc) == 0
    requires pc + |kit.code(e)| < |code| && Net(code[pc + |kit.code(e)|]) == -1
    ensures LevelOn(code, pc, pc + |kit.code(e)|) && Height(code, pc + |kit.code(e)|) == 1
    ensures Height(code, pc + |kit.code(e)| + 1) == 0
  {
    assert Used(e);
    StraightIsLevel(code, pc, kit.code(e), 1);
  }

  lemma {:induction false} BlockZero(code: seq<Bytecode>, kit: Kit, notation: Notation, b: seq<Stmt>, i: nat, pc: nat)
    requires i <= |b| && Ranked(kit, notation) && SafeBlock(notation, b, i) && |code| < ARGS_LIMIT
    requires Holds(code, pc, Layout(kit, b, i, pc)) && Height(code, pc) == 0
    ensures pc + Size(kit, b, i) <= |code| && Height(code, pc + Size(kit, b, i)) == 0
    decreases b, |b| - i
  {
    if i < |b| {
      var next := pc + SizeStmt(kit, b[i]);
      HoldsSplit(code, pc, LayoutStmt(kit, b[i], pc), Layout(kit, b, i + 1, next));
      StmtZero(code, kit, notation, b[i], pc);
      BlockZero(code, kit, notation, b, i + 1, next);
    }
  }

  lemma {:induction false} StmtZero(code: seq<Bytecode>, kit: Kit, notation: Notation, s: Stmt, pc: nat)
    requires Ranked(kit, notation) && SafeStmt(notation, s) && |code| < ARGS_LIMIT
    requires Holds(code, pc, LayoutStmt(kit, s, pc)) && Height(code, pc) == 0
    ensures pc + SizeStmt(kit, s) <= |code| && Height(code, pc + SizeStmt(kit, s)) == 0
    decreases s
  {
    match s
    case Text(text) => HoldsOne(code, pc, TextInstr(text));
    case Comment(_) =>
    case Print(e) =>
      assert Used(e);
      StraightIsLevel(code, pc, kit.show(e), 0);
    case If(_, br) => BranchesZero(code, kit, notation, br, pc, pc + SizeBranches(kit, br));
    case For(_, vars, e, body, _) => ForZero(code, kit, notation, s, pc);
  }

  lemma {:induction false} ForZero(code: seq<Bytecode>, kit: Kit, notation: Notation, s: Stmt, pc: nat)
    requires s.For? && Ranked(kit, notation) && SafeStmt(notation, s) && |code| < ARGS_LIMIT
    requires Holds(code, pc, LayoutStmt(kit, s, pc)) && Height(code, pc) == 0
    ensures var start := pc + |kit.code(s.e)| + 1;
            var last := start + Size(kit, s.body, 0);
            && last < |code| && Height(code, start) == 0 && Height(code, last) == 0 && Height(code, last + 1) == 0
            && code[start - 1].op == StartLoop && code[start - 1].args == last
            && code[last].op == EndLoop && code[last].args == start
            && Holds(code, start, Layout(kit, s.body, 0, start)) && LevelOn(code, pc, start - 1)
            && Height(code, start - 1) == 1 && pc + SizeStmt(kit, s) == last + 1
    decreases s.body
  {
    var start := pc + |kit.code(s.e)| + 1;
    var l, end := Layout(kit, s.body, 0, start), Instr(EndLoop, start);
    ForParts(code, kit, s, pc);
    HoldsSplit(code, start, l, [end]);
    HoldsOne(code, start + |l|, end);
    ValueTaken(code, kit, notation, s.e, pc);
    BlockZero(code, kit, notation, s.body, 0, start);
  }

  lemma {:induction false} BranchesZero(code: seq<Bytecode>, kit: Kit, notation: Notation, br: Branches, pc: nat,
                                        end: nat)
    requires Ranked(kit, notation) && SafeBranches(notation, br) && |code| < ARGS_LIMIT
    requires Holds(code, pc, LayoutBranches(kit, br, pc, end)) && Height(code, pc) == 0
    ensures var cond := pc + |kit.code(br.cond)|;
            var rest := cond + 1 + Size(kit, br.thn, 0);
            && rest + SizeElse(kit, br.els) <= |code|
            && LevelOn(code, pc, cond)
            && Height(code, cond) == 1 && Height(code, cond + 1) == 0 && Height(code, rest) == 0
            && code[cond] == Instr(ConditionalJump, ElseTarget(br.els, rest))
            && Holds(code, cond + 1, Layout(kit, br.thn, 0, cond + 1))
            && Holds(code, rest, LayoutElse(kit, br.els, rest, end))
            && Height(code, rest + SizeElse(kit, br.els)) == 0
    decreases br
  {
    var c := kit.code(br.cond);
    var cond := pc + |c|;
    var rest := cond + 1 + Size(kit, br.thn, 0);
    var jump := Instr(ConditionalJump, ElseTarget(br.els, rest));
    BranchParts(code, kit, br, pc, end);
    HoldsSplit(code, pc, c, [jump]);
    HoldsOne(code, cond, jump);
    ValueTaken(code, kit, notation, br.cond, pc);
    BlockZero(code, kit, notation, br.thn, 0, cond + 1);
    ElseZero(code, kit, notation, br.els, rest, end);
  }

  lemma {:induction false} ElseZero(code: seq<Bytecode>, kit: Kit, notation: Notation, els: Else, pc: nat, end: nat)
    requires Ranked(kit, notation) && SafeElse(notation, els) && |code| < ARGS_LIMIT
    requires Holds(code, pc, LayoutElse(kit, els, pc, end)) && Height(code, pc) == 0
    ensures pc + SizeElse(kit, els) <= |code| && Height(code, pc + SizeElse(kit, els)) == 0
    ensures !els.EndIf? ==> pc < |code| && code[pc] == Instr(Jump, end) && Height(code, pc + 1) == 0
    decreases els
  {
    match els
    case EndIf(_) =>
    case ElseDo(_, b, _) =>
      HoldsSplit(code, pc, [Instr(Jump, end)], Layout(kit, b, 0, pc + 1));
      HoldsOne(code, pc, Instr(Jump, end));
      BlockZero(code, kit, notation, b, 0, pc + 1);
    case ElseIf(_, br) =>
      HoldsSplit(code, pc, [Instr(Jump, end)], LayoutBranches(kit, br, pc + 1, end));
      HoldsOne(code, pc, Instr(Jump, end));
      BranchesZero(code, kit, notation, br, pc + 1, end);
  }

  lemma {:induction false} LevelJoin(code: seq<Bytecode>, a: nat, b: nat, c: nat)
    requires LevelOn(code, a, b) && LevelOn(code, b, c)
    ensures LevelOn(code, a, c)
  {
  }

  lemma {:induction false} LevelOne(code: seq<Bytecode>, pc: nat)
    requires pc < |code| && Level(code, pc)
    ensures LevelOn(code, pc, pc + 1)
  {
  }

  lemma {:induction false} BlockLevel(code: seq<Bytecode>, kit: Kit, notation: Notation, b: seq<Stmt>, i: nat, pc: nat)
    requires i <= |b| && Ranked(kit, notation) && SafeBlock(notation, b, i) && |code| < ARGS_LIMIT
    requires Holds(code, pc, Layout(kit, b, i, pc)) && Height(code, pc) == 0
    ensures LevelOn(code, pc, pc + Size(kit, b, i))
    decreases b, |b| - i
  {
    if i < |b| {
      var next := pc + SizeStmt(kit, b[i]);
      HoldsSplit(code, pc, LayoutStmt(kit, b[i], pc), Layout(kit, b, i + 1, next));
      StmtZero(code, kit, notation, b[i], pc);
      StmtLevel(code, kit, notation, b[i], pc);
      BlockLevel(code, kit, notation, b, i + 1, next);
      LevelJoin(code, pc, next, next + Size(kit, b, i + 1));
    }
  }

  lemma {:induction false} StmtLevel(code: seq<Bytecode>, kit: Kit, notation: Notation, s: Stmt, pc: nat)
    requires Ranked(kit, notation) && SafeStmt(notation, s) && |code| < ARGS_LIMIT
    requires Holds(code, pc, LayoutStmt(kit, s, pc)) && Height(code, pc) == 0
    ensures LevelOn(code, pc, pc + SizeStmt(kit, s))
    decreases s
  {
    match s
    case Text(text) =>
      HoldsOne(code, pc, TextInstr(text));
      LevelOne(code, pc);
    case Comment(_) =>
    case Print(e) =>
      assert Used(e);
      StraightIsLevel(code, pc, kit.show(e), 0);
    case If(_, br) =>
      BranchesZero(code, kit, notation, br, pc, pc + SizeBranches(kit, br));
      BranchesLevel(code, kit, notation, br, pc, pc + SizeBranches(kit, br));
    case For(_, _, _, _, _) => ForLevel(code, kit, notation, s, pc);
  }

  lemma {:induction false} ForLevel(code: seq<Bytecode>, kit: Kit, notation: Notation, s: Stmt, pc: nat)
    requires s.For? && Ranked(kit, notation) && SafeStmt(notation, s) && |code| < ARGS_LIMIT
    requires Holds(code, pc, LayoutStmt(kit, s, pc)) && Height(code, pc) == 0
    ensures LevelOn(code, pc, pc + SizeStmt(kit, s))
    decreases s.body
  {
    var start := pc + |kit.code(s.e)| + 1;
    var last := start + Size(kit, s.body, 0);
    ForZero(code, kit, notation, s, pc);
    BlockLevel(code, kit, notation, s.body, 0, start);
    LoopLevel(code, pc, start, last);
  }

  /** A loop whose start and end point to each other, around a level body. */
  lemma {:induction false} LoopLevel(code: seq<Bytecode>, pc: nat, start: nat, last: nat)
    requires pc < start <= last < |code| && LevelOn(code, pc, start - 1) && LevelOn(code, start, last)
    requires code[start - 1].op == StartLoop && code[start - 1].args == last
    requires code[last].op == EndLoop && code[last].args == start
    requires Height(code, start - 1) == 1 && Height(code, start) == 0
    requires Height(code, last) == 0 && Height(code, last + 1) == 0
    ensures LevelOn(code, pc, last + 1)
  {
    LevelOne(code, start - 1);
    LevelOne(code, last);
    LevelJoin(code, pc, start - 1, start);
    LevelJoin(code, pc, start, last);
    LevelJoin(code, pc, last, last + 1);
  }

  lemma {:induction false} BranchesLevel(code: seq<Bytecode>, kit: Kit, notation: Notation, br: Branches, pc: nat,
                                         end: nat)
    requires Ranked(kit, notation) && SafeBranches(notation, br) && |code| < ARGS_LIMIT
    requires Holds(code, pc, LayoutBranches(kit, br, pc, end)) && Height(code, pc) == 0
    requires end <= |code| && Height(code, end) == 0
    ensures LevelOn(code, pc, pc + SizeBranches(kit, br))
    decreases br
  {
    var cond := pc + |kit.code(br.cond)|;
    var rest := cond + 1 + Size(kit, br.thn, 0);
    BranchesZero(code, kit, notation, br, pc, end);
    BlockLevel(code, kit, notation, br.thn, 0, cond + 1);
    ElseZero(code, kit, notation, br.els, rest, end);
    ElseLevel(code, kit, notation, br.els, rest, end);
    CondLevel(code, cond, ElseTarget(br.els, rest));
    LevelJoin(code, pc, cond, cond + 1);
    LevelJoin(code, pc, cond + 1, rest);
    LevelJoin(code, pc, rest, rest + SizeElse(kit, br.els));
  }

  lemma {:induction false} CondLevel(code: seq<Bytecode>, pc: nat, target: nat)
    requires pc < |code| < ARGS_LIMIT && code[pc] == Instr(ConditionalJump, target) && target <= |code|
    requires Height(code, pc) == 1 && Height(code, target) == 0
    ensures LevelOn(code, pc, pc + 1)
  {
    assert Arg30(target) == target;
    LevelOne(code, pc);
  }

  lemma {:induction false} JumpLevel(code: seq<Bytecode>, pc: nat, target: nat)
    requires pc < |code| < ARGS_LIMIT && code[pc] == Instr(Jump, target) && target <= |code|
    requires Height(code, pc) == 0 && Height(code, target) == 0
    ensures LevelOn(code, pc, pc + 1)
  {
    assert Arg30(target) == target;
    LevelOne(code, pc);
  }

  lemma {:induction false} ElseLevel(code: seq<Bytecode>, kit: Kit, notation: Notation, els: Else, pc: nat, end: nat)
    requires Ranked(kit, notation) && SafeElse(notation, els) && |code| < ARGS_LIMIT
    requires Holds(code, pc, LayoutElse(kit, els, pc, end)) && Height(code, pc) == 0
    requires end <= |code| && Height(code, end) == 0
    ensures LevelOn(code, pc, pc + SizeElse(kit, els))
    decreases els
  {
    ElseZero(code, kit, notation, els, pc, end);
    match els
    case EndIf(_) =>
    case ElseDo(_, b, _) =>
      HoldsSplit(code, pc, [Instr(Jump, end)], Layout(kit, b, 0, pc + 1));
      JumpLevel(code, pc, end);
      BlockLevel(code, kit, notation, b, 0, pc + 1);
      LevelJoin(code, pc, pc + 1, pc + SizeElse(kit, els));
    case ElseIf(_, br) =>
      HoldsSplit(code, pc, [Instr(Jump, end)], LayoutBranches(kit, br, pc + 1, end));
      JumpLevel(code, pc, end);
      BranchesLevel(code, kit, notation, br, pc + 1, end);
      LevelJoin(code, pc, pc + 1, pc + SizeElse(kit, els));
  }

  /** A tree's code keeps the discipline throughout. */
  lemma {:induction false} CompiledTemplateIsDisciplined(notation: Notation, b: seq<Stmt>)
    requires SafeBlock(notation, b, 0) && |TemplateCode(notation, b)| < ARGS_LIMIT
    ensures Disciplined(TemplateCode(notation, b))
  {
    var kit, code := Expressions(notation), TemplateCode(notation, b);
    ExpressionsAreRanked(notation);
    BlockZero(code, kit, notation, b, 0, 0);
    BlockLevel(code, kit, notation, b, 0, 0);
  }

  /** Stack discipline of a compiled template: at every point of every rendering the stack has the
      one height of the address, and the next instruction finds what it takes. */
  lemma {:induction false} CompiledTemplateHeights(cx: Context, b: seq<Stmt>, n: nat)
    requires SafeBlock(cx.notation, b, 0) && |TemplateCode(cx.notation, b)| < ARGS_LIMIT
    ensures var code := TemplateCode(cx.notation, b);
            var s := Rendering(code, cx.env, cx.root, n);
            s.At? ==>
              && s.st.pc <= |code| && |s.st.stack| == Height(code, s.st.pc)
              && (s.st.pc < |code| ==> 0 <= Takes(code[s.st.pc]) <= |s.st.stack|)
  {
    CompiledTemplateIsDisciplined(cx.notation, b);
    ReachableHeight(TemplateCode(cx.notation, b), cx.env, cx.root, n);
  }
}
