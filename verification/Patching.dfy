/** Back-patching: at every point of every run of emissions, the jumps without a target are exactly
    those the parser's two stacks hold, however ifs and loops are interleaved. */
module Patching {
  import opened Options
  import opened Bytecodes
  import opened Machine
  import opened Compiler
  import opened Assembler
  import opened Grammar

  predicate Spot(i: nat) {
    true
  }

  predicate IsJump(op: Op) {
    op == Jump || op == ConditionalJump
  }

  predicate Jumpy(op: Op) {
    IsJump(op) || op == StartLoop || op == EndLoop
  }

  /** Jumps: unset while held, otherwise forward and in range. */
  predicate JumpSet(code: seq<Bytecode>, i: nat, held: set<nat>)
    requires i < |code|
  {
    IsJump(code[i].op) ==> if i in held then code[i].args == 0 else i < code[i].args <= |code|
  }

  /** Loop starts: unset while open, otherwise they point to an end that points behind them. */
  predicate StartSet(code: seq<Bytecode>, i: nat, open: set<nat>)
    requires i < |code|
  {
    code[i].op == StartLoop ==>
      var end := code[i].args;
      if i in open then end == 0 else i < end < |code| && code[end].op == EndLoop && code[end].args == i + 1
  }

  /** Loop ends: they point behind a start that is closed and points to them. */
  predicate EndSet(code: seq<Bytecode>, i: nat, open: set<nat>)
    requires i < |code|
  {
    code[i].op == EndLoop ==>
      var body := code[i].args;
      1 <= body <= i && code[body - 1].op == StartLoop && body - 1 !in open && code[body - 1].args == i
  }

  ghost predicate Linked(code: seq<Bytecode>, held: set<nat>, open: set<nat>) {
    && (forall i: nat {:trigger Spot(i)} :: Spot(i) && i < |code| ==>
          JumpSet(code, i, held) && StartSet(code, i, open) && EndSet(code, i, open))
    && (forall i | i in held :: i < |code| && IsJump(code[i].op))
    && (forall i | i in open :: i < |code| && code[i].op == StartLoop)
  }

  // ----- what each kind of emission does to the links -----

  /** The same jumps and loop instructions at the same places. */
  predicate SameJumps(code: seq<Bytecode>, after: seq<Bytecode>) {
    && |code| <= |after|
    && (forall i | 0 <= i < |code| && Jumpy(code[i].op) :: after[i] == code[i])
    && (forall i | 0 <= i < |after| && Jumpy(after[i].op) :: i < |code| && after[i] == code[i])
  }

  lemma {:induction false} KeepsLinks(code: seq<Bytecode>, after: seq<Bytecode>, held: set<nat>, open: set<nat>)
    requires Linked(code, held, open) && SameJumps(code, after)
    ensures Linked(after, held, open)
  {
    forall i: nat | i < |after| ensures JumpSet(after, i, held) && StartSet(after, i, open) && EndSet(after, i, open) {
      assert Spot(i);
    }
  }

  lemma {:induction false} HoldsJump(code: seq<Bytecode>, bc: Bytecode, held: set<nat>, open: set<nat>)
    requires Linked(code, held, open) && IsJump(bc.op) && bc.args == 0
    ensures Linked(code + [bc], held + {|code|}, open)
  {
    var after := code + [bc];
    forall i: nat | i < |after|
      ensures JumpSet(after, i, held + {|code|}) && StartSet(after, i, open) && EndSet(after, i, open)
    {
      assert Spot(i);
    }
  }

  lemma {:induction false} OpensLoop(code: seq<Bytecode>, bc: Bytecode, held: set<nat>, open: set<nat>)
    requires Linked(code, held, open) && bc.op == StartLoop && bc.args == 0
    ensures Linked(code + [bc], held, open + {|code|})
  {
    var after, now := code + [bc], open + {|code|};
    forall i: nat | i < |after| ensures JumpSet(after, i, held) && StartSet(after, i, now) && EndSet(after, i, now) {
      assert Spot(i);
    }
  }

  lemma {:induction false} SetsJump(code: seq<Bytecode>, held: set<nat>, open: set<nat>, j: nat, addr: nat)
    requires Linked(code, held, open) && j < |code| < ARGS_LIMIT && IsJump(code[j].op) && j < addr <= |code|
    ensures Linked(Patch(code, j, addr), held - {j}, open)
  {
    var after := Patch(code, j, addr);
    assert Arg30(addr) == addr;
    forall i: nat | i < |after|
      ensures JumpSet(after, i, held - {j}) && StartSet(after, i, open) && EndSet(after, i, open)
    {
      assert Spot(i);
    }
  }

  lemma {:induction false} ClosesLoop(code: seq<Bytecode>, held: set<nat>, open: set<nat>, start: nat)
    requires Linked(code, held, open) && start in open && |code| < ARGS_LIMIT
    ensures Linked(Patch(code, start, |code|) + [Instr(EndLoop, start + 1)], held, open - {start})
  {
    var after, left := Patch(code, start, |code|) + [Instr(EndLoop, start + 1)], open - {start};
    assert start < |code|;
    assert Arg30(|code|) == |code| && Arg30(start + 1) == start + 1;
    forall i: nat | i < |after| ensures JumpSet(after, i, held) && StartSet(after, i, left) && EndSet(after, i, left) {
      assert Spot(i);
    }
  }

  function Elements(s: seq<nat>): set<nat> {
    set i | i in s
  }

  /** Patching a list of jumps sets those, and nothing else. */
  lemma {:induction false} PatchAllAt(code: seq<Bytecode>, jumps: seq<nat>, k: nat, addr: nat)
    requires k <= |jumps| && forall i | 0 <= i < |jumps| :: jumps[i] < |code|
    ensures forall i | 0 <= i < |code| ::
              PatchAll(code, jumps, k, addr)[i] ==
              if i in jumps[..k] then code[i].(args := Arg30(addr)) else code[i]
    decreases k
  {
    if k > 0 {
      PatchAllAt(code, jumps, k - 1, addr);
      assert jumps[..k] == jumps[..k - 1] + [jumps[k - 1]];
    }
  }

  lemma {:induction false} SetsAll(code: seq<Bytecode>, held: set<nat>, open: set<nat>, jumps: seq<nat>, k: nat)
    requires Linked(code, held, open) && |code| < ARGS_LIMIT && k <= |jumps|
    requires forall i | 0 <= i < |jumps| :: jumps[i] < |code| && IsJump(code[jumps[i]].op)
    ensures var after := PatchAll(code, jumps, k, |code|);
            && Linked(after, held - Elements(jumps[..k]), open)
            && forall i | 0 <= i < |jumps| :: IsJump(after[jumps[i]].op)
    decreases k
  {
    if k == 0 {
      assert held - Elements(jumps[..0]) == held;
    } else {
      SetsAll(code, held, open, jumps, k - 1);
      var before := PatchAll(code, jumps, k - 1, |code|);
      SetsJump(before, held - Elements(jumps[..k - 1]), open, jumps[k - 1], |code|);
      assert held - Elements(jumps[..k - 1]) - {jumps[k - 1]} == held - Elements(jumps[..k]);
    }
  }

  // ----- the stacks -----

  function EntryOf(d: IfData): seq<nat> {
    d.jumps + if d.prev.Some? then [d.prev.value] else []
  }

  /** All that the first n open ifs hold, in stack order. */
  function HeldBy(ifs: seq<IfData>, n: nat): seq<nat>
    requires n <= |ifs|
    decreases n, ifs
  {
    if n == 0 then [] else HeldBy(ifs, n - 1) + EntryOf(ifs[n - 1])
  }

  predicate Rising(s: seq<nat>) {
    forall i, j | 0 <= i < j < |s| :: s[i] < s[j]
  }

  /** The invariant. The stacks rise, so no jump is held twice. */
  ghost predicate Consistent(asm: Asm) {
    && Rising(HeldBy(asm.ifs, |asm.ifs|)) && Rising(asm.loops)
    && Linked(asm.code, Elements(HeldBy(asm.ifs, |asm.ifs|)), Elements(asm.loops))
  }

  lemma {:induction false} HeldPrefix(ifs: seq<IfData>, d: IfData, n: nat)
    requires n <= |ifs|
    ensures HeldBy(ifs + [d], n) == HeldBy(ifs, n)
    decreases n
  {
    if n > 0 {
      HeldPrefix(ifs, d, n - 1);
      assert (ifs + [d])[n - 1] == ifs[n - 1];
    }
  }

  lemma {:induction false} HeldPushed(ifs: seq<IfData>, d: IfData)
    ensures HeldBy(ifs + [d], |ifs| + 1) == HeldBy(ifs, |ifs|) + EntryOf(d)
  {
    HeldPrefix(ifs, d, |ifs|);
  }

  /** The stack apart from its top entry. */
  lemma {:induction false} HeldTop(asm: Asm)
    requires asm.ifs != []
    ensures HeldBy(asm.ifs, |asm.ifs|) == HeldBy(Below(asm), |Below(asm)|) + EntryOf(Top(asm))
  {
    assert asm.ifs == Below(asm) + [Top(asm)];
    HeldPushed(Below(asm), Top(asm));
  }

  /** What two parts of a rising sequence hold is apart. */
  lemma {:induction false} PartsApart(a: seq<nat>, b: seq<nat>)
    requires Rising(a + b)
    ensures Rising(a) && Rising(b) && Elements(a + b) - Elements(b) == Elements(a)
  {
    var s := a + b;
    forall i, j | 0 <= i < j < |a| ensures a[i] < a[j] {
      assert s[i] < s[j];
    }
    forall i, j | 0 <= i < j < |b| ensures b[i] < b[j] {
      assert s[|a| + i] < s[|a| + j];
    }
    forall i, j | 0 <= i < |a| && 0 <= j < |b| ensures a[i] != b[j] {
      assert s[i] < s[|a| + j];
    }
    assert forall x :: x in s <==> x in a || x in b;
  }

  lemma {:induction false} RisesOn(s: seq<nat>, n: nat)
    requires Rising(s) && forall i | i in s :: i < n
    ensures Rising(s + [n]) && Elements(s + [n]) == Elements(s) + {n}
  {
    forall i, j | 0 <= i < j < |s| + 1 ensures (s + [n])[i] < (s + [n])[j] {
      if j == |s| {
        assert s[i] in s;
      }
    }
  }

  // ----- each emission keeps the invariant -----

  /** default's swap moves expression code only. */
  predicate CleanSwap(asm: Asm) {
    var n := |asm.code|;
    n >= 2 ==> !Jumpy(asm.code[n - 1].op) && !Jumpy(asm.code[n - 2].op)
  }

  /** Emissions of expressions and text leave the jumps alone. */
  lemma {:induction false} PlainEmission(notation: Notation, asm: Asm, a: Action)
    requires a.EmitText? || a.PushLit? || a.PushVar? || a.EmitFn? || a.EmitCall? || a.EmitPrint?
             || (a.SwapLast? && CleanSwap(asm))
    requires Do(notation, asm, a).Fine?
    ensures var after := Do(notation, asm, a).asm;
            SameJumps(asm.code, after.code) && after.ifs == asm.ifs && after.loops == asm.loops
  {
  }

  /** All the ifs of a state hold. */
  function Held(asm: Asm): seq<nat> {
    HeldBy(asm.ifs, |asm.ifs|)
  }

  lemma {:induction false} HeldInRange(asm: Asm)
    requires Consistent(asm)
    ensures forall i | i in Held(asm) :: i < |asm.code| && IsJump(asm.code[i].op)
    ensures forall i | i in asm.loops :: i < |asm.code| && asm.code[i].op == StartLoop
  {
    assert forall i | i in Held(asm) :: i in Elements(Held(asm));
    assert forall i | i in asm.loops :: i in Elements(asm.loops);
  }

  lemma {:induction false} OpenIfKeeps(asm: Asm)
    requires Consistent(asm)
    ensures Consistent(Asm(asm.code + [Instr(ConditionalJump, 0)], asm.ifs + [IfData(Some(|asm.code|), [])], asm.loops))
  {
    HeldInRange(asm);
    HeldPushed(asm.ifs, IfData(Some(|asm.code|), []));
    assert EntryOf(IfData(Some(|asm.code|), [])) == [|asm.code|];
    RisesOn(Held(asm), |asm.code|);
    HoldsJump(asm.code, Instr(ConditionalJump, 0), Elements(Held(asm)), Elements(asm.loops));
  }

  lemma {:induction false} OpenForKeeps(asm: Asm, vars: LoopVars)
    requires Consistent(asm)
    ensures Consistent(Asm(asm.code + [StartInstr(vars)], asm.ifs, asm.loops + [|asm.code|]))
  {
    HeldInRange(asm);
    RisesOn(asm.loops, |asm.code|);
    OpensLoop(asm.code, StartInstr(vars), Elements(Held(asm)), Elements(asm.loops));
  }

  lemma {:induction false} CloseForKeeps(asm: Asm)
    requires Consistent(asm) && DoCloseFor(asm).Fine? && |asm.code| < ARGS_LIMIT
    ensures Consistent(DoCloseFor(asm).asm)
  {
    var below, start := asm.loops[..|asm.loops| - 1], asm.loops[|asm.loops| - 1];
    assert asm.loops == below + [start];
    PartsApart(below, [start]);
    assert Elements([start]) == {start};
    ClosesLoop(asm.code, Elements(Held(asm)), Elements(asm.loops), start);
  }

  /** endif sets all that its entry holds to the address behind the code, and changes nothing else. */
  lemma {:induction false} CloseIfSets(asm: Asm)
    requires DoCloseIf(asm).Fine?
    ensures var after := DoCloseIf(asm).asm;
            && |after.code| == |asm.code| && after.ifs == Below(asm) && after.loops == asm.loops
            && forall i | 0 <= i < |asm.code| ::
                 after.code[i] ==
                 if i in EntryOf(Top(asm)) then asm.code[i].(args := Arg30(|asm.code|)) else asm.code[i]
  {
    var top := Top(asm);
    var code := if top.prev.Some? then Patch(asm.code, top.prev.value, |asm.code|) else asm.code;
    PatchAllAt(code, top.jumps, |top.jumps|, |code|);
    assert top.jumps[..|top.jumps|] == top.jumps;
  }

  /** What is held below the entry that endif closes, and nothing else, is still unset. */
  lemma {:induction false} CloseIfLinks(asm: Asm)
    requires Consistent(asm) && DoCloseIf(asm).Fine? && |asm.code| < ARGS_LIMIT
    ensures Linked(DoCloseIf(asm).asm.code, Elements(Held(asm)) - Elements(EntryOf(Top(asm))), Elements(asm.loops))
  {
    var top, open, held := Top(asm), Elements(asm.loops), Elements(Held(asm));
    TopInRange(asm);
    assert top.jumps[..|top.jumps|] == top.jumps;
    if top.prev.None? {
      assert EntryOf(top) == top.jumps;
      SetsAll(asm.code, held, open, top.jumps, |top.jumps|);
    } else {
      SetsJump(asm.code, held, open, top.prev.value, |asm.code|);
      SetsAll(Patch(asm.code, top.prev.value, |asm.code|), held - {top.prev.value}, open, top.jumps, |top.jumps|);
      assert held - {top.prev.value} - Elements(top.jumps) == held - Elements(EntryOf(top));
    }
  }

  /** endif: the invariant is kept, whatever loops lie between; what the entry held is set to the
      address behind the code, and every other bytecode stays as it is. */
  lemma {:induction false} CloseIfKeeps(asm: Asm)
    requires Consistent(asm) && DoCloseIf(asm).Fine? && |asm.code| < ARGS_LIMIT
    ensures Consistent(DoCloseIf(asm).asm)
    ensures forall i | 0 <= i < |asm.code| ::
              DoCloseIf(asm).asm.code[i] ==
              if i in EntryOf(Top(asm)) then asm.code[i].(args := |asm.code|) else asm.code[i]
  {
    CloseIfSets(asm);
    CloseIfLinks(asm);
    HeldTop(asm);
    PartsApart(HeldBy(Below(asm), |Below(asm)|), EntryOf(Top(asm)));
  }

  lemma {:induction false} TopInRange(asm: Asm)
    requires Consistent(asm) && asm.ifs != []
    ensures var top := Top(asm);
            && (forall i | 0 <= i < |top.jumps| :: top.jumps[i] < |asm.code| && IsJump(asm.code[top.jumps[i]].op))
            && (top.prev.Some? ==> top.prev.value < |asm.code| && IsJump(asm.code[top.prev.value].op))
  {
    HeldInRange(asm);
    HeldTop(asm);
    var top, held := Top(asm), Held(asm);
    forall i | i in EntryOf(top) ensures i < |asm.code| && IsJump(asm.code[i].op) {
      assert i in held;
    }
    assert top.prev.Some? ==> top.prev.value in EntryOf(top);
    assert forall i | 0 <= i < |top.jumps| :: top.jumps[i] in EntryOf(top);
  }

  /** The last held jump is set behind a new one, which is held in its place. */
  lemma {:induction false} TurnsOver(code: seq<Bytecode>, front: seq<nat>, prev: nat, open: set<nat>)
    requires Linked(code, Elements(front + [prev]), open) && Rising(front + [prev]) && |code| + 1 < ARGS_LIMIT
    requires prev < |code| && IsJump(code[prev].op) && forall i | i in front :: i < |code|
    ensures Linked(Patch(code + [Instr(Jump, 0)], prev, |code| + 1), Elements(front + [|code|]), open)
    ensures Rising(front + [|code|])
  {
    var n, held := |code|, Elements(front + [prev]);
    PartsApart(front, [prev]);
    assert Elements([prev]) == {prev};
    HoldsJump(code, Instr(Jump, 0), held, open);
    SetsJump(code + [Instr(Jump, 0)], held + {n}, open, prev, n + 1);
    RisesOn(front, n);
    assert held + {n} - {prev} == Elements(front + [n]);
  }

  /** What is held before an else, and after it. */
  lemma {:induction false} ElseHolds(asm: Asm, n: nat)
    requires asm.ifs != [] && Top(asm).prev.Some?
    ensures var front := HeldBy(Below(asm), |Below(asm)|) + Top(asm).jumps;
            && Held(asm) == front + [Top(asm).prev.value]
            && HeldBy(Below(asm) + [IfData(None, Top(asm).jumps + [n])], |asm.ifs|) == front + [n]
  {
    HeldTop(asm);
    HeldPushed(Below(asm), IfData(None, Top(asm).jumps + [n]));
  }

  /** else: the condition's jump is set, and the jump over the else branch is held in its place. */
  lemma {:induction false} BeginElseKeeps(asm: Asm)
    requires Consistent(asm) && DoBeginElse(asm).Fine? && |asm.code| + 1 < ARGS_LIMIT
    ensures Consistent(DoBeginElse(asm).asm)
  {
    var front := HeldBy(Below(asm), |Below(asm)|) + Top(asm).jumps;
    HeldInRange(asm);
    TopInRange(asm);
    ElseHolds(asm, |asm.code|);
    assert forall i | i in front :: i in Held(asm);
    TurnsOver(asm.code, front, Top(asm).prev.value, Elements(asm.loops));
  }

  /** else if: the chain's entry holds its new condition's jump. A chain is only opened on an
      entry whose last condition has been dealt with. */
  lemma {:induction false} ChainIfKeeps(asm: Asm)
    requires Consistent(asm) && asm.ifs != [] && Top(asm).prev.None?
    ensures Consistent(Asm(asm.code + [Instr(ConditionalJump, 0)],
                           Below(asm) + [Top(asm).(prev := Some(|asm.code|))], asm.loops))
  {
    var below, n, entry := Below(asm), |asm.code|, Top(asm).(prev := Some(|asm.code|));
    HeldInRange(asm);
    HeldTop(asm);
    HeldPushed(below, entry);
    assert HeldBy(below, |below|) + EntryOf(entry) == Held(asm) + [n];
    RisesOn(Held(asm), n);
    HoldsJump(asm.code, Instr(ConditionalJump, 0), Elements(Held(asm)), Elements(asm.loops));
  }

  // ----- every run of emissions -----

  /** default's swap moves expression code, and a condition is chained only to an entry whose
      last condition has been dealt with. */
  predicate Orderly(asm: Asm, a: Action) {
    && (a.SwapLast? ==> CleanSwap(asm))
    && (a.ChainIf? ==> asm.ifs == [] || Top(asm).prev.None?)
  }

  lemma {:induction false} EmissionGrows(notation: Notation, asm: Asm, a: Action)
    requires Do(notation, asm, a).Fine?
    ensures |asm.code| <= |Do(notation, asm, a).asm.code|
  {
  }

  lemma {:induction false} EmissionKeeps(notation: Notation, asm: Asm, a: Action)
    requires Consistent(asm) && Orderly(asm, a) && Do(notation, asm, a).Fine?
    requires |Do(notation, asm, a).asm.code| < ARGS_LIMIT
    ensures Consistent(Do(notation, asm, a).asm)
  {
    EmissionGrows(notation, asm, a);
    match a
    case OpenIf => OpenIfKeeps(asm);
    case BeginElse => BeginElseKeeps(asm);
    case ChainIf => ChainIfKeeps(asm);
    case CloseIf => CloseIfKeeps(asm);
    case OpenFor(vars) => OpenForKeeps(asm, vars);
    case CloseFor => CloseForKeeps(asm);
    case _ => PlainKeeps(notation, asm, a);
  }

  lemma {:induction false} PlainKeeps(notation: Notation, asm: Asm, a: Action)
    requires a.EmitText? || a.PushLit? || a.PushVar? || a.EmitFn? || a.EmitCall? || a.EmitPrint?
             || (a.SwapLast? && CleanSwap(asm))
    requires Do(notation, asm, a).Fine? && Consistent(asm)
    ensures Consistent(Do(notation, asm, a).asm)
  {
    PlainEmission(notation, asm, a);
    KeepsLinks(asm.code, Do(notation, asm, a).asm.code, Elements(Held(asm)), Elements(asm.loops));
  }

  predicate Turn(k: nat) {
    true
  }

  /** The first k emissions are orderly, each in the state it finds. */
  ghost predicate OrderlyRun(next: (Asm, Action) -> Built, acts: seq<Action>, k: nat)
    requires k <= |acts|
  {
    forall j: nat {:trigger Turn(j)} :: Turn(j) && j < k && DoFirst(next, EMPTY, acts, j).Fine? ==>
      Orderly(DoFirst(next, EMPTY, acts, j).asm, acts[j])
  }

  /** The back-patching invariant, at every point of every orderly run. */
  lemma {:induction false} RunKeeps(notation: Notation, acts: seq<Action>, k: nat)
    requires k <= |acts| && OrderlyRun(Emitter(notation), acts, k)
    requires var b := DoFirst(Emitter(notation), EMPTY, acts, k); b.Fine? && |b.asm.code| < ARGS_LIMIT
    ensures Consistent(DoFirst(Emitter(notation), EMPTY, acts, k).asm)
    decreases k
  {
    if k > 0 {
      var mid := DoFirst(Emitter(notation), EMPTY, acts, k - 1).asm;
      assert Turn(k - 1);
      EmissionGrows(notation, mid, acts[k - 1]);
      RunKeeps(notation, acts, k - 1);
      EmissionKeeps(notation, mid, acts[k - 1]);
    }
  }
}
