/** The one way a parse loses a jump: default of a literal and a call without arguments, right
    behind a jump. The two arguments merge into one bytecode, and the swap takes the jump for the
    other. The jump ends up where neither stack knows it. */
module Displacement {
  import opened Options
  import opened Json
  import opened Bytecodes
  import opened Machine
  import opened Compiler
  import opened Assembler
  import opened Patching
  import opened Chaining

  // ----- on emissions -----

  predicate EmitsJump(a: Action) {
    a.OpenIf? || a.BeginElse? || a.ChainIf? || a.OpenFor? || a.CloseFor?
  }

  /** The last bytecode emitted so far is a jump, or starts or ends a loop. An endif emits none. */
  predicate EndsInJump(acts: seq<Action>, k: nat)
    requires k <= |acts|
    decreases k, acts
  {
    k > 0 && (EmitsJump(acts[k - 1]) || (acts[k - 1].CloseIf? && EndsInJump(acts, k - 1)))
  }

  predicate Displaces(acts: seq<Action>, k: nat)
    requires k <= |acts|
  {
    && k + 2 < |acts| && acts[k].PushLit? && acts[k + 1].EmitCall? && acts[k + 1].n == 0 && acts[k + 2].SwapLast?
    && EndsInJump(acts, k)
  }

  ghost predicate NoneDisplaced(acts: seq<Action>, n: nat)
    requires n <= |acts|
  {
    forall k: nat {:trigger Turn(k)} :: Turn(k) && k < n ==> !Displaces(acts, k)
  }

  // ----- on code -----

  /** The state after k emissions. */
  function After(notation: Notation, acts: seq<Action>, k: nat): Built
    requires k <= |acts|
  {
    DoFirst(Emitter(notation), EMPTY, acts, k)
  }

  function Last(asm: Asm): Bytecode
    requires asm.code != []
  {
    asm.code[|asm.code| - 1]
  }

  predicate LastIsJumpy(asm: Asm) {
    asm.code != [] && Jumpy(Last(asm).op)
  }

  lemma {:induction false} AfterNext(notation: Notation, acts: seq<Action>, k: nat)
    requires k < |acts| && After(notation, acts, k + 1).Fine?
    ensures After(notation, acts, k).Fine?
    ensures After(notation, acts, k + 1) == Do(notation, After(notation, acts, k).asm, acts[k])
  {
    assert DoFirst(Emitter(notation), EMPTY, acts, k + 1) ==
           match DoFirst(Emitter(notation), EMPTY, acts, k)
           case Fine(mid) => Emitter(notation)(mid, acts[k])
           case Rejected => Rejected
           case Broken => Broken;
  }

  /** An operand's emission appends a bytecode, or merges into a push that comes last. */
  lemma {:induction false} AppendsOrMerges(notation: Notation, asm: Asm, a: Action)
    requires IsOperand(a) && !a.SwapLast? && Do(notation, asm, a).Fine?
    ensures var after, n := Do(notation, asm, a).asm, |asm.code|;
            && after.ifs == asm.ifs && after.loops == asm.loops && after.code != [] && !LastIsJumpy(after)
            && (EndsWithPush(after.code) <==> a.PushLit? || a.PushVar?)
            && (EndsWithLiteral(after.code) ==> a.PushLit?)
            && (|| (|after.code| == n + 1 && after.code[..n] == asm.code)
                || (&& EndsWithPush(asm.code) && |after.code| == n && after.code[..n - 1] == asm.code[..n - 1]
                    && (a.EmitFn? || (a.EmitCall? && EndsWithLiteral(asm.code)))))
  {
  }

  /** Other emissions say themselves whether they end in a jump, but for endif, which emits nothing. */
  lemma {:induction false} StatementLast(notation: Notation, asm: Asm, a: Action)
    requires !IsOperand(a) && Do(notation, asm, a).Fine?
    ensures var after := Do(notation, asm, a).asm;
            && (LastIsJumpy(after) <==> EmitsJump(a) || (a.CloseIf? && LastIsJumpy(asm)))
            && (EndsWithPush(after.code) ==> a.CloseIf? && EndsWithPush(asm.code))
  {
    if a.CloseIf? {
      CloseIfSets(asm);
    }
  }

  /** Except right behind a swap, the emissions tell whether the code ends in a jump. */
  lemma {:induction false} LastMeans(notation: Notation, acts: seq<Action>, k: nat)
    requires k <= |acts| && SwapsBacked(acts) && After(notation, acts, k).Fine? && (k > 0 ==> !acts[k - 1].SwapLast?)
    ensures LastIsJumpy(After(notation, acts, k).asm) <==> EndsInJump(acts, k)
    decreases k
  {
    if k > 0 {
      AfterNext(notation, acts, k - 1);
      var mid := After(notation, acts, k - 1).asm;
      if IsOperand(acts[k - 1]) {
        AppendsOrMerges(notation, mid, acts[k - 1]);
      } else {
        StatementLast(notation, mid, acts[k - 1]);
        NoSwapBefore(acts, k - 1);
        LastMeans(notation, acts, k - 1);
      }
    }
  }

  /** Behind a swap comes default. */
  lemma {:induction false} NoSwapBefore(acts: seq<Action>, k: nat)
    requires k < |acts| && SwapsBacked(acts) && acts[k] != EmitFn(DefaultFn, 2)
    ensures k > 0 ==> !acts[k - 1].SwapLast?
  {
    if k > 0 {
      assert Turn(k - 1);
    }
  }

  // ----- a swap meets a jump exactly there -----

  /** A swap that meets a jump has the pattern before it. */
  lemma {:induction false} DirtySwapDisplaces(notation: Notation, acts: seq<Action>, j: nat)
    requires j < |acts| && SwapsBacked(acts) && acts[j].SwapLast? && After(notation, acts, j).Fine?
    requires !CleanSwap(After(notation, acts, j).asm)
    ensures j >= 2 && Displaces(acts, j - 2)
    decreases j
  {
    assert Turn(j);
    NoSwapBefore(acts, j);
    if j >= 2 && acts[j - 2].SwapLast? {
      CleanBehindDefault(notation, acts, j);
      assert false;
    } else {
      DirtyBehindOperand(notation, acts, j);
    }
  }

  /** Two swaps in a row: had the inner one met the jump, it would have more operands waiting than
      the pattern has. */
  lemma {:induction false} CleanBehindDefault(notation: Notation, acts: seq<Action>, j: nat)
    requires 2 <= j < |acts| && SwapsBacked(acts) && acts[j].SwapLast? && acts[j - 2].SwapLast?
    requires After(notation, acts, j).Fine?
    ensures CleanSwap(After(notation, acts, j).asm)
    decreases j, 0
  {
    assert Turn(j) && Turn(j - 2);
    AfterNext(notation, acts, j - 1);
    AfterNext(notation, acts, j - 2);
    assert Depth(acts, j) == Depth(acts, j - 1) - 1 && Depth(acts, j - 1) == Depth(acts, j - 2);
    if CleanSwap(After(notation, acts, j - 2).asm) {
      CleanThenClean(notation, After(notation, acts, j - 2).asm);
    } else {
      DirtySwapDisplaces(notation, acts, j - 2);
      PatternDepth(acts, j - 4);
      assert false;
    }
  }

  /** A push comes behind a jump exactly when the emissions before it say so. */
  lemma {:induction false} PushBehindJump(notation: Notation, acts: seq<Action>, k: nat)
    requires 0 < k <= |acts| && SwapsBacked(acts) && After(notation, acts, k).Fine?
    requires acts[k - 1].PushLit? || acts[k - 1].PushVar?
    requires var code := After(notation, acts, k).asm.code; |code| >= 2 && Jumpy(code[|code| - 2].op)
    ensures EndsInJump(acts, k - 1) && Depth(acts, k - 1) <= 0
    decreases k
  {
    AfterNext(notation, acts, k - 1);
    NoSwapBefore(acts, k - 1);
    LastMeans(notation, acts, k - 1);
  }

  /** Behind an operand other than default's, the code does not end in a jump. */
  lemma {:induction false} OperandLast(notation: Notation, acts: seq<Action>, k: nat)
    requires 0 < k <= |acts| && IsOperand(acts[k - 1]) && !acts[k - 1].SwapLast? && After(notation, acts, k).Fine?
    ensures !LastIsJumpy(After(notation, acts, k).asm)
    decreases k
  {
    AfterNext(notation, acts, k - 1);
    AppendsOrMerges(notation, After(notation, acts, k - 1).asm, acts[k - 1]);
  }

  /** A swap meets no jump when the operand before it is a bytecode of its own. */
  lemma {:induction false} CleanBehindAppended(notation: Notation, acts: seq<Action>, j: nat)
    requires 0 < j < |acts| && acts[j].SwapLast? && IsOperand(acts[j - 1]) && !acts[j - 1].SwapLast?
    requires Depth(acts, j) >= 2 && (j >= 2 ==> !acts[j - 2].SwapLast?) && After(notation, acts, j).Fine?
    requires After(notation, acts, j - 1).Fine?
    requires |After(notation, acts, j).asm.code| == |After(notation, acts, j - 1).asm.code| + 1
    ensures CleanSwap(After(notation, acts, j).asm)
    decreases j
  {
    AfterNext(notation, acts, j - 1);
    AppendsOrMerges(notation, After(notation, acts, j - 1).asm, acts[j - 1]);
    assert Depth(acts, j) == Depth(acts, j - 1) + Rise(acts[j - 1]);
    OperandLast(notation, acts, j - 1);
  }

  lemma {:induction false} SameBefore(xs: seq<Bytecode>, ys: seq<Bytecode>, i: nat)
    requires i < |xs| && i < |ys| && xs[..i + 1] == ys[..i + 1]
    ensures xs[i] == ys[i]
  {
    assert xs[i] == xs[..i + 1][i];
  }

  /** A swap that meets a jump behind an operand that has been merged into a push. */
  lemma {:induction false} DirtyBehindMerged(notation: Notation, acts: seq<Action>, j: nat)
    requires 2 <= j < |acts| && SwapsBacked(acts) && acts[j].SwapLast? && After(notation, acts, j).Fine?
    requires IsOperand(acts[j - 1]) && !acts[j - 1].SwapLast? && !acts[j - 2].SwapLast?
    requires After(notation, acts, j - 1).Fine?
    requires |After(notation, acts, j).asm.code| == |After(notation, acts, j - 1).asm.code|
    requires !CleanSwap(After(notation, acts, j).asm) && IsOperand(acts[j - 2])
    ensures Displaces(acts, j - 2)
    decreases j
  {
    assert Turn(j);
    var mid, after := After(notation, acts, j - 1).asm, After(notation, acts, j).asm;
    var n := |mid.code|;
    AfterNext(notation, acts, j - 1);
    AfterNext(notation, acts, j - 2);
    AppendsOrMerges(notation, mid, acts[j - 1]);
    AppendsOrMerges(notation, After(notation, acts, j - 2).asm, acts[j - 2]);
    SameBefore(mid.code, after.code, n - 2);
    PushBehindJump(notation, acts, j - 1);
    assert Depth(acts, j) == Depth(acts, j - 2) + Rise(acts[j - 2]) + Rise(acts[j - 1]);
  }

  /** A swap that meets a jump behind an operand other than default's. */
  lemma {:induction false} DirtyBehindOperand(notation: Notation, acts: seq<Action>, j: nat)
    requires 0 < j < |acts| && SwapsBacked(acts) && acts[j].SwapLast? && After(notation, acts, j).Fine?
    requires IsOperand(acts[j - 1]) && !acts[j - 1].SwapLast? && (j >= 2 ==> !acts[j - 2].SwapLast?)
    requires !CleanSwap(After(notation, acts, j).asm)
    ensures j >= 2 && Displaces(acts, j - 2)
    decreases j
  {
    assert Turn(j);
    AfterNext(notation, acts, j - 1);
    AppendsOrMerges(notation, After(notation, acts, j - 1).asm, acts[j - 1]);
    assert Depth(acts, j) == Depth(acts, j - 1) + Rise(acts[j - 1]);
    if |After(notation, acts, j).asm.code| == |After(notation, acts, j - 1).asm.code| {
      DirtyBehindMerged(notation, acts, j);
    } else {
      CleanBehindAppended(notation, acts, j);
      assert false;
    }
  }

  /** The pattern starts a run of operands. */
  lemma {:induction false} PatternDepth(acts: seq<Action>, k: nat)
    requires k <= |acts| && Displaces(acts, k)
    ensures Depth(acts, k) == 0 && Depth(acts, k + 1) == 1 && Depth(acts, k + 2) == 2 && Depth(acts, k + 3) == 2
  {
  }

  lemma {:induction false} CleanThenClean(notation: Notation, asm: Asm)
    requires CleanSwap(asm) && Do(notation, asm, SwapLast).Fine?
    ensures var mid := Do(notation, asm, SwapLast).asm;
            CleanSwap(Do(notation, mid, EmitFn(DefaultFn, 2)).asm)
  {
  }

  // ----- a displaced jump is never set -----

  /** A bytecode that neither stack holds. */
  predicate Rests(asm: Asm, p: nat, bc: Bytecode) {
    p < |asm.code| && asm.code[p] == bc && p !in Held(asm) && p !in asm.loops
  }

  /** No emission moves or patches it, but a swap near the end of the code. */
  lemma {:induction false} StillRests(notation: Notation, asm: Asm, a: Action, p: nat, bc: Bytecode)
    requires Rests(asm, p, bc) && bc.op != Push && Do(notation, asm, a).Fine?
    requires a.SwapLast? ==> p + 2 < |asm.code|
    ensures Rests(Do(notation, asm, a).asm, p, bc)
  {
    match a
    case OpenIf => HeldPushed(asm.ifs, IfData(Some(|asm.code|), []));
    case BeginElse => TopTurns(asm, IfData(None, Top(asm).jumps + [|asm.code|]));
    case ChainIf => TopTurns(asm, Top(asm).(prev := Some(|asm.code|)));
    case CloseIf =>
      CloseIfSets(asm);
      HeldTop(asm);
    case CloseFor =>
    case _ =>
  }

  /** The top entry with another jump in it. */
  lemma {:induction false} TopTurns(asm: Asm, entry: IfData)
    requires asm.ifs != [] && forall i | i in EntryOf(entry) :: i in EntryOf(Top(asm)) || i == |asm.code|
    ensures forall i | i in HeldBy(Below(asm) + [entry], |asm.ifs|) :: i in Held(asm) || i == |asm.code|
    ensures Top(asm).prev.Some? ==> Top(asm).prev.value in Held(asm)
  {
    HeldTop(asm);
    HeldPushed(Below(asm), entry);
  }

  /** Emissions can no longer reach the bytecode at p: either two bytecodes stand behind it, or one that
      nothing merges into, with too few operands waiting for a swap. */
  predicate Buried(acts: seq<Action>, code: seq<Bytecode>, p: nat, k: nat)
    requires k <= |acts|
  {
    |code| >= p + 3 || (|code| == p + 2 && !EndsWithPush(code) && Depth(acts, k) <= 1)
  }

  lemma {:induction false} StillBuried(notation: Notation, asm: Asm, acts: seq<Action>, p: nat, k: nat)
    requires k < |acts| && Buried(acts, asm.code, p, k) && SwapAt(acts, k) && Do(notation, asm, acts[k]).Fine?
    ensures Buried(acts, Do(notation, asm, acts[k]).asm.code, p, k + 1)
    ensures acts[k].SwapLast? ==> p + 2 < |asm.code|
  {
    EmissionGrows(notation, asm, acts[k]);
    if acts[k].CloseIf? {
      StatementLast(notation, asm, acts[k]);
      CloseIfSets(asm);
    }
  }

  lemma {:induction false} RestsForGood(notation: Notation, acts: seq<Action>, k: nat, last: nat, p: nat, bc: Bytecode,
                                        j: nat)
    requires k <= j <= |acts| && SwapsBacked(acts) && After(notation, acts, j).Fine?
    requires p <= last && bc.op != Push
    requires After(notation, acts, k).Fine?
    requires Rests(After(notation, acts, k).asm, p, bc) && Buried(acts, After(notation, acts, k).asm.code, last, k)
    ensures Rests(After(notation, acts, j).asm, p, bc) && Buried(acts, After(notation, acts, j).asm.code, last, j)
    decreases j
  {
    if k < j {
      assert Turn(j - 1);
      AfterNext(notation, acts, j - 1);
      RestsForGood(notation, acts, k, last, p, bc, j - 1);
      StillBuried(notation, After(notation, acts, j - 1).asm, acts, last, j - 1);
      StillRests(notation, After(notation, acts, j - 1).asm, acts[j - 1], p, bc);
    }
  }

  /** The code with its last bytecode, a jump, one place further on. */
  predicate Pushed(asm: Asm, after: Asm) {
    var m := |asm.code|;
    && m > 0 && |after.code| == m + 2 && after.code[..m - 1] == asm.code[..m - 1] && after.code[m] == asm.code[m - 1]
    && after.code[m + 1].op == Fn(DefaultFn) && after.ifs == asm.ifs && after.loops == asm.loops
  }

  lemma {:induction false} FourSteps(notation: Notation, asm: Asm, v: Value, name: string)
    requires LastIsJumpy(asm)
    ensures var three := Emit(asm, PushLiteral(v).(op := Callback, args := 0, str := name));
            && Do(notation, Do(notation, asm, PushLit(v)).asm, EmitCall(name, 0)) == Fine(three)
            && Do(notation, three, SwapLast).Fine?
            && var four := Do(notation, Do(notation, three, SwapLast).asm, EmitFn(DefaultFn, 2)); Pushed(asm, four.asm)
  {
  }

  lemma {:induction false} DisplacesJump(notation: Notation, acts: seq<Action>, k: nat)
    requires k <= |acts| && Displaces(acts, k) && SwapsBacked(acts)
    requires k + 4 <= |acts| ==> After(notation, acts, k + 4).Fine?
    ensures k + 4 <= |acts| && After(notation, acts, k).Fine? && LastIsJumpy(After(notation, acts, k).asm)
    ensures Pushed(After(notation, acts, k).asm, After(notation, acts, k + 4).asm) && Depth(acts, k + 4) == 1
  {
    assert Turn(k + 2);
    AfterNext(notation, acts, k + 3);
    AfterNext(notation, acts, k + 2);
    AfterNext(notation, acts, k + 1);
    AfterNext(notation, acts, k);
    NoSwapBefore(acts, k);
    LastMeans(notation, acts, k);
    FourSteps(notation, After(notation, acts, k).asm, acts[k].v, acts[k + 1].name);
    PatternDepth(acts, k);
  }

  // ----- and it breaks the links -----

  lemma {:induction false} CodeGrows(notation: Notation, acts: seq<Action>, k: nat, j: nat)
    requires k <= j <= |acts| && After(notation, acts, j).Fine?
    ensures After(notation, acts, k).Fine?
    ensures |After(notation, acts, k).asm.code| <= |After(notation, acts, j).asm.code|
    decreases j
  {
    if k < j {
      AfterNext(notation, acts, j - 1);
      EmissionGrows(notation, After(notation, acts, j - 1).asm, acts[j - 1]);
      CodeGrows(notation, acts, k, j - 1);
    }
  }

  /** A jump that points no further than itself, or a loop end away from where its start points. */
  predicate Astray(code: seq<Bytecode>, p: nat, q: nat) {
    && q < p < |code|
    && match code[p].op
       case EndLoop => code[p].args == q + 1 && code[q].op == StartLoop && code[q].args != p
       case _ => (IsJump(code[p].op) || code[p].op == StartLoop) && code[p].args <= p
  }

  lemma {:induction false} AstrayIsUnset(code: seq<Bytecode>, p: nat, q: nat)
    requires Astray(code, p, q)
    ensures !Linked(code, {}, {})
  {
    assert Spot(p);
  }

  /** Where a loop end's start is. */
  function Partner(bc: Bytecode): nat {
    if bc.op == EndLoop && bc.args > 0 then bc.args - 1 else 0
  }

  /** A loop end at the end of consistent code has its start before it, which no stack holds. */
  lemma {:induction false} PartnerRests(asm: Asm)
    requires Consistent(asm) && asm.code != [] && Last(asm).op == EndLoop
    ensures var q := Partner(Last(asm));
            q < |asm.code| - 1 && asm.code[q].op == StartLoop && Rests(asm, q, asm.code[q])
  {
    HeldInRange(asm);
    assert Spot(|asm.code| - 1);
  }

  /** The last bytecode of consistent code, moved on by one, is astray. */
  lemma {:induction false} MovedIsAstray(asm: Asm, code: seq<Bytecode>)
    requires Consistent(asm) && LastIsJumpy(asm) && |code| > |asm.code| && code[|asm.code|] == Last(asm)
    requires var q := Partner(Last(asm));
             Last(asm).op == EndLoop && q < |asm.code| ==> code[q] == asm.code[q]
    ensures Astray(code, |asm.code|, Partner(Last(asm)))
  {
    HeldInRange(asm);
    assert Spot(|asm.code| - 1);
  }

  /** Right behind the swap, the jump rests one place further on, and its partner where it was. */
  lemma {:induction false} MovedRests(asm: Asm, moved: Asm)
    requires Consistent(asm) && LastIsJumpy(asm) && Pushed(asm, moved)
    ensures Rests(moved, |asm.code|, Last(asm))
    ensures Last(asm).op == EndLoop ==>
              var q := Partner(Last(asm));
              q < |asm.code| && asm.code[q].op == StartLoop && Rests(moved, q, asm.code[q])
  {
    HeldInRange(asm);
    if Last(asm).op == EndLoop {
      PartnerRests(asm);
      var q := Partner(Last(asm));
      assert moved.code[q] == moved.code[..|asm.code| - 1][q] == asm.code[..|asm.code| - 1][q];
    }
  }

  /** Once displaced, a jump of consistent code is astray for good. */
  lemma {:induction false} DisplacedIsNeverSet(notation: Notation, acts: seq<Action>, k: nat)
    requires k <= |acts| && Displaces(acts, k) && SwapsBacked(acts) && After(notation, acts, |acts|).Fine?
    requires After(notation, acts, k).Fine? && Consistent(After(notation, acts, k).asm)
    ensures !Linked(After(notation, acts, |acts|).asm.code, {}, {})
  {
    assert Turn(k + 2);
    CodeGrows(notation, acts, k + 4, |acts|);
    DisplacesJump(notation, acts, k);
    StaysAstray(notation, acts, k, k + 4);
  }

  lemma {:induction false} StaysAstray(notation: Notation, acts: seq<Action>, k: nat, j: nat)
    requires k <= j <= |acts| && SwapsBacked(acts) && After(notation, acts, |acts|).Fine?
    requires After(notation, acts, k).Fine? && After(notation, acts, j).Fine? && Depth(acts, j) == 1
    requires var asm, moved := After(notation, acts, k).asm, After(notation, acts, j).asm;
             Consistent(asm) && LastIsJumpy(asm) && Pushed(asm, moved)
    ensures !Linked(After(notation, acts, |acts|).asm.code, {}, {})
  {
    var asm := After(notation, acts, k).asm;
    var m, q, end := |asm.code|, Partner(Last(asm)), After(notation, acts, |acts|).asm.code;
    MovedRests(asm, After(notation, acts, j).asm);
    RestsForGood(notation, acts, j, m, m, Last(asm), |acts|);
    if Last(asm).op == EndLoop {
      RestsForGood(notation, acts, j, m, q, asm.code[q], |acts|);
    }
    MovedIsAstray(asm, end);
    AstrayIsUnset(end, m, q);
  }
}
