/** When a parse is undefined: a second else, or a template that begins with default of a literal and
    a call without arguments. Nothing else makes it so. */
module Undefinedness {
  import opened Options
  import opened Json
  import opened Bytecodes
  import opened Machine
  import opened Tokens
  import opened Syntax
  import opened Compiler
  import opened Assembler
  import opened Patching
  import opened Chaining
  import opened Displacement
  import opened Targets
  import opened Linear
  import opened RoundTripBlocks
  import Grammar
  import LostConditions

  // ----- what the stacks hold is in the code -----

  ghost predicate Bounded(asm: Asm) {
    && (forall i | 0 <= i < |asm.ifs| :: InRange(asm.ifs[i], |asm.code|))
    && (forall i | 0 <= i < |asm.loops| :: asm.loops[i] < |asm.code|)
  }

  lemma {:induction false} StaysBounded(notation: Notation, asm: Asm, a: Action)
    requires Bounded(asm) && Do(notation, asm, a).Fine?
    ensures Bounded(Do(notation, asm, a).asm)
  {
    EmissionGrows(notation, asm, a);
  }

  lemma {:induction false} AlwaysBounded(notation: Notation, acts: seq<Action>, k: nat)
    requires k <= |acts| && After(notation, acts, k).Fine?
    ensures Bounded(After(notation, acts, k).asm)
    decreases k
  {
    if k > 0 {
      AfterNext(notation, acts, k - 1);
      AlwaysBounded(notation, acts, k - 1);
      StaysBounded(notation, After(notation, acts, k - 1).asm, acts[k - 1]);
    }
  }

  /** An else whose if has been through an else already. */
  predicate SecondElse(notation: Notation, acts: seq<Action>, k: nat)
    requires k < |acts|
  {
    var b := After(notation, acts, k);
    acts[k].BeginElse? && b.Fine? && b.asm.ifs != [] && Top(b.asm).prev.None?
  }

  /** A swap with nothing to swap. */
  predicate ShortSwap(notation: Notation, acts: seq<Action>, k: nat)
    requires k < |acts|
  {
    var b := After(notation, acts, k);
    acts[k].SwapLast? && b.Fine? && |b.asm.code| < 2
  }

  lemma {:induction false} BreaksExactly(notation: Notation, acts: seq<Action>, k: nat)
    requires k < |acts| && Ordered(acts) && After(notation, acts, k).Fine?
    ensures Do(notation, After(notation, acts, k).asm, acts[k]).Broken? <==>
            SecondElse(notation, acts, k) || ShortSwap(notation, acts, k)
  {
    AlwaysBounded(notation, acts, k);
    assert Turn(k);
    if acts[k].ChainIf? {
      BehindElseNothingIsPending(notation, acts, k);
    }
  }

  // ----- a swap is short at the very start only -----

  /** Only before the first emission is there no code. */
  lemma {:induction false} NoCodeNoEmission(notation: Notation, acts: seq<Action>, k: nat)
    requires k <= |acts| && After(notation, acts, k).Fine? && After(notation, acts, k).asm.code == []
    ensures k == 0
    decreases k
  {
    if k > 0 {
      AfterNext(notation, acts, k - 1);
      if acts[k - 1].CloseIf? {
        CloseIfSets(After(notation, acts, k - 1).asm);
        NoCodeNoEmission(notation, acts, k - 1);
        assert false;
      }
    }
  }

  /** The first emissions are a literal, a call without arguments and a swap. */
  predicate StartsMerged(acts: seq<Action>) {
    |acts| >= 3 && acts[0].PushLit? && acts[1].EmitCall? && acts[1].n == 0 && acts[2].SwapLast?
  }

  lemma {:induction false} StartsMergedIsShort(notation: Notation, acts: seq<Action>)
    requires StartsMerged(acts)
    ensures ShortSwap(notation, acts, 2)
  {
    assert After(notation, acts, 0) == Fine(EMPTY);
    assert After(notation, acts, 1) == Fine(Asm([PushLiteral(acts[0].v)], [], []));
  }

  /** Behind an operand other than default's there is code. */
  lemma {:induction false} OperandHasCode(notation: Notation, acts: seq<Action>, k: nat)
    requires 0 < k <= |acts| && IsOperand(acts[k - 1]) && !acts[k - 1].SwapLast? && After(notation, acts, k).Fine?
    ensures After(notation, acts, k).asm.code != []
  {
    AfterNext(notation, acts, k - 1);
    AppendsOrMerges(notation, After(notation, acts, k - 1).asm, acts[k - 1]);
  }

  lemma {:induction false} NotShortBehindDefault(notation: Notation, acts: seq<Action>, j: nat)
    requires 2 <= j < |acts| && SwapsBacked(acts) && acts[j - 2].SwapLast? && After(notation, acts, j).Fine?
    ensures |After(notation, acts, j).asm.code| >= 2
  {
    AfterNext(notation, acts, j - 1);
    AfterNext(notation, acts, j - 2);
    EmissionGrows(notation, After(notation, acts, j - 1).asm, acts[j - 1]);
  }

  lemma {:induction false} ShortBehindMerged(notation: Notation, acts: seq<Action>, j: nat)
    requires 2 <= j < |acts| && SwapsBacked(acts) && Depth(acts, j) >= 2 && After(notation, acts, j).Fine?
    requires IsOperand(acts[j - 1]) && !acts[j - 1].SwapLast? && IsOperand(acts[j - 2]) && !acts[j - 2].SwapLast?
    requires After(notation, acts, j - 1).Fine?
    requires |After(notation, acts, j).asm.code| == |After(notation, acts, j - 1).asm.code| == 1
    ensures j == 2 && acts[0].PushLit? && acts[1].EmitCall? && acts[1].n == 0
  {
    AfterNext(notation, acts, j - 1);
    AfterNext(notation, acts, j - 2);
    AppendsOrMerges(notation, After(notation, acts, j - 1).asm, acts[j - 1]);
    AppendsOrMerges(notation, After(notation, acts, j - 2).asm, acts[j - 2]);
    NoCodeNoEmission(notation, acts, j - 2);
    assert Depth(acts, 0) == 0;
    assert Depth(acts, j) == Depth(acts, j - 2) + Rise(acts[j - 2]) + Rise(acts[j - 1]);
  }

  lemma {:induction false} ShortSwapStarts(notation: Notation, acts: seq<Action>, j: nat)
    requires j < |acts| && SwapsBacked(acts) && ShortSwap(notation, acts, j)
    ensures j == 2 && StartsMerged(acts)
  {
    assert Turn(j);
    NoSwapBefore(acts, j);
    AfterNext(notation, acts, j - 1);
    AppendsOrMerges(notation, After(notation, acts, j - 1).asm, acts[j - 1]);
    assert Depth(acts, j) == Depth(acts, j - 1) + Rise(acts[j - 1]);
    if acts[j - 2].SwapLast? {
      NotShortBehindDefault(notation, acts, j);
      assert false;
    } else {
      OperandHasCode(notation, acts, j - 1);
      ShortBehindMerged(notation, acts, j);
    }
  }

  // ----- the parse -----

  lemma {:induction false} FirstBreak(notation: Notation, acts: seq<Action>, n: nat) returns (k: nat)
    requires n <= |acts| && After(notation, acts, n).Broken?
    ensures k < n && After(notation, acts, k).Fine? && Do(notation, After(notation, acts, k).asm, acts[k]).Broken?
    decreases n
  {
    if After(notation, acts, n - 1).Fine? {
      k := n - 1;
    } else {
      k := FirstBreak(notation, acts, n - 1);
    }
  }

  /** Whatever the tokens, the parse is undefined if and only if it comes to a second else, or the
      template's first emissions are a literal, a call without arguments and default's swap. */
  lemma {:induction false} UndefinedExactly(g: Grammar.Source, notation: Notation)
    requires Grammar.Ended(g) && ByArity(g)
    ensures var acts := Grammar.ParseTemplate(g, 0).acts;
            Grammar.Parse(g, notation).Undefined? <==>
            StartsMerged(acts) || exists k: nat :: k < |acts| && SecondElse(notation, acts, k)
  {
    var acts := Grammar.ParseTemplate(g, 0).acts;
    TemplateOrders(g, 0);
    if After(notation, acts, |acts|).Broken? {
      var k := FirstBreak(notation, acts, |acts|);
      BreaksExactly(notation, acts, k);
      if ShortSwap(notation, acts, k) {
        ShortSwapStarts(notation, acts, k);
      }
    }
    if StartsMerged(acts) {
      StartsMergedIsShort(notation, acts);
      Breaks(notation, acts, 2);
    }
    if k: nat :| k < |acts| && SecondElse(notation, acts, k) {
      Breaks(notation, acts, k);
    }
  }

  lemma {:induction false} Breaks(notation: Notation, acts: seq<Action>, k: nat)
    requires k < |acts| && Ordered(acts) && (SecondElse(notation, acts, k) || ShortSwap(notation, acts, k))
    ensures After(notation, acts, |acts|).Broken?
  {
    BreaksExactly(notation, acts, k);
    StuckStays(Emitter(notation), EMPTY, acts, k + 1, |acts|);
  }

  // ----- a template that begins so -----

  /** {{ default(1, context()) }}, and whatever follows. */
  lemma {:induction false} MergedStartIsUndefined(g: Grammar.Source, notation: Notation, b: seq<Stmt>)
    requires b != [] && b[0] == Print(LostConditions.OneOrContext())
    requires PrintableBlock(g, b) && ByArity(g)
    requires Holds(g, 0, WrittenBlock(b, 0)) && |g.toks| == |WrittenBlock(b, 0)| + 1
    ensures Grammar.Parse(g, notation).Undefined?
  {
    TemplateRoundTrip(g, b);
    LostConditions.ActsOfOneOrContext();
    var acts := ActsBlock(b, 0);
    assert acts == (Acts(LostConditions.OneOrContext()) + [EmitPrint]) + ActsBlock(b, 1);
    assert StartsMerged(acts);
    UndefinedExactly(g, notation);
  }
}
