/** In every accepted template, interleaved or not, every jump has a target in range, so a
    rendering never leaves the code. */
module Targets {
  import opened Options
  import opened Json
  import opened Bytecodes
  import opened Machine
  import opened Compiler
  import opened Assembler
  import opened Patching
  import opened Chaining
  import opened Displacement
  import opened Functions
  import Grammar

  lemma {:induction false} OperandKeepsStacks(notation: Notation, asm: Asm, a: Action)
    requires IsOperand(a) && Do(notation, asm, a).Fine?
    ensures Do(notation, asm, a).asm.ifs == asm.ifs && Do(notation, asm, a).asm.loops == asm.loops
  {
  }

  /** Operands leave the stacks alone, so behind an else its entry has no condition left to set. */
  lemma {:induction false} BehindElseNothingIsPending(notation: Notation, acts: seq<Action>, k: nat)
    requires k <= |acts| && Before(acts, k) == Some(BeginElse)
    requires After(notation, acts, k).Fine?
    ensures var asm := After(notation, acts, k).asm; asm.ifs != [] && Top(asm).prev.None?
    decreases k
  {
    AfterNext(notation, acts, k - 1);
    if IsOperand(acts[k - 1]) {
      BehindElseNothingIsPending(notation, acts, k - 1);
      OperandKeepsStacks(notation, After(notation, acts, k - 1).asm, acts[k - 1]);
    }
  }

  /** While no jump is displaced, the emissions are orderly. */
  lemma {:induction false} OrderlyUntil(notation: Notation, acts: seq<Action>, n: nat)
    requires n <= |acts| && Ordered(acts) && NoneDisplaced(acts, n)
    ensures OrderlyRun(Emitter(notation), acts, n)
  {
    forall j: nat | j < n && After(notation, acts, j).Fine? ensures Orderly(After(notation, acts, j).asm, acts[j]) {
      assert Turn(j);
      if acts[j].ChainIf? {
        BehindElseNothingIsPending(notation, acts, j);
      } else if acts[j].SwapLast? && !CleanSwap(After(notation, acts, j).asm) {
        DirtySwapDisplaces(notation, acts, j);
        assert Turn(j - 2);
        assert false;
      }
    }
  }

  lemma {:induction false} FirstDisplaced(acts: seq<Action>, n: nat) returns (k: nat)
    requires n <= |acts| && !NoneDisplaced(acts, n)
    ensures k < n && Displaces(acts, k) && NoneDisplaced(acts, k)
    decreases n
  {
    k :| Turn(k) && k < n && Displaces(acts, k);
    if !NoneDisplaced(acts, k) {
      k := FirstDisplaced(acts, k);
    }
  }

  /** Every jump and every loop of the code is set. */
  ghost predicate AllSet(code: seq<Bytecode>) {
    Linked(code, {}, {})
  }

  /** Whatever tokens a template is accepted from, all its jumps are set if and only if no swap
      displaces one: forward and in range for conditions, branch ends and loop starts, back behind
      their start for loop ends. */
  lemma {:induction false} AcceptedIsAllSet(g: Grammar.Source, notation: Notation)
    requires Grammar.Ended(g) && ByArity(g)
    requires var r := Grammar.Parse(g, notation); r.Accepted? && |r.code| < ARGS_LIMIT
    ensures var acts := Grammar.ParseTemplate(g, 0).acts;
            AllSet(Grammar.Parse(g, notation).code) <==> NoneDisplaced(acts, |acts|)
  {
    var acts := Grammar.ParseTemplate(g, 0).acts;
    TemplateOrders(g, 0);
    AcceptedCode(g, notation);
    if NoneDisplaced(acts, |acts|) {
      OrderlyUntil(notation, acts, |acts|);
      RunKeeps(notation, acts, |acts|);
      NothingHeld(After(notation, acts, |acts|).asm);
    } else {
      var k := FirstDisplaced(acts, |acts|);
      CodeGrows(notation, acts, k, |acts|);
      OrderlyUntil(notation, acts, k);
      RunKeeps(notation, acts, k);
      DisplacedIsNeverSet(notation, acts, k);
    }
  }

  /** The same for the parser as the filter sets it up, its built-ins being those that the storage
      filled by ParserStatic answers with. */
  lemma {:induction false} FilterTemplateIsAllSet(g: Grammar.Source, notation: Notation, m: Storage)
    requires Grammar.Ended(g) && Answers(m, Builtins()) && Answers(m, g.builtins)
    requires var r := Grammar.Parse(g, notation); r.Accepted? && |r.code| < ARGS_LIMIT
    ensures var acts := Grammar.ParseTemplate(g, 0).acts;
            AllSet(Grammar.Parse(g, notation).code) <==> NoneDisplaced(acts, |acts|)
  {
    TableIsUnique(m, Builtins(), g.builtins);
    BuiltinsByArity();
    AcceptedIsAllSet(g, notation);
  }

  lemma {:induction false} AcceptedCode(g: Grammar.Source, notation: Notation)
    requires Grammar.Ended(g) && Grammar.Parse(g, notation).Accepted?
    ensures var acts := Grammar.ParseTemplate(g, 0).acts;
            DoFirst(Emitter(notation), EMPTY, acts, |acts|) == Fine(Asm(Grammar.Parse(g, notation).code, [], []))
  {
  }

  lemma {:induction false} NothingHeld(asm: Asm)
    requires Consistent(asm) && asm.ifs == [] && asm.loops == []
    ensures AllSet(asm.code)
  {
    assert Elements(HeldBy(asm.ifs, 0)) == {} && Elements(asm.loops) == {};
  }

  // ----- rendering stays inside the code -----

  lemma {:induction false} StepStaysInside(code: seq<Bytecode>, env: Env, root: Value, next: State -> Status, st: State)
    requires AllSet(code) && Ticks(next, code, env, root) && st.pc < |code|
    ensures var s := next(st); s.At? ==> s.st.pc <= |code|
  {
    assert Spot(st.pc) && Ticked(st);
  }

  lemma {:induction false} RunStaysInside(code: seq<Bytecode>, env: Env, root: Value, next: State -> Status,
                                          st: State, n: nat)
    requires AllSet(code) && Ticks(next, code, env, root) && st.pc <= |code|
    ensures var s := Run(next, |code|, st, n); s.At? ==> s.st.pc <= |code|
    decreases n
  {
    if n > 0 && st.pc < |code| {
      StepStaysInside(code, env, root, next, st);
      var s := next(st);
      if s.At? {
        RunStaysInside(code, env, root, next, s.st, n - 1);
      }
    }
  }

  /** A rendering that comes to an end without an exception ends exactly behind the last bytecode. */
  lemma {:induction false} EndsAtTheEnd(code: seq<Bytecode>, env: Env, root: Value, s: Status)
    requires AllSet(code) && EndsWith(code, env, root, s) && s.At?
    ensures s.st.pc == |code|
  {
    var n: nat :| Rendering(code, env, root, n) == s;
    RunStaysInside(code, env, root, Stepper(code, env, root), START, n);
  }
}
