/** What lies just outside the trees the parser compiles as intended. */
module Corners {
  import opened Options
  import opened Json
  import opened Bytecodes
  import opened Tokens
  import opened Syntax
  import opened Compiler
  import opened Assembler
  import opened Assembly
  import Defaults
  import Grammar
  import Machine

  /** A second plain else: the entry's condition has been used up by the first, and the parser
      patches with what is left of it. Whatever safe statements stand between the two, the parse is
      undefined. */
  lemma {:induction false} SecondElseIsUndefined(w: Writer, asm: Asm, b: seq<Stmt>)
    requires Writes(w) && SafeBlock(w.notation, b, 0) && |asm.code| + 1 + Size(w.kit, b, 0) < ARGS_LIMIT
    requires asm.ifs != [] && Top(asm).prev.Some? && InRange(Top(asm), |asm.code|)
    ensures All(w, asm, [BeginElse] + (ActsBlock(b, 0) + [BeginElse])) == Broken
  {
    var turned := Turned(asm);
    var mid := Grown(turned, Layout(w.kit, b, 0, |turned.code|));
    DoTurn(w, asm);
    DoBlock(w, turned, b, 0);
    ThenOne(w, turned, ActsBlock(b, 0), mid, BeginElse);
    assert Now(mid, BeginElse);
    ThenMore(w, asm, [BeginElse], turned, ActsBlock(b, 0) + [BeginElse]);
  }

  /** A line statement that breaks off: `## if 5 and` and the end of the line. Its failure is
      ignored, so the template goes on, with no if opened and the push of 5 left in the code. */
  lemma {:induction false} BrokenLineLeavesAPush(g: Grammar.Source, i: nat, v: Value)
    requires Grammar.At(g, i) && i + 4 < |g.toks|
    requires g.toks[i].kind == LineStatementOpen && Grammar.IsWord(g.toks[i + 1], "if")
    requires g.toks[i + 2].kind == Number && Grammar.IsWord(g.toks[i + 3], "and")
    requires g.toks[i + 4].kind == LineStatementClose
    requires g.parseJson(Grammar.JsonText(g.inp, g.toks[i + 2], g.toks[i + 2])) == Some(v)
    ensures Grammar.ParseTag(g, i) == Grammar.Took(i + 4, [PushLit(v)])
  {
    var j := i + 2;
    assert Grammar.ParseDatum(g, j, j, 0, 0) == Grammar.Took(j + 1, [PushLit(v)]);
    assert Grammar.ParseNot(g, j) == Grammar.Took(j + 1, [PushLit(v)]);
    assert Grammar.ParseDatum(g, i + 4, i + 4, 0, 0) == Grammar.Refused(i + 4, []);
    assert Grammar.ParseNot(g, i + 4) == Grammar.Refused(i + 4, []);
    assert [PushLit(v)] + [] == [PushLit(v)];
    assert Grammar.ParseOr(g, j) == Grammar.Refused(i + 4, [PushLit(v)]);
  }

  /** An include throws, in either kind of tag; so does a word that starts no statement. */
  lemma {:induction false} OtherWordsThrow(g: Grammar.Source, i: nat)
    requires Grammar.At(g, i) && (g.toks[i].kind == StatementOpen || g.toks[i].kind == LineStatementOpen)
    requires g.toks[i + 1].kind == Id && g.toks[i + 1].text !in {"if", "else", "endif", "for", "endfor"}
    ensures Grammar.ParseTag(g, i) == Grammar.Threw([])
  {
  }

  /** A tag without a statement throws, but on a line of its own it does nothing. */
  lemma {:induction false} EmptyTags(g: Grammar.Source, i: nat)
    requires Grammar.At(g, i) && i + 1 < |g.toks|
    ensures g.toks[i].kind == StatementOpen && g.toks[i + 1].kind == StatementClose ==>
              Grammar.ParseTag(g, i) == Grammar.Threw([])
    ensures g.toks[i].kind == LineStatementOpen && g.toks[i + 1].kind == LineStatementClose ==>
              Grammar.ParseTag(g, i) == Grammar.Took(i + 1, [])
  {
  }

  /** default with a first argument that is no literal and no name: the instruction that comes last
      never carries that argument. It has b's last but one push in its immediate, or nothing, and is
      then undefined whenever it is run. */
  lemma {:induction false} DefaultOfACall(notation: Notation, asm: Asm, a: Expr, b: Expr)
    requires !IsLeaf(a) && Safe(notation, b)
    ensures var r := SwapAndMerge(Grown(asm, Code(notation, a) + Code(notation, b)));
            && r.Fine? && r.asm.code != []
            && r.asm.code[|r.asm.code| - 1] ==
               (if Defaults.Swallows(b) then Defaults.TakenInstr(notation, b) else Instr(Fn(DefaultFn), 2))
            && forall env, root, st :: Machine.Step(env, root, Instr(Fn(DefaultFn), 2), st) == Machine.Undefined
  {
    Defaults.SwapAndMergeEmits(notation, asm, a, b);
    if Defaults.Swallows(b) {
      Defaults.EmitsTaken(notation, a, b);
    } else {
      Defaults.EmitsBare(notation, a, b);
    }
  }
}
