/** The overlapping template, from its tokens to a rendering that never ends. */
module Overlaps {
  import opened Options
  import opened Json
  import opened Bytecodes
  import opened Tokens
  import opened Syntax
  import opened Assembler
  import opened Linear
  import opened Grammar
  import opened RoundTrip
  import opened RoundTripBlocks
  import Machine
  import Divergence

  // ----- overlapping tags around any expressions -----

  /** for v1 in e1, if c1, for v2 in e2, endif, endfor, for v3 in e3, if c2, endfor, endif, endfor. */
  datatype Shape = Shape(v1: string, e1: Expr, c1: Expr, v2: string, e2: Expr, v3: string, e3: Expr, c2: Expr)

  function ForTagOf(value: string, e: Expr): seq<Pattern> {
    Tag(BlockTag, ForFront(ItemVar(value)) + Written(e, 0))
  }

  function IfTagOf(e: Expr): seq<Pattern> {
    Tag(BlockTag, [Word("if")] + Written(e, 0))
  }

  function EndTag(word: string): seq<Pattern> {
    Tag(BlockTag, [Word(word)])
  }

  function WrittenShape(s: Shape): seq<Pattern> {
    (ForTagOf(s.v1, s.e1) + IfTagOf(s.c1))
    + ((ForTagOf(s.v2, s.e2) + (EndTag("endif") + EndTag("endfor")))
       + ((ForTagOf(s.v3, s.e3) + IfTagOf(s.c2)) + (EndTag("endfor") + (EndTag("endif") + EndTag("endfor")))))
  }

  function ActsOfShape(s: Shape): seq<Action> {
    ((Acts(s.e1) + [OpenFor(ItemVar(s.v1))]) + (Acts(s.c1) + [OpenIf]))
    + (((Acts(s.e2) + [OpenFor(ItemVar(s.v2))]) + ([CloseIf] + [CloseFor]))
       + (((Acts(s.e3) + [OpenFor(ItemVar(s.v3))]) + (Acts(s.c2) + [OpenIf]))
          + ([CloseFor] + ([CloseIf] + [CloseFor]))))
  }

  predicate PrintableShape(g: Source, s: Shape) {
    Printable(g, s.e1) && Printable(g, s.c1) && Printable(g, s.e2) && Printable(g, s.e3) && Printable(g, s.c2)
  }

  /** Two parts, each read by itself. */
  lemma {:induction false} BothLead(parse: nat -> Parsed, i: nat, p1: seq<Pattern>, p2: seq<Pattern>,
                                    xs: seq<Action>, ys: seq<Action>)
    requires Leads(parse, i, i + |p1|, xs) && Leads(parse, i + |p1|, i + |p1| + |p2|, ys)
    ensures Leads(parse, i, i + |p1 + p2|, xs + ys)
  {
    LeadsOn(parse, i, i + |p1|, i + |p1| + |p2|, xs, ys);
  }

  lemma {:induction false} ForIfLeads(parse: nat -> Parsed, g: Source, i: nat, v: string, e: Expr, c: Expr)
    requires Parses(parse, g) && Printable(g, e) && Printable(g, c) && Holds(g, i, ForTagOf(v, e) + IfTagOf(c))
    ensures Leads(parse, i, i + |ForTagOf(v, e) + IfTagOf(c)|, (Acts(e) + [OpenFor(ItemVar(v))]) + (Acts(c) + [OpenIf]))
  {
    HoldsSplit(g, i, ForTagOf(v, e), IfTagOf(c));
    ForLeads(parse, g, i, BlockTag, ItemVar(v), e);
    IfLeads(parse, g, i + |ForTagOf(v, e)|, BlockTag, c);
    BothLead(parse, i, ForTagOf(v, e), IfTagOf(c), Acts(e) + [OpenFor(ItemVar(v))], Acts(c) + [OpenIf]);
  }

  lemma {:induction false} TwoEnds(parse: nat -> Parsed, g: Source, i: nat)
    requires Parses(parse, g) && Holds(g, i, EndTag("endif") + EndTag("endfor"))
    ensures Leads(parse, i, i + |EndTag("endif") + EndTag("endfor")|, [CloseIf] + [CloseFor])
  {
    HoldsSplit(g, i, EndTag("endif"), EndTag("endfor"));
    WordLeads(parse, g, i, BlockTag, "endif", CloseIf);
    WordLeads(parse, g, i + |EndTag("endif")|, BlockTag, "endfor", CloseFor);
    BothLead(parse, i, EndTag("endif"), EndTag("endfor"), [CloseIf], [CloseFor]);
  }

  lemma {:induction false} ThreeEnds(parse: nat -> Parsed, g: Source, i: nat)
    requires Parses(parse, g) && Holds(g, i, EndTag("endfor") + (EndTag("endif") + EndTag("endfor")))
    ensures Leads(parse, i, i + |EndTag("endfor") + (EndTag("endif") + EndTag("endfor"))|,
                  [CloseFor] + ([CloseIf] + [CloseFor]))
  {
    HoldsSplit(g, i, EndTag("endfor"), EndTag("endif") + EndTag("endfor"));
    WordLeads(parse, g, i, BlockTag, "endfor", CloseFor);
    TwoEnds(parse, g, i + |EndTag("endfor")|);
    BothLead(parse, i, EndTag("endfor"), EndTag("endif") + EndTag("endfor"), [CloseFor], [CloseIf] + [CloseFor]);
  }

  lemma {:induction false} ForEndsLead(parse: nat -> Parsed, g: Source, i: nat, v: string, e: Expr)
    requires Parses(parse, g) && Printable(g, e) && Holds(g, i, ForTagOf(v, e) + (EndTag("endif") + EndTag("endfor")))
    ensures Leads(parse, i, i + |ForTagOf(v, e) + (EndTag("endif") + EndTag("endfor"))|,
                  (Acts(e) + [OpenFor(ItemVar(v))]) + ([CloseIf] + [CloseFor]))
  {
    var ends := EndTag("endif") + EndTag("endfor");
    HoldsSplit(g, i, ForTagOf(v, e), ends);
    ForLeads(parse, g, i, BlockTag, ItemVar(v), e);
    TwoEnds(parse, g, i + |ForTagOf(v, e)|);
    BothLead(parse, i, ForTagOf(v, e), ends, Acts(e) + [OpenFor(ItemVar(v))], [CloseIf] + [CloseFor]);
  }

  lemma {:induction false} LastPartLeads(parse: nat -> Parsed, g: Source, i: nat, v: string, e: Expr, c: Expr)
    requires Parses(parse, g) && Printable(g, e) && Printable(g, c)
    requires Holds(g, i, (ForTagOf(v, e) + IfTagOf(c)) + (EndTag("endfor") + (EndTag("endif") + EndTag("endfor"))))
    ensures Leads(parse, i,
                  i + |(ForTagOf(v, e) + IfTagOf(c)) + (EndTag("endfor") + (EndTag("endif") + EndTag("endfor")))|,
                  ((Acts(e) + [OpenFor(ItemVar(v))]) + (Acts(c) + [OpenIf])) + ([CloseFor] + ([CloseIf] + [CloseFor])))
  {
    var front, ends := ForTagOf(v, e) + IfTagOf(c), EndTag("endfor") + (EndTag("endif") + EndTag("endfor"));
    HoldsSplit(g, i, front, ends);
    ForIfLeads(parse, g, i, v, e, c);
    ThreeEnds(parse, g, i + |front|);
    BothLead(parse, i, front, ends, (Acts(e) + [OpenFor(ItemVar(v))]) + (Acts(c) + [OpenIf]),
             [CloseFor] + ([CloseIf] + [CloseFor]));
  }

  /** The parser takes overlapping tags like nested ones, and emits what it emits for each. */
  lemma {:induction false} ShapeLeads(parse: nat -> Parsed, g: Source, i: nat, s: Shape)
    requires Parses(parse, g) && PrintableShape(g, s) && Holds(g, i, WrittenShape(s))
    ensures Leads(parse, i, i + |WrittenShape(s)|, ActsOfShape(s))
  {
    var p1, p2 := ForTagOf(s.v1, s.e1) + IfTagOf(s.c1), ForTagOf(s.v2, s.e2) + (EndTag("endif") + EndTag("endfor"));
    var p3 := (ForTagOf(s.v3, s.e3) + IfTagOf(s.c2)) + (EndTag("endfor") + (EndTag("endif") + EndTag("endfor")));
    HoldsSplit(g, i, p1, p2 + p3);
    HoldsSplit(g, i + |p1|, p2, p3);
    ForIfLeads(parse, g, i, s.v1, s.e1, s.c1);
    ForEndsLead(parse, g, i + |p1|, s.v2, s.e2);
    LastPartLeads(parse, g, i + |p1| + |p2|, s.v3, s.e3, s.c2);
    var a2 := (Acts(s.e2) + [OpenFor(ItemVar(s.v2))]) + ([CloseIf] + [CloseFor]);
    var a3 := ((Acts(s.e3) + [OpenFor(ItemVar(s.v3))]) + (Acts(s.c2) + [OpenIf]))
      + ([CloseFor] + ([CloseIf] + [CloseFor]));
    BothLead(parse, i + |p1|, p2, p3, a2, a3);
    BothLead(parse, i, p1, p2 + p3, (Acts(s.e1) + [OpenFor(ItemVar(s.v1))]) + (Acts(s.c1) + [OpenIf]), a2 + a3);
  }

  // ----- the one that never ends -----

  function IsTrue(): Expr {
    Lit(Shown(Id, "true"), Bool(true))
  }

  function IsFalse(): Expr {
    Lit(Shown(Id, "false"), Bool(false))
  }

  function DefaultD(): Expr {
    Expr.Apply(DefaultFn, [Lookup("d"), IsTrue()])
  }

  function Endless(): Shape {
    Shape("a", Lookup("x"), DefaultD(), "b", Lookup("y"), "d", Lookup("z"), IsFalse())
  }

  /** default is registered, and the JSON parser reads true and false. */
  predicate Ordinary(g: Source) {
    && ("default", 2) in g.builtins && g.builtins[("default", 2)] == DefaultFn
    && g.parseJson("true") == Some(Bool(true)) && g.parseJson("false") == Some(Bool(false))
  }

  lemma {:induction false} ActsOfDefault()
    ensures Acts(DefaultD()) == [PushVar("d"), PushLit(Bool(true)), SwapLast, EmitFn(DefaultFn, 2)]
  {
    var args := [Lookup("d"), IsTrue()];
    assert ActsArgs(args, 0) == [];
    assert ActsArgs(args, 1) == [PushVar("d")];
    assert ActsArgs(args, 2) == [PushVar("d"), PushLit(Bool(true))];
  }

  lemma {:induction false} EndlessIsPrintable(g: Source)
    requires Ordinary(g)
    ensures PrintableShape(g, Endless())
  {
    assert Printable(g, IsTrue()) && Printable(g, Lookup("d"));
  }

  lemma {:induction false} ActsOfEndless()
    ensures ActsOfShape(Endless()) + [] == Divergence.Overlapping()
  {
    ActsOfDefault();
  }

  lemma {:induction false} ShapeParses(g: Source, s: Shape)
    requires PrintableShape(g, s) && Holds(g, 0, WrittenShape(s)) && |g.toks| == |WrittenShape(s)| + 1
    ensures ParseTemplate(g, 0) == Took(|g.toks| - 1, ActsOfShape(s) + [])
  {
    var parse := (i: nat) => if At(g, i) then ParseTemplate(g, i) else Threw([]);
    ShapeLeads(parse, g, 0, s);
    assert Reached(0) && Reached(|g.toks| - 1);
  }

  /** The parser accepts the overlapping template and the renderer never comes back from it: what
      nesting guarantees, acceptance does not. */
  lemma {:induction false} AcceptedButNeverHalts(g: Source, notation: Notation, env: Machine.Env, root: Value)
    requires Ordinary(g) && Holds(g, 0, WrittenShape(Endless())) && |g.toks| == |WrittenShape(Endless())| + 1
    requires Divergence.FindsFields(env, notation) && root == Obj(Divergence.RootFields())
    ensures Parse(g, notation).Accepted? && !Machine.Halts(Parse(g, notation).code, env, root)
  {
    EndlessIsPrintable(g);
    ShapeParses(g, Endless());
    ActsOfEndless();
    Divergence.OverlappingIsBuilt(notation);
    Divergence.OverlappingNeverHalts(env, notation, root);
  }
}
