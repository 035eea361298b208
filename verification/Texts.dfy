/** The templates that show where the parser and the renderer go wrong, as texts. */
module Texts {
  import opened Json
  import opened Bytecodes
  import opened Tokens
  import opened Syntax
  import opened Compiler
  import opened Lexing
  import opened Scanning
  import opened Linear
  import opened Spelling
  import opened Writing
  import opened EndToEnd
  import opened RoundTripBlocks
  import opened LostConditions
  import Chaining
  import Machine
  import Overlaps
  import Divergence
  import Targets
  import Undefinedness

  // ----- the text of a few tokens -----

  lemma {:induction false} TextInFront(xs: seq<Pattern>, ys: seq<Pattern>, n: nat)
    requires n <= |xs|
    ensures SpellFirst(xs + ys, n) == SpellFirst(xs, n)
    decreases n
  {
    if n > 0 {
      TextInFront(xs, ys, n - 1);
    }
  }

  lemma {:induction false} TextBehind(xs: seq<Pattern>, ys: seq<Pattern>, n: nat)
    requires n <= |ys|
    ensures SpellFirst(xs + ys, |xs| + n) == Spelled(xs) + SpellFirst(ys, n)
    decreases n
  {
    if n == 0 {
      TextInFront(xs, ys, |xs|);
      assert Spelled(xs) + "" == Spelled(xs);
    } else {
      TextBehind(xs, ys, n - 1);
      assert (xs + ys)[|xs| + n - 1] == ys[n - 1];
      Regroup(Spelled(xs), SpellFirst(ys, n - 1), Piece(ys[n - 1]));
    }
  }

  lemma {:induction false} Regroup(a: string, b: string, c: string)
    ensures (a + b) + c == a + (b + c)
  {
  }

  lemma {:induction false} SpelledConcat(xs: seq<Pattern>, ys: seq<Pattern>)
    ensures Spelled(xs + ys) == Spelled(xs) + Spelled(ys)
  {
    TextBehind(xs, ys, |ys|);
  }

  lemma {:induction false} SpelledOne(p: Pattern)
    ensures Spelled([p]) == Piece(p)
  {
    assert SpellFirst([p], 0) == "";
    assert "" + Piece(p) == Piece(p);
  }

  lemma {:induction false} SpelledAround(open: Pattern, inner: seq<Pattern>, close: Pattern)
    ensures Spelled([open] + (inner + [close])) == Piece(open) + (Spelled(inner) + Piece(close))
  {
    SpelledConcat([open], inner + [close]);
    SpelledConcat(inner, [close]);
    SpelledOne(open);
    SpelledOne(close);
  }

  lemma {:induction false} SpelledTwo(p: Pattern, q: Pattern)
    ensures Spelled([p, q]) == Piece(p) + Piece(q)
  {
    assert [p] + [q] == [p, q];
    SpelledConcat([p], [q]);
    SpelledOne(p);
    SpelledOne(q);
  }

  lemma {:induction false} SpelledTag(inner: seq<Pattern>)
    ensures Spelled(Tag(BlockTag, inner)) == "{%" + (Spelled(inner) + " %}")
  {
    SpelledAround(OfKind(StatementOpen), inner, OfKind(StatementClose));
  }

  // ----- a condition that is lost -----

  /** {{ default(1, context()) }} */
  function OneOrContextText(): string {
    "{{ default ( 1 , context ( ) ) }}"
  }

  function LostText(): string {
    "{% if x %}" + OneOrContextText() + "{% endif %}"
  }

  /** Its tokens, in groups of two. */
  function Front(): seq<Pattern> {
    [Exactly(Id, "default"), OfKind(LeftParen)] + [Exactly(Number, "1"), OfKind(Comma)]
  }

  function Back(): seq<Pattern> {
    [Exactly(Id, "context"), OfKind(LeftParen)] + [OfKind(RightParen), OfKind(RightParen)]
  }

  lemma {:induction false} WrittenOneOrContext()
    ensures Written(OneOrContext(), 0) == Front() + Back()
  {
    var close, args := OfKind(RightParen), [One(), Call("context", [])];
    assert WrittenArgs([], 0) == [close];
    assert Written(args[1], 0) == [Exactly(Id, "context"), OfKind(LeftParen), close];
    assert WrittenArgs(args, 1) == Back();
    assert WrittenArgs(args, 0) == [Exactly(Number, "1"), OfKind(Comma)] + Back();
  }

  lemma {:induction false} SpelledPairs(p: Pattern, q: Pattern, r: Pattern, s: Pattern)
    ensures Spelled([p, q] + [r, s]) == (Piece(p) + Piece(q)) + (Piece(r) + Piece(s))
  {
    SpelledTwo(p, q);
    SpelledTwo(r, s);
    SpelledConcat([p, q], [r, s]);
  }

  lemma {:induction false} SpelledFront()
    ensures Spelled(Front()) == " default ( 1 ,"
  {
    SpelledPairs(Exactly(Id, "default"), OfKind(LeftParen), Exactly(Number, "1"), OfKind(Comma));
    assert (" " + "default") + (" " + "(") == " default (";
    assert (" " + "1") + (" " + ",") == " 1 ,";
  }

  lemma {:induction false} SpelledBack()
    ensures Spelled(Back()) == " context ( ) )"
  {
    SpelledPairs(Exactly(Id, "context"), OfKind(LeftParen), OfKind(RightParen), OfKind(RightParen));
    assert (" " + "context") + (" " + "(") == " context (";
    assert (" " + ")") + (" " + ")") == " ) )";
  }

  lemma {:induction false} SpelledPrint(e: Expr, xs: seq<Pattern>, ys: seq<Pattern>)
    requires Written(e, 0) == xs + ys
    ensures Spelled(WrittenStmt(Print(e))) == "{{" + ((Spelled(xs) + Spelled(ys)) + " }}")
  {
    SpelledConcat(xs, ys);
    SpelledAround(OfKind(ExpressionOpen), xs + ys, OfKind(ExpressionClose));
  }

  lemma {:induction false} JoinedText(front: string, back: string)
    requires front == " default ( 1 ," && back == " context ( ) )"
    ensures "{{" + ((front + back) + " }}") == OneOrContextText()
  {
  }

  lemma {:induction false} SpelledAs(e: Expr, xs: seq<Pattern>, ys: seq<Pattern>)
    requires Written(e, 0) == xs + ys && Spelled(xs) == " default ( 1 ," && Spelled(ys) == " context ( ) )"
    ensures Spelled(WrittenStmt(Print(e))) == OneOrContextText()
  {
    SpelledPrint(e, xs, ys);
    JoinedText(Spelled(xs), Spelled(ys));
  }

  lemma {:induction false} SpelledOneOrContext()
    ensures Spelled(WrittenStmt(Print(OneOrContext()))) == OneOrContextText()
  {
    WrittenOneOrContext();
    SpelledFront();
    SpelledBack();
    SpelledAs(OneOrContext(), Front(), Back());
  }

  lemma {:induction false} SpelledBlockOfOne(s: Stmt)
    ensures WrittenBlock([s], 0) == WrittenStmt(s)
  {
    assert WrittenBlock([s], 1) == [];
  }

  lemma {:induction false} SpelledLost()
    ensures TextOf(Lost()) == LostText()
  {
    var shown, x, endif := Print(OneOrContext()), [Word("if"), Word("x")], [Word("endif")];
    SpelledBlockOfOne(Lost()[0]);
    SpelledBlockOfOne(shown);
    assert [Word("if")] + Written(Lookup("x"), 0) == x;
    assert WrittenStmt(Lost()[0]) == Tag(BlockTag, x) + (WrittenStmt(shown) + Tag(BlockTag, endif));
    SpelledConcat(WrittenStmt(shown), Tag(BlockTag, endif));
    SpelledConcat(Tag(BlockTag, x), WrittenStmt(shown) + Tag(BlockTag, endif));
    SpelledOneOrContext();
    SpelledIfX();
    SpelledEndif();
  }

  lemma {:induction false} SpelledIfX()
    ensures Spelled(Tag(BlockTag, [Word("if"), Word("x")])) == "{% if x %}"
  {
    SpelledTag([Word("if"), Word("x")]);
    SpelledTwo(Word("if"), Word("x"));
    assert "{%" + ((" " + "if") + (" " + "x") + " %}") == "{% if x %}";
  }

  lemma {:induction false} SpelledEndif()
    ensures Spelled(Tag(BlockTag, [Word("endif")])) == "{% endif %}"
  {
    SpelledTag([Word("endif")]);
    SpelledOne(Word("endif"));
    assert "{%" + (" " + "endif" + " %}") == "{% endif %}";
  }

  /** What a spelled text is scanned into. */
  lemma {:induction false} SpelledHolds(setup: Setup, ps: seq<Pattern>)
    requires setup.cfg == DEFAULT && Usable(DEFAULT) && Spells(ps)
    ensures var g := SourceOf(setup, Spelled(ps)); Holds(g, 0, ps) && |g.toks| == |ps| + 1
  {
    SpelledReads(setup, ps);
    TokensAreFaithful(setup, Spelled(ps));
  }

  lemma {:induction false} TextHolds(setup: Setup, b: seq<Stmt>)
    requires setup.cfg == DEFAULT && Usable(DEFAULT) && Spellable(b, 0)
    ensures var g := SourceOf(setup, TextOf(b));
            Holds(g, 0, WrittenBlock(b, 0)) && |g.toks| == |WrittenBlock(b, 0)| + 1
  {
    SpellableSpells(b);
    SpelledHolds(setup, WrittenBlock(b, 0));
  }

  lemma {:induction false} LostIsSpellable()
    ensures Spellable(Lost(), 0) && Spellable([Print(OneOrContext())], 0)
  {
    var args := [One(), Call("context", [])];
    assert IsName("context") && IsName("x") && Spelling.IsNumber("1");
    assert Named(args[0]) && Named(args[1]);
    assert Named(OneOrContext());
    var body := [Print(OneOrContext())];
    assert Spellable(body, 1) && Spellable(Lost(), 1);
    assert Spellable(body, 0);
    assert SpellableBranches(Branches(Lookup("x"), body, EndIf(BlockTag)));
  }

  /** {% if x %}{{ default(1, context()) }}{% endif %} is accepted as code in which the condition's jump
      is lost, and throws whatever x is. */
  lemma {:induction false} LostTextIsAccepted(setup: Setup, env: Machine.Env, root: Value)
    requires setup.cfg == DEFAULT && Usable(DEFAULT) && Ordinary(SourceOf(setup, LostText()))
    requires !env.hasCallback("context", 5)
    ensures var r := EndToEnd.ParseText(setup, LostText());
            r.Accepted? && !Targets.AllSet(r.code) && Machine.EndsWith(r.code, env, root, Machine.Failed)
  {
    SpelledLost();
    LostIsSpellable();
    LostIsPrintable(SourceOf(setup, LostText()));
    TextHolds(setup, Lost());
    AcceptedButNotSet(SourceOf(setup, LostText()), setup.notation);
    LostThrows(setup.notation, env, root);
  }

  /** At the start of a template, default(1, context()) makes the parse undefined. */
  lemma {:induction false} MergedTextIsUndefined(setup: Setup)
    requires setup.cfg == DEFAULT && Usable(DEFAULT)
    requires Ordinary(SourceOf(setup, OneOrContextText())) && Chaining.ByArity(SourceOf(setup, OneOrContextText()))
    ensures EndToEnd.ParseText(setup, OneOrContextText()).Undefined?
  {
    var b := [Print(OneOrContext())];
    SpelledOneOrContext();
    SpelledBlockOfOne(b[0]);
    LostIsSpellable();
    LostIsPrintable(SourceOf(setup, OneOrContextText()));
    TextHolds(setup, b);
    Undefinedness.MergedStartIsUndefined(SourceOf(setup, OneOrContextText()), setup.notation, b);
  }

  // ----- the overlapping template -----

  /** Tags one behind another, from a place behind a tag or the start. */
  lemma {:induction false} TagsGo(at: Place, xs: seq<Pattern>, ys: seq<Pattern>)
    requires Goes(at, xs, BEHIND) && Goes(BEHIND, ys, BEHIND)
    ensures Goes(at, xs + ys, BEHIND)
  {
    GoesOn(at, xs, BEHIND, ys, BEHIND);
  }

  predicate NamedShape(s: Overlaps.Shape) {
    && IsName(s.v1) && IsName(s.v2) && IsName(s.v3)
    && Named(s.e1) && Named(s.c1) && Named(s.e2) && Named(s.e3) && Named(s.c2)
  }

  lemma {:induction false} ForIfGoes(at: Place, v: string, e: Expr, c: Expr)
    requires at.Outside? && IsName(v) && Named(e) && Named(c)
    ensures Goes(at, Overlaps.ForTagOf(v, e) + Overlaps.IfTagOf(c), BEHIND)
  {
    ForTagGoes(at, ItemVar(v), e);
    ConditionGoes(BEHIND, [Word("if")], c);
    TagsGo(at, Overlaps.ForTagOf(v, e), Overlaps.IfTagOf(c));
  }

  lemma {:induction false} EndsGo(at: Place)
    requires at.Outside?
    ensures Goes(at, Overlaps.EndTag("endif") + Overlaps.EndTag("endfor"), BEHIND)
    ensures Goes(at, Overlaps.EndTag("endfor"), BEHIND)
  {
    BlockTagGoes(at, [Word("endif")]);
    BlockTagGoes(at, [Word("endfor")]);
    BlockTagGoes(BEHIND, [Word("endfor")]);
    TagsGo(at, Overlaps.EndTag("endif"), Overlaps.EndTag("endfor"));
  }

  lemma {:induction false} ShapeSpells(s: Overlaps.Shape)
    requires NamedShape(s)
    ensures Spells(Overlaps.WrittenShape(s))
  {
    var ends := Overlaps.EndTag("endif") + Overlaps.EndTag("endfor");
    var p1, p2 := Overlaps.ForTagOf(s.v1, s.e1) + Overlaps.IfTagOf(s.c1), Overlaps.ForTagOf(s.v2, s.e2) + ends;
    var p3 := Overlaps.ForTagOf(s.v3, s.e3) + Overlaps.IfTagOf(s.c2);
    ForIfGoes(FIRST, s.v1, s.e1, s.c1);
    ForTagGoes(BEHIND, ItemVar(s.v2), s.e2);
    EndsGo(BEHIND);
    TagsGo(BEHIND, Overlaps.ForTagOf(s.v2, s.e2), ends);
    ForIfGoes(BEHIND, s.v3, s.e3, s.c2);
    TagsGo(BEHIND, Overlaps.EndTag("endfor"), ends);
    TagsGo(BEHIND, p3, Overlaps.EndTag("endfor") + ends);
    TagsGo(BEHIND, p2, p3 + (Overlaps.EndTag("endfor") + ends));
    TagsGo(FIRST, p1, p2 + (p3 + (Overlaps.EndTag("endfor") + ends)));
    PlaceFromFirst(Overlaps.WrittenShape(s), |Overlaps.WrittenShape(s)|);
  }

  lemma {:induction false} EndlessIsNamed()
    ensures NamedShape(Overlaps.Endless())
  {
    var args := [Lookup("d"), Overlaps.IsTrue()];
    assert Named(args[0]) && Named(args[1]);
    assert Named(Overlaps.DefaultD());
  }

  function EndlessText(): string {
    Spelled(Overlaps.WrittenShape(Overlaps.Endless()))
  }

  /** As a text too, the overlapping template is accepted and never comes to an end. */
  lemma {:induction false} EndlessTextNeverHalts(setup: Setup, env: Machine.Env, root: Value)
    requires setup.cfg == DEFAULT && Usable(DEFAULT) && Overlaps.Ordinary(SourceOf(setup, EndlessText()))
    requires Divergence.FindsFields(env, setup.notation) && root == Obj(Divergence.RootFields())
    ensures var r := EndToEnd.ParseText(setup, EndlessText());
            r.Accepted? && !Machine.Halts(r.code, env, root)
  {
    EndlessIsNamed();
    ShapeSpells(Overlaps.Endless());
    SpelledHolds(setup, Overlaps.WrittenShape(Overlaps.Endless()));
    Overlaps.AcceptedButNeverHalts(SourceOf(setup, EndlessText()), setup.notation, env, root);
  }
}
