/** Three templates for the filter, from text to output. */
module Examples {
  import opened Options
  import opened Json
  import opened Bytecodes
  import opened Tokens
  import opened Machine
  import opened Syntax
  import opened Compiler
  import opened Correctness
  import opened Lexing
  import opened Scanning
  import opened EndToEnd
  import opened FilterTrees
  import opened Writing
  import opened Wording
  import Laws
  import Linear
  import Spelling
  import Texts

  /** What a template's text renders to, whatever the output of the interpreter for its tree. */
  ghost predicate Renders(setup: Setup, text: string, env: Env, root: Value, out: Option<string>)
    requires Usable(setup.cfg)
  {
    var r := EndToEnd.ParseText(setup, text);
    r.Accepted? && EndsWith(r.code, env, root, Finished(out, |r.code|))
  }

  lemma {:induction false} TreeRenders(setup: Setup, b: seq<Stmt>, text: string, env: Env, root: Value,
                                       out: Option<string>)
    requires IsFilter(setup) && Spellable(b, 0) && SoundBlock(setup.parseJson, b) && text == TextOf(b)
    requires SafeBlock(setup.notation, b, 0) && Fits(0, b, 0) && |TemplateCode(setup.notation, b)| < ARGS_LIMIT
    requires out == Exec(Context(env, root, setup.notation), root, b, 0)
    ensures Usable(setup.cfg) && Renders(setup, text, env, root, out)
  {
    FilterTreeRenders(setup, b, env, root);
  }

  lemma {:induction false} OneStatement(cx: Context, data: Value, s: Stmt)
    ensures Exec(cx, data, [s], 0) == ExecStmt(cx, data, s)
  {
    assert Exec(cx, data, [s], 1) == Some("");
    var r := ExecStmt(cx, data, s);
    assert r.Some? ==> r.value + "" == r.value;
  }

  // ----- {% if true or false %}A{% endif %} -----

  function Literal(word: string, b: bool): Expr {
    Lit(Shown(Id, word), Bool(b))
  }

  function EitherOf(x: Expr, y: Expr): Expr {
    Expr.Apply(OrFn, [x, y])
  }

  function IfA(cond: Expr): Stmt {
    If(BlockTag, Branches(cond, [Text("A")], EndIf(BlockTag)))
  }

  lemma {:induction false} IfASaid(cond: Expr)
    ensures TextOf([IfA(cond)]) == "{% if" + Said(cond, 0) + " %}A{% endif %}"
  {
    var br := Branches(cond, [Text("A")], EndIf(BlockTag));
    IfSaid(BlockTag, br);
    ElseIsSaid(br.els);
    PlainSaid("A", cond);
    BlocksSaid(br.thn, 0);
    BlocksSaid(br.thn, 1);
    Texts.SpelledBlockOfOne(IfA(cond));
    IfAPieces(Said(cond, 0));
  }

  lemma {:induction false} IfAPieces(cond: string)
    ensures "{%" + ((" if" + cond) + " %}") + (("A" + "") + ("{%" + (" endif" + " %}")))
            == "{% if" + cond + " %}A{% endif %}"
  {
    assert "{%" + (" endif" + " %}") == "{% endif %}" && "A" + "" == "A" && "{%" + " if" == "{% if";
    Texts.Regroup("{%", " if" + cond, " %}");
    Texts.Regroup("{%", " if", cond);
    Texts.Regroup("{% if" + cond, " %}", "A" + "{% endif %}");
    assert " %}" + ("A" + "{% endif %}") == " %}A{% endif %}";
  }

  lemma {:induction false} LiteralSaid(word: string, b: bool, level: nat)
    requires level <= 4
    ensures Said(Literal(word, b), level) == " " + word
  {
    ParenthesesSaid(Literal(word, b), level);
    LeafSaid(Shown(Id, word), Bool(b), "");
  }

  lemma {:induction false} EitherSaid(x: string, a: bool, y: string, b: bool)
    ensures Said(EitherOf(Literal(x, a), Literal(y, b)), 0) == " " + x + (" or" + (" " + y))
  {
    OrSaid(Literal(x, a), Literal(y, b));
    LiteralSaid(x, a, 1);
    LiteralSaid(y, b, 1);
  }

  /** The JSON parser reads the two words. */
  predicate ReadsWords(setup: Setup) {
    setup.parseJson("true") == Some(Bool(true)) && setup.parseJson("false") == Some(Bool(false))
  }

  predicate IsWord(word: string, b: bool) {
    word == if b then "true" else "false"
  }

  lemma {:induction false} WordIsName(word: string, b: bool)
    requires IsWord(word, b)
    ensures Spelling.IsName(word)
  {
  }

  lemma {:induction false} IfAIsFine(setup: Setup, x: string, a: bool, y: string, b: bool)
    requires ReadsWords(setup) && IsWord(x, a) && IsWord(y, b)
    ensures var t := [IfA(EitherOf(Literal(x, a), Literal(y, b)))];
            Spellable(t, 0) && SoundBlock(setup.parseJson, t) && SafeBlock(setup.notation, t, 0) && Fits(0, t, 0)
  {
    var cond := EitherOf(Literal(x, a), Literal(y, b));
    var body, t := [Text("A")], [IfA(cond)];
    var args := [Literal(x, a), Literal(y, b)];
    WordIsName(x, a);
    WordIsName(y, b);
    assert Named(args[0]) && Named(args[1]);
    assert Sound(setup.parseJson, args[0]) && Sound(setup.parseJson, args[1]);
    assert SafeArgs(setup.notation, args, 0) && SafeArgs(setup.notation, args, 1) && SafeArgs(setup.notation, args, 2);
    assert Spellable(body, 1) && Spellable(t, 1);
    assert SafeBlock(setup.notation, body, 1) && SafeBlock(setup.notation, t, 1);
    assert Fits(0, body, 1) && Fits(0, t, 1);
    assert SoundBlock(setup.parseJson, body) && Sound(setup.parseJson, cond);
    assert SoundBranches(setup.parseJson, Branches(cond, body, EndIf(BlockTag)));
    assert SoundStmt(setup.parseJson, IfA(cond));
  }

  lemma {:induction false} IfACodeIsSmall(notation: Notation, x: string, a: bool, y: string, b: bool)
    ensures |TemplateCode(notation, [IfA(EitherOf(Literal(x, a), Literal(y, b)))])| < ARGS_LIMIT
  {
    var cond := EitherOf(Literal(x, a), Literal(y, b));
    var args, kit, body := [Literal(x, a), Literal(y, b)], Expressions(notation), [Text("A")];
    assert CodeArgs(notation, args, 0) == [] && |CodeArgs(notation, args, 1)| == 1;
    assert |CodeArgs(notation, args, 2)| == 2;
    assert |kit.code(cond)| <= 3;
    assert Size(kit, body, 1) == 0 && Size(kit, body, 0) == 1;
    assert SizeElse(kit, EndIf(BlockTag)) == 0;
    assert SizeBranches(kit, Branches(cond, body, EndIf(BlockTag))) == |kit.code(cond)| + 2;
    assert Size(kit, [IfA(cond)], 1) == 0 && Size(kit, [IfA(cond)], 0) == |kit.code(cond)| + 2;
  }

  /** {% if x or y %}A{% endif %} with literal true and false: A exactly when one of them is true. */
  lemma {:induction false} EitherRenders(setup: Setup, env: Env, root: Value, x: string, a: bool, y: string, b: bool)
    requires IsFilter(setup) && ReadsWords(setup) && IsWord(x, a) && IsWord(y, b)
    ensures Usable(setup.cfg)
    ensures Renders(setup, "{% if" + (" " + x + (" or" + (" " + y))) + " %}A{% endif %}", env, root,
                    Some(if a || b then "A" else ""))
  {
    var cx, l, r := Context(env, root, setup.notation), Literal(x, a), Literal(y, b);
    var cond := EitherOf(l, r);
    EitherSaid(x, a, y, b);
    IfASaid(cond);
    IfAIsFine(setup, x, a, y, b);
    IfACodeIsSmall(setup.notation, x, a, y, b);
    assert Eval(cx, root, l) == Some(Bool(a)) && Eval(cx, root, r) == Some(Bool(b));
    Laws.OrMeans(cx, root, l, r);
    Laws.IfMeans(cx, root, BlockTag, Branches(cond, [Text("A")], EndIf(BlockTag)));
    OneStatement(cx, root, Text("A"));
    Laws.TextMeans(cx, root, "A");
    OneStatement(cx, root, IfA(cond));
    TreeRenders(setup, [IfA(cond)], TextOf([IfA(cond)]), env, root, Some(if a || b then "A" else ""));
  }

  lemma {:induction false} EitherText(x: string, y: string)
    requires x == "true" && y == "false"
    ensures "{% if" + (" " + x + (" or" + (" " + y))) + " %}A{% endif %}" == "{% if true or false %}A{% endif %}"
  {
  }

  lemma {:induction false} WordsRender(setup: Setup, env: Env, root: Value, x: string, y: string)
    requires IsFilter(setup) && ReadsWords(setup) && x == "true" && y == "false"
    ensures Usable(setup.cfg) && Renders(setup, "{% if true or false %}A{% endif %}", env, root, Some("A"))
  {
    EitherRenders(setup, env, root, x, true, y, false);
    EitherText(x, y);
  }

  /** {% if true or false %}A{% endif %} */
  lemma {:induction false} TrueOrFalseRenders(setup: Setup, env: Env, root: Value)
    requires IsFilter(setup) && ReadsWords(setup)
    ensures Usable(setup.cfg) && Renders(setup, "{% if true or false %}A{% endif %}", env, root, Some("A"))
  {
    WordsRender(setup, env, root, "true", "false");
  }

  // ----- {{ max(xs) }}, and every other built-in function of one argument -----

  function CallOf(b: Builtin, name: string): Expr {
    Expr.Apply(Pure(b), [Lookup(name)])
  }

  /** A name that is a name to the scanner, and no reserved word. */
  predicate IsVariable(name: string) {
    Spelling.IsName(name) && name != "not" && name != "true" && name != "false" && name != "null"
  }

  lemma {:induction false} LookupSaid(name: string, level: nat)
    requires level <= 4
    ensures Said(Lookup(name), level) == " " + name
  {
    ParenthesesSaid(Lookup(name), level);
    LeafSaid(Shown(Id, ""), Null, name);
  }

  lemma {:induction false} PrintCallSaid(b: Builtin, name: string)
    requires !Linear.IsInfix(b) && Arity(Pure(b)) == 1
    ensures TextOf([Print(CallOf(b, name))]) == "{{ " + (NameOf(Pure(b)) + (" ( " + (name + " ) }}")))
  {
    var args := [Lookup(name)];
    BuiltinSaid(Pure(b), args);
    LookupSaid(name, 0);
    assert Listed(args, 0) == " " + name;
    PlainSaid("", CallOf(b, name));
    Texts.SpelledBlockOfOne(Print(CallOf(b, name)));
    CallPieces(NameOf(Pure(b)), name);
  }

  lemma {:induction false} CallPieces(f: string, name: string)
    ensures "{{" + ((" " + f + (" (" + ((" " + name) + " )"))) + " }}") == "{{ " + (f + (" ( " + (name + " ) }}")))
  {
    assert " (" + ((" " + name) + " )") == " ( " + (name + " )");
    assert (" " + f + (" ( " + (name + " )"))) + " }}" == " " + (f + (" ( " + (name + " ) }}")));
  }

  lemma {:induction false} PrintCallIsFine(setup: Setup, b: Builtin, name: string)
    requires !Linear.IsInfix(b) && Arity(Pure(b)) == 1 && IsVariable(name)
    ensures var t := [Print(CallOf(b, name))];
            && Spellable(t, 0) && SoundBlock(setup.parseJson, t) && SafeBlock(setup.notation, t, 0) && Fits(0, t, 0)
            && |TemplateCode(setup.notation, t)| < ARGS_LIMIT
  {
    var args, t, kit := [Lookup(name)], [Print(CallOf(b, name))], Expressions(setup.notation);
    assert Named(args[0]) && Named(CallOf(b, name));
    assert Sound(setup.parseJson, args[0]) && Sound(setup.parseJson, CallOf(b, name));
    assert SafeArgs(setup.notation, args, 0) && SafeArgs(setup.notation, args, 1);
    assert Spellable(t, 1) && SafeBlock(setup.notation, t, 1) && Fits(0, t, 1);
    assert SoundStmt(setup.parseJson, t[0]);
    assert CodeArgs(setup.notation, args, 0) == [] && |CodeArgs(setup.notation, args, 1)| == 1;
    assert |kit.show(CallOf(b, name))| <= 3;
    assert Size(kit, t, 1) == 0 && Size(kit, t, 0) <= 3;
  }

  /** {{ f(x) }} prints what the function of that name makes of x. */
  lemma {:induction false} CallRenders(setup: Setup, env: Env, root: Value, b: Builtin, name: string)
    requires IsFilter(setup) && !Linear.IsInfix(b) && Arity(Pure(b)) == 1 && IsVariable(name)
    ensures Usable(setup.cfg)
    ensures var v := Resolve(env, root, setup.notation, name);
            var r := if v.None? then None else env.builtin(b, [v.value]);
            Renders(setup, "{{ " + (NameOf(Pure(b)) + (" ( " + (name + " ) }}"))), env, root,
                    if r.None? then None else if r.value.Str? then Some(r.value.s) else env.dump(r.value))
  {
    var cx, e := Context(env, root, setup.notation), CallOf(b, name);
    var args, v := [Lookup(name)], Resolve(env, root, setup.notation, name);
    PrintCallSaid(b, name);
    PrintCallIsFine(setup, b, name);
    assert Eval(cx, root, args[0]) == v;
    Laws.BuiltinMeans(cx, root, b, args, if v.Some? then [v.value] else []);
    Laws.PrintMeans(cx, root, e);
    OneStatement(cx, root, Print(e));
    TreeRenders(setup, [Print(e)], TextOf([Print(e)]), env, root, Exec(cx, root, [Print(e)], 0));
  }

  lemma {:induction false} MaxText(max: string, xs: string)
    requires max == "max" && xs == "xs"
    ensures "{{ " + (max + (" ( " + (xs + " ) }}"))) == "{{ max ( xs ) }}" && IsVariable(xs)
  {
  }

  lemma {:induction false} MaxOfRenders(setup: Setup, env: Env, root: Value, v: Value, i: int, xs: string)
    requires IsFilter(setup) && xs == "xs" && Resolve(env, root, setup.notation, xs) == Some(v)
    requires env.builtin(Max, [v]) == Some(Int(i))
    ensures Usable(setup.cfg) && Renders(setup, "{{ max ( xs ) }}", env, root, env.dump(Int(i)))
  {
    MaxText(NameOf(Pure(Max)), xs);
    CallRenders(setup, env, root, Max, xs);
  }

  /** {{ max(xs) }}: the largest element, printed as the JSON library dumps it. */
  lemma {:induction false} MaxRenders(setup: Setup, env: Env, root: Value, v: Value, i: int)
    requires IsFilter(setup) && Resolve(env, root, setup.notation, "xs") == Some(v)
    requires env.builtin(Max, [v]) == Some(Int(i))
    ensures Usable(setup.cfg) && Renders(setup, "{{ max ( xs ) }}", env, root, env.dump(Int(i)))
  {
    MaxOfRenders(setup, env, root, v, i, "xs");
  }

  // ----- {% for x in xs %}{% if loop.is_first %}A{% endif %}{{ x }}{% endfor %} -----

  function Body(x: string, mark: string): seq<Stmt> {
    [IfA(Lookup(mark)), Print(Lookup(x))]
  }

  function Marking(x: string, xs: string, mark: string): Stmt {
    For(BlockTag, ItemVar(x), Lookup(xs), Body(x, mark), BlockTag)
  }

  function MarkingText(x: string, xs: string, mark: string): string {
    ("{% for " + (x + (" in " + (xs + " %}"))))
    + (("{% if " + (mark + " %}A{% endif %}")) + (("{{ " + (x + " }}")) + "{% endfor %}"))
  }

  lemma {:induction false} MarkingSaid(x: string, xs: string, mark: string)
    ensures TextOf([Marking(x, xs, mark)]) == MarkingText(x, xs, mark)
  {
    ForSaid(Marking(x, xs, mark));
    LookupSaid(xs, 0);
    BodySaid(x, mark);
    Texts.SpelledBlockOfOne(Marking(x, xs, mark));
    MarkingPieces(x, xs, mark);
  }

  lemma {:induction false} BodySaid(x: string, mark: string)
    ensures BlockSaid(Body(x, mark), 0)
            == ("{% if" + (" " + mark) + " %}A{% endif %}") + (("{{" + ((" " + x) + " }}")) + "")
  {
    TwoSaid(Body(x, mark));
    StatementSaid(IfA(Lookup(mark)));
    LookupSaid(mark, 0);
    LookupSaid(x, 0);
    IfASaid(Lookup(mark));
    PlainSaid("", Lookup(x));
  }

  lemma {:induction false} TwoSaid(b: seq<Stmt>)
    requires |b| == 2
    ensures BlockSaid(b, 0) == StmtSaid(b[0]) + (StmtSaid(b[1]) + "")
  {
    BlocksSaid(b, 0);
    BlocksSaid(b, 1);
    BlocksSaid(b, 2);
  }

  lemma {:induction false} StatementSaid(s: Stmt)
    ensures StmtSaid(s) == TextOf([s])
  {
    Texts.SpelledBlockOfOne(s);
  }

  lemma {:induction false} MarkingPieces(x: string, xs: string, mark: string)
    ensures "{%" + ((" for" + ((" " + x) + " in") + (" " + xs)) + " %}")
            + ((("{% if" + (" " + mark) + " %}A{% endif %}") + (("{{" + ((" " + x) + " }}")) + ""))
               + ("{%" + (" endfor" + " %}")))
            == MarkingText(x, xs, mark)
  {
    assert "{%" + (" endfor" + " %}") == "{% endfor %}";
    MarkingHead(x, xs);
    MarkingBody(x, mark);
    Texts.Regroup("{% if " + (mark + " %}A{% endif %}"), "{{ " + (x + " }}"), "{% endfor %}");
  }

  lemma {:induction false} MarkingHead(x: string, xs: string)
    ensures "{%" + ((" for" + ((" " + x) + " in") + (" " + xs)) + " %}") == "{% for " + (x + (" in " + (xs + " %}")))
  {
    assert ((" " + x) + " in") + (" " + xs) == " " + (x + (" in " + xs));
  }

  lemma {:induction false} MarkingBody(x: string, mark: string)
    ensures ("{% if" + (" " + mark) + " %}A{% endif %}") + (("{{" + ((" " + x) + " }}")) + "")
            == ("{% if " + (mark + " %}A{% endif %}")) + ("{{ " + (x + " }}"))
  {
    assert "{% if" + (" " + mark) == "{% if " + mark;
    assert ("{{" + ((" " + x) + " }}")) + "" == "{{ " + (x + " }}");
  }

  lemma {:induction false} BodyIsFine(setup: Setup, x: string, mark: string)
    requires IsVariable(x) && IsVariable(mark)
    ensures var b := Body(x, mark);
            && Spellable(b, 0) && SoundBlock(setup.parseJson, b) && SafeBlock(setup.notation, b, 0) && Fits(1, b, 0)
            && Size(Expressions(setup.notation), b, 0) <= 5
  {
    var b, a, kit := Body(x, mark), [Text("A")], Expressions(setup.notation);
    var br := Branches(Lookup(mark), a, EndIf(BlockTag));
    assert Spellable(a, 1) && SafeBlock(setup.notation, a, 1) && Fits(1, a, 1) && SoundBlock(setup.parseJson, a);
    assert SpellableElse(br.els) && SafeElse(setup.notation, br.els) && FitsElse(1, br.els);
    assert SpellableBranches(br) && SafeBranches(setup.notation, br) && FitsBranches(1, br);
    assert SpellableStmt(b[0]) && SafeStmt(setup.notation, b[0]) && FitsStmt(1, b[0]);
    assert SoundBranches(setup.parseJson, br) && SoundStmt(setup.parseJson, b[0]) && SoundStmt(setup.parseJson, b[1]);
    assert SafeStmt(setup.notation, b[1]) && SpellableStmt(b[1]) && FitsStmt(1, b[1]);
    assert Spellable(b, 2) && Spellable(b, 1) && SafeBlock(setup.notation, b, 2) && SafeBlock(setup.notation, b, 1);
    assert Fits(1, b, 2) && Fits(1, b, 1);
    assert Size(kit, a, 1) == 0 && Size(kit, a, 0) == 1 && SizeElse(kit, EndIf(BlockTag)) == 0;
    assert SizeBranches(kit, br) == 3;
    assert Size(kit, b, 2) == 0 && Size(kit, b, 1) == 1;
  }

  lemma {:induction false} MarkingIsFine(setup: Setup, x: string, xs: string, mark: string)
    requires IsVariable(x) && IsVariable(xs) && IsVariable(mark)
    ensures var t := [Marking(x, xs, mark)];
            && Spellable(t, 0) && SoundBlock(setup.parseJson, t) && SafeBlock(setup.notation, t, 0) && Fits(0, t, 0)
            && |TemplateCode(setup.notation, t)| < ARGS_LIMIT
  {
    var t, kit := [Marking(x, xs, mark)], Expressions(setup.notation);
    BodyIsFine(setup, x, mark);
    assert SoundStmt(setup.parseJson, t[0]) && SpellableStmt(t[0]);
    assert Spellable(t, 1) && SafeBlock(setup.notation, t, 1) && Fits(0, t, 1);
    assert Size(kit, t, 1) == 0 && SizeStmt(kit, t[0]) <= 8;
  }

  /** In the body's scope, its two names are found. */
  lemma {:induction false} BodyMeans(cx: Context, data: Value, x: string, mark: string, first: bool, s: string)
    requires Eval(cx, data, Lookup(x)) == Some(Str(s)) && Eval(cx, data, Lookup(mark)) == Some(Bool(first))
    ensures Exec(cx, data, Body(x, mark), 0) == Some((if first then "A" else "") + s)
  {
    var b := Body(x, mark);
    OneStatement(cx, data, Text("A"));
    Laws.TextMeans(cx, data, "A");
    Laws.IfMeans(cx, data, BlockTag, Branches(Lookup(mark), [Text("A")], EndIf(BlockTag)));
    Laws.PrintMeans(cx, data, Lookup(x));
    assert Exec(cx, data, b, 2) == Some("");
    assert s + "" == s;
    assert Exec(cx, data, b, 1) == Some(s);
  }

  /** The data finds an item under x and an iteration's mark under loop.is_first, as JSON pointers do. */
  ghost predicate Finds(env: Env) {
    && (forall f: map<string, Value> :: "x" in f ==> env.lookup(Obj(f), "/x") == Some(f["x"]))
    && (forall f: map<string, Value> :: "loop" in f && f["loop"].Obj? && "is_first" in f["loop"].fields ==>
          env.lookup(Obj(f), "/loop/is_first") == Some(f["loop"].fields["is_first"]))
  }

  function Strings(ss: seq<string>): seq<Value> {
    seq(|ss|, i requires 0 <= i < |ss| => Str(ss[i]))
  }

  function Marked(ss: seq<string>): seq<string> {
    seq(|ss|, i requires 0 <= i < |ss| => (if i == 0 then "A" else "") + ss[i])
  }

  lemma {:induction false} JoinedMarked(ss: seq<string>, k: nat)
    requires k <= |ss|
    ensures Laws.Joined(Marked(ss), k) == (if k == 0 && ss != [] then "A" else "") + Laws.Joined(ss, k)
    decreases |ss| - k
  {
    NothingInFront(Laws.Joined(ss, k));
    if k < |ss| {
      JoinedMarked(ss, k + 1);
      NothingInFront(ss[k]);
      NothingInFront(Laws.Joined(ss, k + 1));
      Texts.Regroup("A", ss[k], Laws.Joined(ss, k + 1));
    }
  }

  lemma {:induction false} NothingInFront(s: string)
    ensures "" + s == s
  {
  }

  lemma {:induction false} ScopeMeans(cx: Context, fields: map<string, Value>, x: string, mark: string,
                                      ss: seq<string>, i: nat)
    requires cx.notation == LookupDot && Finds(cx.env) && x == "x" && mark == "loop.is_first" && i < |ss|
    ensures var scope := Obj(Laws.ItemFields(x, fields, Strings(ss), i));
            Exec(cx, scope, Body(x, mark), 0) == Some(Marked(ss)[i])
  {
    var f := Laws.ItemFields(x, fields, Strings(ss), i);
    assert x != "loop";
    assert Laws.IsDotPointer(x, "/x");
    PointerOfMark(mark);
    assert "x" in f && f["x"] == Str(ss[i]);
    assert "loop" in f && f["loop"].Obj? && "is_first" in f["loop"].fields;
    assert f["loop"].fields["is_first"] == Bool(i == 0);
    Laws.LookupMeans(cx, Obj(f), x, "/x");
    Laws.LookupMeans(cx, Obj(f), mark, "/loop/is_first");
    BodyMeans(cx, Obj(f), x, mark, i == 0, ss[i]);
  }

  lemma {:induction false} PointerOfMark(mark: string)
    requires mark == "loop.is_first"
    ensures Laws.IsDotPointer(mark, "/loop/is_first") && IsVariable(mark)
  {
  }

  /** The loop writes A and then all items, one behind another. */
  lemma {:induction false} MarkingMeans(cx: Context, fields: map<string, Value>, x: string, xs: string, mark: string,
                                        ss: seq<string>)
    requires cx.notation == LookupDot && Finds(cx.env) && x == "x" && mark == "loop.is_first" && "loop" !in fields
    requires Eval(cx, Obj(fields), Lookup(xs)) == Some(Arr(Strings(ss))) && ss != []
    ensures Exec(cx, Obj(fields), [Marking(x, xs, mark)], 0) == Some("A" + Laws.Joined(ss, 0))
  {
    forall i | 0 <= i < |ss|
      ensures Exec(cx, Obj(Laws.ItemFields(x, fields, Strings(ss), i)), Body(x, mark), 0) == Some(Marked(ss)[i])
    {
      ScopeMeans(cx, fields, x, mark, ss, i);
    }
    assert x != "loop";
    Laws.ArrayLoopMeans(cx, Obj(fields), fields, Marking(x, xs, mark), x, Strings(ss), Marked(ss));
    JoinedMarked(ss, 0);
    OneStatement(cx, Obj(fields), Marking(x, xs, mark));
  }

  function FirstMarkedText(): string {
    "{% for x in xs %}" + ("{% if loop.is_first %}A{% endif %}" + ("{{ x }}" + "{% endfor %}"))
  }

  lemma {:induction false} MarkedText(x: string, xs: string, mark: string)
    requires x == "x" && xs == "xs" && mark == "loop.is_first"
    ensures MarkingText(x, xs, mark) == FirstMarkedText()
    ensures IsVariable(x) && IsVariable(xs) && IsVariable(mark)
  {
    assert "{% for " + (x + (" in " + (xs + " %}"))) == "{% for x in xs %}";
    assert "{% if " + (mark + " %}A{% endif %}") == "{% if loop.is_first %}A{% endif %}";
    assert "{{ " + (x + " }}") == "{{ x }}";
    PointerOfMark(mark);
  }

  lemma {:induction false} MarkingRenders(setup: Setup, env: Env, fields: map<string, Value>, x: string, xs: string,
                                          mark: string, ss: seq<string>)
    requires IsFilter(setup) && setup.notation == LookupDot && Finds(env)
    requires x == "x" && xs == "xs" && mark == "loop.is_first" && "loop" !in fields
    requires Resolve(env, Obj(fields), LookupDot, xs) == Some(Arr(Strings(ss))) && ss != []
    ensures Usable(setup.cfg)
    ensures Renders(setup, MarkingText(x, xs, mark), env, Obj(fields), Some("A" + Laws.Joined(ss, 0)))
  {
    var t := [Marking(x, xs, mark)];
    MarkingSaid(x, xs, mark);
    MarkedText(x, xs, mark);
    MarkingIsFine(setup, x, xs, mark);
    MarkingMeans(Context(env, Obj(fields), LookupDot), fields, x, xs, mark, ss);
    TreeRenders(setup, t, MarkingText(x, xs, mark), env, Obj(fields), Some("A" + Laws.Joined(ss, 0)));
  }

  lemma {:induction false} TwoStrings(ss: seq<string>)
    requires ss == ["1", "2"]
    ensures Strings(ss) == [Str("1"), Str("2")] && "A" + Laws.Joined(ss, 0) == "A12"
  {
    assert Laws.Joined(ss, 2) == "" && Laws.Joined(ss, 1) == "2" + "" && Laws.Joined(ss, 0) == "1" + "2";
  }

  lemma {:induction false} TwoAreMarked(setup: Setup, env: Env, fields: map<string, Value>, x: string, xs: string,
                                        mark: string)
    requires IsFilter(setup) && setup.notation == LookupDot && Finds(env) && "loop" !in fields
    requires x == "x" && xs == "xs" && mark == "loop.is_first"
    requires Resolve(env, Obj(fields), LookupDot, xs) == Some(Arr([Str("1"), Str("2")]))
    ensures Usable(setup.cfg)
    ensures Renders(setup, FirstMarkedText(), env, Obj(fields), Some("A12"))
  {
    TwoStrings(["1", "2"]);
    MarkingRenders(setup, env, fields, x, xs, mark, ["1", "2"]);
    MarkedText(x, xs, mark);
  }

  /** {% for x in xs %}{% if loop.is_first %}A{% endif %}{{ x }}{% endfor %}: on 1 and 2, A12. */
  lemma {:induction false} FirstIsMarked(setup: Setup, env: Env, fields: map<string, Value>)
    requires IsFilter(setup) && setup.notation == LookupDot && Finds(env) && "loop" !in fields
    requires Resolve(env, Obj(fields), LookupDot, "xs") == Some(Arr([Str("1"), Str("2")]))
    ensures Usable(setup.cfg)
    ensures Renders(setup, FirstMarkedText(), env, Obj(fields), Some("A12"))
  {
    TwoAreMarked(setup, env, fields, "x", "xs", "loop.is_first");
  }
}
