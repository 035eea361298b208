/** The three callbacks that header templates call, and a template that copies a header. */
module Callbacks {
  import opened Options
  import opened Json
  import opened Bytecodes
  import opened Tokens
  import opened Machine
  import opened Syntax
  import opened Compiler
  import opened Headers
  import opened Transformers
  import opened EndToEnd
  import opened FilterTrees
  import opened Writing
  import Laws
  import Grammar
  import Renderers
  import Linear
  import Orders
  import Registry
  import Scanning
  import Spelling
  import Texts

  // ----- what they answer -----

  /** v is the value of the first header of a name, or empty when there is none. */
  ghost predicate IsHeaderValue(hs: seq<Header>, name: string, v: string) {
    || (exists i :: 0 <= i < |hs| && hs[i] == (name, v) && forall j | 0 <= j < i :: hs[j].0 != name)
    || (v == "" && forall i | 0 <= i < |hs| :: hs[i].0 != name)
  }

  /** v is what an extractor takes from the first header of its name, or empty when there is none. */
  ghost predicate IsExtract(x: Extractor, hs: seq<Header>, v: string) {
    || (exists i :: 0 <= i < |hs| && hs[i].0 == x.headername && v == x.value(hs[i].1)
                    && forall j | 0 <= j < i :: hs[j].0 != x.headername)
    || (v == "" && forall i | 0 <= i < |hs| :: hs[i].0 != x.headername)
  }

  /** v is what the last extractor of a name extracts, or empty when there is none. */
  ghost predicate IsExtraction(xs: seq<(string, Extractor)>, hs: seq<Header>, name: string, v: string) {
    || (exists i :: 0 <= i < |xs| && xs[i].0 == name && IsExtract(xs[i].1, hs, v)
                    && forall j | i < j < |xs| :: xs[j].0 != name)
    || (v == "" && forall i | 0 <= i < |xs| :: xs[i].0 != name)
  }

  lemma {:induction false} FirstHeader(hs: seq<Header>, name: string, k: nat)
    requires k <= |hs| && forall j | 0 <= j < k :: hs[j].0 != name
    ensures var r := GetHeaderFrom(hs, name, k);
            if r.Some? then
              exists i :: 0 <= i < |hs| && hs[i] == (name, r.value) && forall j | 0 <= j < i :: hs[j].0 != name
            else forall i | 0 <= i < |hs| :: hs[i].0 != name
    decreases |hs| - k
  {
    if k < |hs| {
      if hs[k].0 == name {
        assert hs[k] == (name, hs[k].1);
      } else {
        FirstHeader(hs, name, k + 1);
      }
    }
  }

  lemma {:induction false} ExtractMeans(x: Extractor, hs: seq<Header>)
    ensures IsExtract(x, hs, Extract(x, hs))
  {
    FirstHeader(hs, x.headername, 0);
    var r := GetHeader(hs, x.headername);
    if r.Some? {
      var i :| 0 <= i < |hs| && hs[i] == (x.headername, r.value) && forall j | 0 <= j < i :: hs[j].0 != x.headername;
      assert hs[i].0 == x.headername;
    }
  }

  lemma {:induction false} LastExtraction(xs: seq<(string, Extractor)>, hs: seq<Header>, name: string, n: nat)
    requires n <= |xs|
    ensures var m := Extractions(xs, hs, n);
            && (name in m <==> exists i :: 0 <= i < n && xs[i].0 == name)
            && (name in m ==>
                  exists i :: 0 <= i < n && xs[i].0 == name && m[name] == Extract(xs[i].1, hs)
                              && forall j | i < j < n :: xs[j].0 != name)
    decreases n
  {
    if n > 0 {
      LastExtraction(xs, hs, name, n - 1);
      if xs[n - 1].0 == name {
        assert Extractions(xs, hs, n)[name] == Extract(xs[n - 1].1, hs);
      }
    }
  }

  lemma {:induction false} ExtractionMeans(xs: seq<(string, Extractor)>, hs: seq<Header>, name: string, v: string)
    requires var m := Extractions(xs, hs, |xs|); v == if name in m then m[name] else ""
    ensures IsExtraction(xs, hs, name, v)
  {
    var m := Extractions(xs, hs, |xs|);
    LastExtraction(xs, hs, name, |xs|);
    if name in m {
      var i :| 0 <= i < |xs| && xs[i].0 == name && m[name] == Extract(xs[i].1, hs)
               && forall j | i < j < |xs| :: xs[j].0 != name;
      ExtractMeans(xs[i].1, hs);
      assert xs[i].0 == name;
    }
  }

  lemma {:induction false} NamesApart()
    ensures "extraction" != "header" && "context" != "header" && "context" != "extraction"
  {
    assert |"extraction"| == 10 && |"header"| == 6 && |"context"| == 7;
  }

  lemma {:induction false} Answer(t: InjaTransformer, hs: seq<Header>, name: string, args: seq<Value>)
    ensures var r, m := t.EnvOf(hs).callback(name, args), Extractions(t.extractors, hs, |t.extractors|);
            && (name == "header" ==> r == NamedValue(args, key => GetHeader(hs, key)))
            && (name != "header" && name == "extraction" ==> r == NamedValue(args, key => Found(m, key)))
            && (name != "header" && name != "extraction" ==> r == Some(CONTEXT))
  {
  }

  /** header(n): the first value of n in the snapshot, or the empty string. */
  lemma {:induction false} HeaderMeans(t: InjaTransformer, hs: seq<Header>, name: string) returns (v: string)
    ensures t.EnvOf(hs).callback("header", [Str(name)]) == Some(Str(v)) && IsHeaderValue(hs, name, v)
  {
    FirstHeader(hs, name, 0);
    v := match GetHeader(hs, name) case Some(w) => w case None => "";
  }

  /** extraction(n): what the last extractor n makes of the snapshot, or the empty string. */
  lemma {:induction false} ExtractionCallbackMeans(t: InjaTransformer, hs: seq<Header>, name: string)
    returns (v: string)
    ensures t.EnvOf(hs).callback("extraction", [Str(name)]) == Some(Str(v)) && IsExtraction(t.extractors, hs, name, v)
  {
    var m := Extractions(t.extractors, hs, |t.extractors|);
    v := if name in m then m[name] else "";
    NamesApart();
    Answer(t, hs, "extraction", [Str(name)]);
    ExtractionMeans(t.extractors, hs, name, v);
  }

  /** context() is null, since no body is ever parsed; a name that is no string throws; and there are no
      other callbacks. */
  lemma {:induction false} OtherCallbacks(t: InjaTransformer, hs: seq<Header>, v: Value, name: string, n: nat)
    ensures t.EnvOf(hs).callback("context", []) == Some(Null)
    ensures !v.Str? ==>
              t.EnvOf(hs).callback("header", [v]) == None && t.EnvOf(hs).callback("extraction", [v]) == None
    ensures t.EnvOf(hs).hasCallback(name, n) <==>
            (name == "header" && n == 1) || (name == "extraction" && n == 1) || (name == "context" && n == 0)
    ensures t.EnvOf(hs).lookup == t.lib.lookup && t.EnvOf(hs).builtin == t.lib.builtin
            && t.EnvOf(hs).dump == t.lib.dump
  {
    NamesApart();
    Answer(t, hs, "context", []);
    Answer(t, hs, "header", [v]);
    Answer(t, hs, "extraction", [v]);
  }

  // ----- a template that copies a header -----

  /** The call of header on a name, given as a string literal. */
  function HeaderCall(name: string, quoted: string): Expr {
    Call("header", [Lit(Shown(String, quoted), Str(name))])
  }

  /** {{ header("name") }} */
  function HeaderText(quoted: string): string {
    "{{ header ( " + quoted + " ) }}"
  }

  lemma {:induction false} SpelledHeader(name: string, quoted: string)
    ensures TextOf([Print(HeaderCall(name, quoted))]) == HeaderText(quoted)
  {
    var arg, open, close := Lit(Shown(String, quoted), Str(name)), Linear.OfKind(LeftParen), Linear.OfKind(RightParen);
    var word, literal := Linear.Exactly(Id, "header"), Linear.Exactly(String, quoted);
    assert Linear.Written([arg][0], 0) == [literal];
    assert Linear.WrittenArgs([arg], 0) == [literal, close];
    assert Linear.WrittenCall("header", [arg]) == [word] + ([open] + [literal, close]);
    assert [word] + ([open] + [literal, close]) == [word, open] + [literal, close];
    assert Linear.Written(HeaderCall(name, quoted), 0) == [word, open] + [literal, close];
    Texts.SpelledPairs(word, open, literal, close);
    Texts.SpelledAround(Linear.OfKind(ExpressionOpen), [word, open] + [literal, close], Linear.OfKind(ExpressionClose));
    Texts.SpelledBlockOfOne(Print(HeaderCall(name, quoted)));
    HeaderPieces(quoted);
  }

  lemma {:induction false} HeaderPieces(quoted: string)
    ensures "{{" + ((((" " + "header") + (" " + "(")) + ((" " + quoted) + (" " + ")"))) + " }}") == HeaderText(quoted)
  {
    assert (" " + "header") + (" " + "(") == " header (";
    assert "{{" + " header (" + " " == "{{ header ( ";
  }

  /** The literal is one the scanner and the JSON parser read as the name. */
  predicate Quotes(setup: Setup, quoted: string, name: string) {
    Spelling.IsQuoted(quoted) && setup.parseJson(quoted) == Some(Str(name))
  }

  lemma {:induction false} HeaderTreeIsFine(setup: Setup, name: string, quoted: string)
    requires IsFilter(setup) && Quotes(setup, quoted, name)
    ensures var b := [Print(HeaderCall(name, quoted))];
            && Spellable(b, 0) && SoundBlock(setup.parseJson, b)
            && SafeBlock(setup.notation, b, 0) && Fits(0, b, 0) && |TemplateCode(setup.notation, b)| < ARGS_LIMIT
  {
    var arg := Lit(Shown(String, quoted), Str(name));
    var e, b := HeaderCall(name, quoted), [Print(HeaderCall(name, quoted))];
    assert Named(arg) && Spelling.IsName("header");
    assert Spellable(b, 1) && SafeBlock(setup.notation, b, 1) && Fits(0, b, 1);
    HeaderIsNoBuiltin();
    assert Sound(setup.parseJson, arg) && Sound(setup.parseJson, e);
    assert SafeArgs(setup.notation, [arg], 0) && SafeArgs(setup.notation, [arg], 1);
    HeaderCodeIsSmall(setup.notation, name, quoted);
  }

  lemma {:induction false} HeaderIsNoBuiltin()
    ensures !(exists f :: Registry.IsCalled(f) && NameOf(f) == "header" && Arity(f) == 1) && "header" != "not"
  {
    forall f ensures NameOf(f) != "header" {
      Registry.MarkIsRight(f);
      if |NameOf(f)| == |"header"| {
        assert NameOf(f)[0] != "header"[0];
      }
    }
  }

  lemma {:induction false} HeaderCodeIsSmall(notation: Notation, name: string, quoted: string)
    ensures |TemplateCode(notation, [Print(HeaderCall(name, quoted))])| <= 2
  {
    var arg := Lit(Shown(String, quoted), Str(name));
    assert CodeArgs(notation, [arg], 0) == [];
    assert CodeArgs(notation, [arg], 1) == [PushLiteral(Str(name))];
    var b, kit := [Print(HeaderCall(name, quoted))], Expressions(notation);
    assert Layout(kit, b, 1, SizeStmt(kit, b[0])) == [];
  }

  /** What the template means: the header's first value in the snapshot. */
  lemma {:induction false} HeaderTreeMeans(t: InjaTransformer, hs: seq<Header>, root: Value, notation: Notation,
                                           name: string, quoted: string) returns (v: string)
    ensures IsHeaderValue(hs, name, v)
    ensures Exec(Context(t.EnvOf(hs), root, notation), root, [Print(HeaderCall(name, quoted))], 0) == Some(v)
  {
    var cx := Context(t.EnvOf(hs), root, notation);
    var arg, b := Lit(Shown(String, quoted), Str(name)), [Print(HeaderCall(name, quoted))];
    v := HeaderMeans(t, hs, name);
    assert Eval(cx, root, arg) == Some(Str(name));
    Laws.CallMeans(cx, root, "header", [arg], [Str(name)]);
    OtherCallbacks(t, hs, Str(name), "header", 1);
    Laws.PrintMeans(cx, root, HeaderCall(name, quoted));
    assert Exec(cx, root, b, 1) == Some("");
    assert v + "" == v;
  }

  /** The template's text is accepted, and renders to that value. */
  lemma {:induction false} HeaderTextRenders(t: InjaTransformer, hs: seq<Header>, root: Value, name: string,
                                             quoted: string) returns (v: string)
    requires IsFilter(t.setup) && Scanning.Usable(t.setup.cfg) && Quotes(t.setup, quoted, name)
    ensures IsHeaderValue(hs, name, v)
    ensures var r := Front(t.setup)(HeaderText(quoted));
            && r.Accepted? && Halts(r.code, t.EnvOf(hs), root)
            && Ending(r.code, t.EnvOf(hs), root) == At(State(|r.code|, [], [], v))
  {
    var b := [Print(HeaderCall(name, quoted))];
    v := HeaderTreeMeans(t, hs, root, t.setup.notation, name, quoted);
    SpelledHeader(name, quoted);
    HeaderTreeIsFine(t.setup, name, quoted);
    SpellableSpells(b);
    SoundBlockIsPrintable(SourceOf(t.setup, TextOf(b)), b);
    SpelledTreeIsWritten(t.setup, b);
    WrittenTemplateEnds(t.setup, HeaderText(quoted), b, t.EnvOf(hs), root);
  }

  /** The value an update leaves under its name, when no other update has the name. */
  lemma {:induction false} OwnUpdate(before: seq<Header>, us: seq<Header>, i: nat)
    requires Distinct(us) && i < |us|
    ensures Values(Updated(before, us, |us|), us[i].0) == if us[i].1 == "" then [] else [us[i].1]
  {
    ValuesUpdated(before, us, |us|, us[i].0);
    LastForIsMember(us, us[i].0, |us|);
    assert us[..|us|] == us && us[i] in us;
  }

  /** A template {{ header("k") }} among others of distinct names, when it and those before it render:
      transform leaves under its name the first value that k has in the snapshot, and no other. `after`
      is what transform's contract says of the host's headers. */
  lemma {:induction false} HeaderIsCopied(t: InjaTransformer, hs: seq<Header>, before: seq<Header>, after: seq<Header>,
                                          i: nat, k: nat, name: string, quoted: string) returns (v: string)
    requires IsFilter(t.setup) && Scanning.Usable(t.setup.cfg) && Quotes(t.setup, quoted, name)
    requires DistinctNames(t.headers) && AllHalt(t.headers, t.EnvOf(hs), Null)
    requires i < |t.headers| && Front(t.setup)(HeaderText(quoted)) == Grammar.Accepted(t.headers[i].1)
    requires i < k == Leading(t.headers, t.EnvOf(hs), Null, |t.headers|)
    requires after == Updated(before, Renders(t.headers, t.EnvOf(hs), Null, k), k)
    ensures IsHeaderValue(hs, name, v)
    ensures Values(after, t.headers[i].0) == if v == "" then [] else [v]
  {
    v := HeaderTextRenders(t, hs, Null, name, quoted);
    var us := Renders(t.headers, t.EnvOf(hs), Null, k);
    Orders.RenderAt(t.headers, t.EnvOf(hs), Null, k, i);
    OwnUpdate(before, us, i);
  }

  /** And it does render: it can only be missing because one before it throws. */
  lemma {:induction false} HeaderTemplateLeads(t: InjaTransformer, hs: seq<Header>, i: nat, name: string,
                                               quoted: string)
    requires IsFilter(t.setup) && Scanning.Usable(t.setup.cfg) && Quotes(t.setup, quoted, name)
    requires AllHalt(t.headers, t.EnvOf(hs), Null)
    requires i < |t.headers| && Front(t.setup)(HeaderText(quoted)) == Grammar.Accepted(t.headers[i].1)
    ensures Leading(t.headers, t.EnvOf(hs), Null, |t.headers|) != i
  {
    var v := HeaderTextRenders(t, hs, Null, name, quoted);
  }

  lemma {:induction false} OneTemplate(t: InjaTransformer, hs: seq<Header>, target: string, name: string,
                                       quoted: string)
    returns (v: string)
    requires IsFilter(t.setup) && Scanning.Usable(t.setup.cfg) && Quotes(t.setup, quoted, name)
    requires ParseFirst(Front(t.setup), [(target, HeaderText(quoted))], 1) == All(t.headers)
    ensures IsHeaderValue(hs, name, v)
    ensures |t.headers| == 1 && AllHalt(t.headers, t.EnvOf(hs), Null)
    ensures Leading(t.headers, t.EnvOf(hs), Null, 1) == 1
    ensures Renders(t.headers, t.EnvOf(hs), Null, 1) == [(ToLower(target), v)]
  {
    var ts := [(target, HeaderText(quoted))];
    v := HeaderTextRenders(t, hs, Null, name, quoted);
    Orders.ParsedAll(Front(t.setup), ts, 1);
    assert t.headers[0] == (ToLower(target), Front(t.setup)(HeaderText(quoted)).code);
    Orders.RenderAt(t.headers, t.EnvOf(hs), Null, 1, 0);
  }

  lemma {:induction false} OneTemplateParses(setup: Setup, target: string, name: string, quoted: string)
    requires IsFilter(setup) && Scanning.Usable(setup.cfg) && Quotes(setup, quoted, name)
    ensures ParseFirst(Front(setup), [(target, HeaderText(quoted))], 1).All?
  {
    var ts, b := [(target, HeaderText(quoted))], [Print(HeaderCall(name, quoted))];
    SpelledHeader(name, quoted);
    HeaderTreeIsFine(setup, name, quoted);
    SpellableSpells(b);
    SoundBlockIsPrintable(SourceOf(setup, TextOf(b)), b);
    SpelledTreeIsWritten(setup, b);
    WrittenTextParses(setup, HeaderText(quoted), b);
    Orders.ParsedAll(Front(setup), ts, 1);
  }

  /** The headers of one name are replaced by one value, or by none if it is empty; those of all other
      names keep theirs. */
  ghost predicate OnlyChanged(before: seq<Header>, after: seq<Header>, u: Header) {
    forall name :: Values(after, name) ==
      if name != u.0 then Values(before, name) else if u.1 == "" then [] else [u.1]
  }

  /** From a configuration of one such template to the host's headers: the target has the first value
      of the name in the snapshot, or none, and no other header changes. */
  method CopyHeader(setup: Setup, lib: Library, target: string, name: string, quoted: string, hs: seq<Header>,
                    host: HeaderMap) returns (c: Renderers.Came, ghost v: string)
    requires IsFilter(setup) && Scanning.Usable(setup.cfg) && Quotes(setup, quoted, name)
    modifies host
    ensures c == Renderers.Onward && IsHeaderValue(hs, name, v)
    ensures OnlyChanged(old(host.entries), host.entries, (ToLower(target), v))
  {
    var t := new InjaTransformer(setup, lib);
    OneTemplateParses(setup, target, name, quoted);
    c := t.Configure([], [(target, HeaderText(quoted))]);
    v := OneTemplate(t, hs, target, name, quoted);
    c := TransformOne(t, hs, host, (ToLower(target), v));
  }

  /** A transformer of one template, whose update is known. */
  method TransformOne(t: InjaTransformer, hs: seq<Header>, host: HeaderMap, ghost u: Header) returns (c: Renderers.Came)
    requires AllHalt(t.headers, t.EnvOf(hs), Null) && |t.headers| == 1
    requires Leading(t.headers, t.EnvOf(hs), Null, 1) == 1 && Renders(t.headers, t.EnvOf(hs), Null, 1) == [u]
    modifies host
    ensures c == Renderers.Onward
    ensures OnlyChanged(old(host.entries), host.entries, u)
  {
    ghost var cs, env, before := t.headers, t.EnvOf(hs), host.entries;
    c := t.Transform(hs, host);
    TransformedOne(cs, env, before, host.entries, u);
  }

  lemma {:induction false} TransformedOne(cs: Compiled, env: Env, before: seq<Header>, after: seq<Header>, u: Header)
    requires AllHalt(cs, env, Null) && |cs| == 1 && Leading(cs, env, Null, 1) == 1 && Renders(cs, env, Null, 1) == [u]
    requires var k := Leading(cs, env, Null, |cs|); after == Updated(before, Renders(cs, env, Null, k), k)
    ensures OnlyChanged(before, after, u)
  {
    OneUpdate(before, Renders(cs, env, Null, 1), u);
  }

  /** What one update leaves under each name. */
  lemma {:induction false} OneUpdate(before: seq<Header>, us: seq<Header>, u: Header)
    requires us == [u]
    ensures OnlyChanged(before, Updated(before, us, 1), u)
  {
    assert Updated(before, us, 0) == before;
    forall other ensures Values(Updated(before, us, 1), other) ==
      if other != u.0 then Values(before, other) else if u.1 == "" then [] else [u.1]
    {
      ValuesUpdate(before, u, other);
    }
  }
}
