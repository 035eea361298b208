/** The header transformation: templates parsed once by one parser, then rendered for each request
    against a snapshot of its headers. */
module Transformers {
  import opened Options
  import opened Json
  import opened Bytecodes
  import opened Machine
  import opened Lexing
  import opened Scanning
  import Grammar
  import Parsers
  import opened Renderers
  import opened Headers
  import opened Syntax
  import opened Compiler
  import opened Correctness
  import opened EndToEnd

  /** What the filter's configuration gives: header names with their templates' texts. */
  type Templates = seq<(string, string)>

  /** A regular expression's group, or "" when it does not match: foreign code. */
  datatype Extractor = Extractor(headername: string, value: string -> string)

  function Extract(x: Extractor, hs: seq<Header>): string {
    match GetHeader(hs, x.headername)
    case Some(v) => x.value(v)
    case None => ""
  }

  /** What the renderer takes from outside: the JSON library and the built-in functions. */
  datatype Library = Library(
    lookup: (Value, string) -> Option<Value>,
    builtin: (Builtin, seq<Value>) -> Option<Value>,
    dump: Value -> Option<string>)

  /** header_callback and extracted_callback: a name that is not a string throws. */
  function NamedValue(args: seq<Value>, find: string -> Option<string>): Option<Value> {
    if args == [] || !args[0].Str? then None
    else match find(args[0].s)
      case Some(v) => Some(Str(v))
      case None => Some(Str(""))
  }

  function Found(extractions: map<string, string>, name: string): Option<string> {
    if name in extractions then Some(extractions[name]) else None
  }

  /** TransformerInstance: three callbacks, all of them about the snapshot. */
  function Instance(lib: Library, hs: seq<Header>, extractions: map<string, string>, context: Value): Env {
    Env(lib.lookup,
        (name: string, n: nat) =>
          (name == "header" && n == 1) || (name == "extraction" && n == 1) || (name == "context" && n == 0),
        (name: string, args: seq<Value>) =>
          if name == "header" then NamedValue(args, key => GetHeader(hs, key))
          else if name == "extraction" then NamedValue(args, key => Found(extractions, key))
          else Some(context),
        lib.builtin, lib.dump)
  }

  /** The first n extractions; a later one of the same name replaces an earlier one. */
  function Extractions(xs: seq<(string, Extractor)>, hs: seq<Header>, n: nat): map<string, string>
    requires n <= |xs|
    decreases n, xs
  {
    if n == 0 then map[] else Extractions(xs, hs, n - 1)[xs[n - 1].0 := Extract(xs[n - 1].1, hs)]
  }

  /** What a template is rendered with: the context if it is an object, null if not. */
  function RootData(context: Value): Value {
    if context.Obj? then context else Null
  }

  /** json_body is never filled. */
  const CONTEXT: Value := Null

  // ----- construction -----

  type Compiled = seq<(string, seq<Bytecode>)>

  /** How a parser of one's own takes a template's text. */
  function Front(setup: Setup): string -> Grammar.Outcome
    requires Usable(setup.cfg)
  {
    (text: string) => EndToEnd.ParseText(setup, text)
  }

  predicate Asked(text: string) {
    true
  }

  ghost predicate Fronts(parse: string -> Grammar.Outcome, setup: Setup) {
    Usable(setup.cfg) && forall text {:trigger Asked(text)} :: Asked(text) ==>
      parse(text) == EndToEnd.ParseText(setup, text)
  }

  /** What parsing a list of templates comes to: code for all of them, or what became of the first
      that is not accepted. */
  datatype Parsing = All(headers: Compiled) | Refusal | Gone

  /** The first n templates, each by a parser of its own. */
  function ParseFirst(parse: string -> Grammar.Outcome, ts: Templates, n: nat): Parsing
    requires n <= |ts|
    decreases n, ts
  {
    if n == 0 then All([])
    else match ParseFirst(parse, ts, n - 1)
      case Refusal => Refusal
      case Gone => Gone
      case All(before) =>
        match parse(ts[n - 1].1)
        case Accepted(code) => All(before + [(ToLower(ts[n - 1].0), code)])
        case ParserError => Refusal
        case Undefined => Gone
  }

  lemma {:induction false} FailureStays(parse: string -> Grammar.Outcome, ts: Templates, k: nat, n: nat)
    requires k <= n <= |ts| && !ParseFirst(parse, ts, k).All?
    ensures ParseFirst(parse, ts, n) == ParseFirst(parse, ts, k)
    decreases n
  {
    if k < n {
      FailureStays(parse, ts, k, n - 1);
    }
  }

  // ----- rendering -----

  /** What rendering ends with, for code that does not run for ever. */
  ghost function Ending(code: seq<Bytecode>, env: Env, root: Value): (s: Status)
    requires Halts(code, env, root)
    ensures EndsWith(code, env, root, s)
  {
    var n: nat :| IsFinal(|code|, Rendering(code, env, root, n));
    Rendering(code, env, root, n)
  }

  ghost predicate AllHalt(ts: Compiled, env: Env, root: Value) {
    forall i | 0 <= i < |ts| :: Halts(ts[i].1, env, root)
  }

  /** How many templates from the first on render without an exception, looking at n of them. */
  ghost function Leading(ts: Compiled, env: Env, root: Value, n: nat): (k: nat)
    requires AllHalt(ts, env, root) && n <= |ts|
    ensures k <= n
    ensures forall i | 0 <= i < k :: Ending(ts[i].1, env, root).At?
    ensures k < n ==> !Ending(ts[k].1, env, root).At?
    decreases n, ts
  {
    if n == 0 then 0
    else
      var k := Leading(ts, env, root, n - 1);
      if k == n - 1 && Ending(ts[k].1, env, root).At? then n else k
  }

  /** The header updates of the first n templates, all of which render. */
  ghost function Renders(ts: Compiled, env: Env, root: Value, n: nat): (us: seq<Header>)
    requires AllHalt(ts, env, root) && n <= Leading(ts, env, root, |ts|)
    ensures |us| == n && forall i | 0 <= i < n :: us[i].0 == ts[i].0
    decreases n, ts
  {
    if n == 0 then []
    else Renders(ts, env, root, n - 1) + [(ts[n - 1].0, Ending(ts[n - 1].1, env, root).st.out)]
  }

  predicate DistinctNames(ts: Compiled) {
    forall i, j | 0 <= i < j < |ts| :: ts[i].0 != ts[j].0
  }

  /** What no update names stays, in its order, and the texts that are not empty follow. */
  predicate Substituted(hs: seq<Header>, us: seq<Header>, after: seq<Header>) {
    after == Untouched(hs, us, |us|, |hs|) + Added(us, |us|)
  }

  lemma {:induction false} Substitution(hs: seq<Header>, ts: Compiled, env: Env, root: Value, n: nat)
    requires AllHalt(ts, env, root) && n <= Leading(ts, env, root, |ts|)
    ensures DistinctNames(ts) ==> Substituted(hs, Renders(ts, env, root, n), Updated(hs, Renders(ts, env, root, n), n))
  {
    if DistinctNames(ts) {
      Simultaneous(hs, Renders(ts, env, root, n), n);
    }
  }

  class InjaTransformer {
    const setup: Setup
    const lib: Library
    var extractors: seq<(string, Extractor)>
    var headers: Compiled

    constructor (setup: Setup, lib: Library)
      ensures this.setup == setup && this.lib == lib && headers == [] && extractors == []
    {
      this.setup := setup;
      this.lib := lib;
      extractors, headers := [], [];
    }

    /** The parser between templates: nothing is left over from the last one. */
    ghost predicate Ready(parser: Parsers.Parser)
      reads parser
    {
      && parser.Idle() && parser.Knows()
      && parser.notation == setup.notation && parser.lexer.cfg == setup.cfg
      && parser.builtins == setup.builtins && parser.parseJson == setup.parseJson
    }

    /** The constructor's loops: one parser for all templates. It throws when a template is refused,
        and what happens is undefined when that is so of a template's parse. */
    method Configure(xs: seq<(string, Extractor)>, ts: Templates) returns (c: Came)
      requires Usable(setup.cfg) && headers == []
      modifies this
      ensures match ParseFirst(Front(setup), ts, |ts|)
              case All(hs) => c == Onward && headers == hs && extractors == xs
              case Refusal => c == Threw
              case Gone => c == Undef
    {
      var parser := new Parsers.Parser(setup.notation, setup.cfg, setup.builtins, setup.parseJson);
      c := ParseHeaders(parser, xs, ts, Front(setup));
    }

    method ParseHeaders(parser: Parsers.Parser, xs: seq<(string, Extractor)>, ts: Templates,
                        ghost parse: string -> Grammar.Outcome) returns (c: Came)
      requires Usable(setup.cfg) && headers == [] && Ready(parser) && Fronts(parse, setup)
      modifies this, parser, parser.lexer
      ensures match ParseFirst(parse, ts, |ts|)
              case All(hs) => c == Onward && headers == hs && extractors == xs
              case Refusal => c == Threw
              case Gone => c == Undef
    {
      extractors := xs;
      for i := 0 to |ts|
        invariant Ready(parser) && extractors == xs && ParseFirst(parse, ts, i) == All(headers)
      {
        var code;
        c, code := ParseOne(parser, ts[i].1, parse);
        if c != Onward {
          FailureStays(parse, ts, i + 1, |ts|);
          return;
        }
        headers := headers + [(ToLower(ts[i].0), code)];
      }
      c := Onward;
    }

    /** One more template for the same parser. */
    method ParseOne(parser: Parsers.Parser, text: string, ghost parse: string -> Grammar.Outcome)
      returns (c: Came, code: seq<Bytecode>)
      requires Usable(setup.cfg) && Ready(parser) && Fronts(parse, setup)
      modifies parser, parser.lexer
      ensures match parse(text)
              case Accepted(own) => c == Onward && code == own && Ready(parser)
              case ParserError => c == Threw
              case Undefined => c == Undef
    {
      assert Asked(text);
      var r, tmpl := parser.ParseText(text);
      c, code := if r == Parsers.True then Onward else if r == Parsers.Throw then Threw else Undef, tmpl.bytecodes;
    }

    ghost function EnvOf(hs: seq<Header>): Env
      reads this
    {
      Instance(lib, hs, Extractions(extractors, hs, |extractors|), CONTEXT)
    }

    /** transform: every template is rendered against the snapshot, whatever the updates before it
        have done to the host's headers. If the k-th throws, the k before it stay done and nothing
        else is. With distinct names that is one simultaneous substitution. */
    method Transform(hs: seq<Header>, host: HeaderMap) returns (c: Came)
      requires AllHalt(headers, EnvOf(hs), RootData(CONTEXT))
      modifies host
      ensures var k := Leading(headers, EnvOf(hs), RootData(CONTEXT), |headers|);
              && host.entries == Updated(old(host.entries), Renders(headers, EnvOf(hs), RootData(CONTEXT), k), k)
              && (DistinctNames(headers) ==>
                    Substituted(old(host.entries), Renders(headers, EnvOf(hs), RootData(CONTEXT), k), host.entries))
              && c == (if k == |headers| then Onward
                       else if Ending(headers[k].1, EnvOf(hs), RootData(CONTEXT)).Failed? then Threw else Undef)
    {
      var extractions := FindExtractions(hs);
      var env := Instance(lib, hs, extractions, CONTEXT);
      ghost var done := Done(host.entries, headers, env, RootData(CONTEXT));
      c := RenderHeaders(env, RootData(CONTEXT), host, done);
      assert Reached(Leading(headers, env, RootData(CONTEXT), |headers|), host.entries);
      Substitution(old(host.entries), headers, env, RootData(CONTEXT),
                   Leading(headers, env, RootData(CONTEXT), |headers|));
    }

    /** transform's loop over the templates. */
    method RenderHeaders(env: Env, root: Value, host: HeaderMap, ghost done: (nat, seq<Header>) -> bool)
      returns (c: Came)
      requires AllHalt(headers, env, root) && Tracks(done, host.entries, headers, env, root)
      modifies host
      ensures var k := Leading(headers, env, root, |headers|);
              && done(k, host.entries)
              && c == (if k == |headers| then Onward
                       else if Ending(headers[k].1, env, root).Failed? then Threw else Undef)
    {
      var ts := headers;
      NoneDone(done, host.entries, ts, env, root);
      for i := 0 to |ts|
        invariant i <= Leading(ts, env, root, |ts|) && done(i, host.entries)
      {
        ghost var before := host.entries;
        c := RenderHeader(ts[i].0, ts[i].1, env, root, host);
        if c != Onward {
          return;
        }
        OneMoreDone(done, old(host.entries), ts, env, root, i, before);
      }
      c := Onward;
    }

    /** One templated header: nothing happens to the host's before its template has been rendered. */
    method RenderHeader(name: string, code: seq<Bytecode>, env: Env, root: Value, host: HeaderMap) returns (c: Came)
      requires Halts(code, env, root)
      modifies host
      ensures var s := Ending(code, env, root);
              && c == (if s.At? then Onward else if s.Failed? then Threw else Undef)
              && host.entries == if s.At? then Update(old(host.entries), (name, s.st.out)) else old(host.entries)
    {
      var output;
      c, output := Render(code, env, root);
      if c == Onward {
        host.Remove(name);
        if output != "" {
          host.Add(name, output);
        }
      }
    }

    method FindExtractions(hs: seq<Header>) returns (m: map<string, string>)
      ensures m == Extractions(extractors, hs, |extractors|)
    {
      m := map[];
      for i := 0 to |extractors|
        invariant m == Extractions(extractors, hs, i)
      {
        m := m[extractors[i].0 := Extract(extractors[i].1, hs)];
      }
    }
  }

  /** Environment::render: a renderer of its own, whose output counts only if nothing is thrown. */
  method Render(code: seq<Bytecode>, env: Env, root: Value) returns (c: Came, output: string)
    requires Halts(code, env, root)
    ensures var s := Ending(code, env, root);
            && (c == Onward <==> s.At?) && (c == Threw <==> s == Failed)
            && output == (if s.At? then s.st.out else "")
  {
    var renderer := new Renderer(env);
    c := renderer.RenderTo(code, root);
    EndIsUnique(code, env, root, Ending(code, env, root), renderer.Left(c));
    output := if c == Onward then renderer.out else "";
  }

  // What the loop has done is kept abstract while it runs.

  predicate Reached(i: nat, entries: seq<Header>) {
    true
  }

  /** The host's headers once the first i templates have been applied. */
  ghost function Done(hs: seq<Header>, ts: Compiled, env: Env, root: Value): (nat, seq<Header>) -> bool
    requires AllHalt(ts, env, root)
  {
    (i: nat, entries: seq<Header>) =>
      i <= Leading(ts, env, root, |ts|) && entries == Updated(hs, Renders(ts, env, root, i), i)
  }

  ghost predicate Tracks(done: (nat, seq<Header>) -> bool, hs: seq<Header>, ts: Compiled, env: Env, root: Value) {
    AllHalt(ts, env, root) &&
    forall i: nat, entries: seq<Header> {:trigger Reached(i, entries)} :: Reached(i, entries) ==>
      done(i, entries) == Done(hs, ts, env, root)(i, entries)
  }

  lemma {:induction false} NoneDone(done: (nat, seq<Header>) -> bool, hs: seq<Header>, ts: Compiled, env: Env,
                                    root: Value)
    requires Tracks(done, hs, ts, env, root)
    ensures done(0, hs)
  {
    assert Reached(0, hs);
    assert Updated(hs, Renders(ts, env, root, 0), 0) == hs;
  }

  lemma {:induction false} OneMoreDone(done: (nat, seq<Header>) -> bool, hs: seq<Header>, ts: Compiled, env: Env,
                                       root: Value, i: nat, before: seq<Header>)
    requires Tracks(done, hs, ts, env, root) && i < |ts| && done(i, before) && Ending(ts[i].1, env, root).At?
    ensures i + 1 <= Leading(ts, env, root, |ts|)
    ensures done(i + 1, Update(before, (ts[i].0, Ending(ts[i].1, env, root).st.out)))
  {
    assert Reached(i, before);
    OneMore(hs, ts, env, root, i);
    assert Reached(i + 1, Update(before, (ts[i].0, Ending(ts[i].1, env, root).st.out)));
  }

  /** The update a further template makes. */
  lemma {:induction false} OneMore(hs: seq<Header>, ts: Compiled, env: Env, root: Value, i: nat)
    requires AllHalt(ts, env, root) && i < |ts| && i <= Leading(ts, env, root, |ts|)
    requires Ending(ts[i].1, env, root).At?
    ensures i + 1 <= Leading(ts, env, root, |ts|)
    ensures Updated(hs, Renders(ts, env, root, i + 1), i + 1)
            == Update(Updated(hs, Renders(ts, env, root, i), i), (ts[i].0, Ending(ts[i].1, env, root).st.out))
  {
    var us, u := Renders(ts, env, root, i), (ts[i].0, Ending(ts[i].1, env, root).st.out);
    UpdatedPrefix(hs, us, u, i);
  }

  lemma {:induction false} UpdatedPrefix(hs: seq<Header>, us: seq<Header>, u: Header, n: nat)
    requires n <= |us|
    ensures Updated(hs, us + [u], n) == Updated(hs, us, n)
    decreases n
  {
    if n > 0 {
      UpdatedPrefix(hs, us, u, n - 1);
      assert (us + [u])[n - 1] == us[n - 1];
    }
  }

  /** A header template that writes out a safe tree renders to what the tree means, and does halt. */
  lemma {:induction false} WrittenTemplateEnds(setup: Setup, text: string, b: seq<Stmt>, env: Env, root: Value)
    requires Usable(setup.cfg) && Writes(setup, text, b)
    requires SafeBlock(setup.notation, b, 0) && Fits(0, b, 0) && |TemplateCode(setup.notation, b)| < ARGS_LIMIT
    ensures var r := Front(setup)(text);
            && r.Accepted? && Halts(r.code, env, root)
            && Ending(r.code, env, root) == Finished(Exec(Context(env, root, setup.notation), root, b, 0), |r.code|)
  {
    WrittenTextRenders(setup, text, b, env, root);
    var code := EndToEnd.ParseText(setup, text).code;
    var s := Finished(Exec(Context(env, root, setup.notation), root, b, 0), |code|);
    var n: nat :| Rendering(code, env, root, n) == s;
    assert IsFinal(|code|, Rendering(code, env, root, n));
    EndIsUnique(code, env, root, Ending(code, env, root), s);
  }
}
