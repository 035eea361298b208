/** Two orders of the same configuration: a map of templates is iterated in no particular order. */
module Orders {
  import opened Options
  import opened Json
  import opened Bytecodes
  import opened Machine
  import opened Scanning
  import opened Headers
  import opened Transformers
  import opened EndToEnd
  import Grammar

  /** No two names coincide when lower-cased. */
  predicate LowerDistinct(ts: Templates) {
    forall i, j | 0 <= i < j < |ts| :: ToLower(ts[i].0) != ToLower(ts[j].0)
  }

  predicate Within(ts: Templates, us: Templates) {
    forall t | t in ts :: t in us
  }

  /** Two orders of one map. */
  predicate Reordered(ts: Templates, us: Templates) {
    Within(ts, us) && Within(us, ts) && LowerDistinct(ts) && LowerDistinct(us)
  }

  /** All templates are compiled exactly when each is accepted, into a list that is in their order. */
  lemma {:induction false} ParsedAll(parse: string -> Grammar.Outcome, ts: Templates, n: nat)
    requires n <= |ts|
    ensures ParseFirst(parse, ts, n).All? <==> forall i | 0 <= i < n :: parse(ts[i].1).Accepted?
    ensures ParseFirst(parse, ts, n).All? ==>
              var headers := ParseFirst(parse, ts, n).headers;
              && |headers| == n
              && forall i | 0 <= i < n :: headers[i] == (ToLower(ts[i].0), parse(ts[i].1).code)
    decreases n
  {
    if n > 0 {
      ParsedAll(parse, ts, n - 1);
    }
  }

  /** Template i is the first that is not accepted. */
  predicate FailsFirst(parse: string -> Grammar.Outcome, ts: Templates, i: nat, outcome: Grammar.Outcome)
    requires i < |ts|
  {
    parse(ts[i].1) == outcome && forall j | 0 <= j < i :: parse(ts[j].1).Accepted?
  }

  /** The first template that is not accepted decides: a parser error throws, what is undefined stays so. */
  lemma {:induction false} FirstFailure(parse: string -> Grammar.Outcome, ts: Templates, n: nat)
    requires n <= |ts|
    ensures ParseFirst(parse, ts, n).Refusal? <==>
            exists i :: 0 <= i < n && FailsFirst(parse, ts, i, Grammar.ParserError)
    ensures ParseFirst(parse, ts, n).Gone? <==>
            exists i :: 0 <= i < n && FailsFirst(parse, ts, i, Grammar.Undefined)
    decreases n
  {
    if n > 0 {
      FirstFailure(parse, ts, n - 1);
      ParsedAll(parse, ts, n - 1);
      if ParseFirst(parse, ts, n - 1).All? {
        assert parse(ts[n - 1].1) == Grammar.ParserError ==> FailsFirst(parse, ts, n - 1, Grammar.ParserError);
        assert parse(ts[n - 1].1) == Grammar.Undefined ==> FailsFirst(parse, ts, n - 1, Grammar.Undefined);
      }
    }
  }

  lemma {:induction false} AcceptedWithin(parse: string -> Grammar.Outcome, ts: Templates, us: Templates)
    requires Within(us, ts) && ParseFirst(parse, ts, |ts|).All?
    ensures ParseFirst(parse, us, |us|).All?
    ensures forall c | c in ParseFirst(parse, us, |us|).headers :: c in ParseFirst(parse, ts, |ts|).headers
  {
    ParsedAll(parse, ts, |ts|);
    ParsedAll(parse, us, |us|);
    var cs, ds := ParseFirst(parse, ts, |ts|).headers, ParseFirst(parse, us, |us|);
    forall i | 0 <= i < |us| ensures parse(us[i].1).Accepted? && (ToLower(us[i].0), parse(us[i].1).code) in cs {
      assert us[i] in us;
      var j :| 0 <= j < |ts| && ts[j] == us[i];
      assert cs[j] in cs;
    }
  }

  ghost predicate AllRender(cs: Compiled, env: Env, root: Value) {
    AllHalt(cs, env, root) && Leading(cs, env, root, |cs|) == |cs|
  }

  /** All the updates of templates that all render. */
  ghost function Updates(cs: Compiled, env: Env, root: Value): seq<Header>
    requires AllRender(cs, env, root)
  {
    Renders(cs, env, root, |cs|)
  }

  ghost function UpdateOf(c: (string, seq<Bytecode>), env: Env, root: Value): Header
    requires Halts(c.1, env, root) && Ending(c.1, env, root).At?
  {
    (c.0, Ending(c.1, env, root).st.out)
  }

  lemma {:induction false} RenderNext(cs: Compiled, env: Env, root: Value, n: nat)
    requires AllHalt(cs, env, root) && n < Leading(cs, env, root, |cs|)
    ensures Ending(cs[n].1, env, root).At?
    ensures Renders(cs, env, root, n + 1) == Renders(cs, env, root, n) + [UpdateOf(cs[n], env, root)]
  {
  }

  lemma {:induction false} RenderAt(cs: Compiled, env: Env, root: Value, n: nat, i: nat)
    requires AllHalt(cs, env, root) && i < n <= Leading(cs, env, root, |cs|)
    ensures Renders(cs, env, root, n)[i] == UpdateOf(cs[i], env, root)
    decreases n
  {
    RenderNext(cs, env, root, n - 1);
    if i < n - 1 {
      RenderAt(cs, env, root, n - 1, i);
      StillAt(Renders(cs, env, root, n - 1), UpdateOf(cs[n - 1], env, root), i);
    }
  }

  lemma {:induction false} StillAt(us: seq<Header>, u: Header, i: nat)
    requires i < |us|
    ensures (us + [u])[i] == us[i]
  {
  }

  lemma {:induction false} RendersAt(cs: Compiled, env: Env, root: Value, n: nat)
    requires AllHalt(cs, env, root) && n <= Leading(cs, env, root, |cs|)
    ensures forall i | 0 <= i < n :: Renders(cs, env, root, n)[i] == UpdateOf(cs[i], env, root)
  {
    forall i | 0 <= i < n ensures Renders(cs, env, root, n)[i] == UpdateOf(cs[i], env, root) {
      RenderAt(cs, env, root, n, i);
    }
  }

  lemma {:induction false} RenderWithin(cs: Compiled, ds: Compiled, env: Env, root: Value)
    requires AllRender(cs, env, root) && forall d | d in ds :: d in cs
    ensures AllRender(ds, env, root)
    ensures forall u | u in Updates(ds, env, root) :: u in Updates(cs, env, root)
  {
    forall i | 0 <= i < |ds| ensures Halts(ds[i].1, env, root) && Ending(ds[i].1, env, root).At? {
      assert ds[i] in ds;
      var j :| 0 <= j < |cs| && cs[j] == ds[i];
    }
    RendersAt(cs, env, root, |cs|);
    RendersAt(ds, env, root, |ds|);
    forall i | 0 <= i < |ds| ensures Updates(ds, env, root)[i] in Updates(cs, env, root) {
      assert ds[i] in ds;
      var j :| 0 <= j < |cs| && cs[j] == ds[i];
      assert Updates(cs, env, root)[j] == Updates(ds, env, root)[i];
    }
  }

  /** Updates under distinct names, or none twice. */
  lemma {:induction false} DistinctUpdates(parse: string -> Grammar.Outcome, ts: Templates, env: Env, root: Value)
    requires LowerDistinct(ts) && ParseFirst(parse, ts, |ts|).All?
    requires AllRender(ParseFirst(parse, ts, |ts|).headers, env, root)
    ensures Distinct(Updates(ParseFirst(parse, ts, |ts|).headers, env, root))
  {
    ParsedAll(parse, ts, |ts|);
    RendersAt(ParseFirst(parse, ts, |ts|).headers, env, root, |ts|);
  }

  /** Whatever the order of the configuration, its templates are all accepted or not, all render or
      not, and if they do, every header ends with the same values. */
  lemma {:induction false} ConfigurationOrder(setup: Setup, ts: Templates, us: Templates, env: Env, root: Value,
                                              hs: seq<Header>, name: string)
    requires Usable(setup.cfg) && Reordered(ts, us)
    ensures ParseFirst(Front(setup), ts, |ts|).All? <==> ParseFirst(Front(setup), us, |us|).All?
    ensures ParseFirst(Front(setup), ts, |ts|).All? ==>
              var cs, ds := ParseFirst(Front(setup), ts, |ts|).headers, ParseFirst(Front(setup), us, |us|).headers;
              && (AllRender(cs, env, root) <==> AllRender(ds, env, root))
              && (AllRender(cs, env, root) ==>
                    Values(Updated(hs, Updates(cs, env, root), |cs|), name)
                    == Values(Updated(hs, Updates(ds, env, root), |ds|), name))
  {
    var p, q := ParseFirst(Front(setup), ts, |ts|), ParseFirst(Front(setup), us, |us|);
    if p.All? {
      AcceptedWithin(Front(setup), ts, us);
    }
    if q.All? {
      AcceptedWithin(Front(setup), us, ts);
    }
    if p.All? {
      SameValues(Front(setup), ts, us, env, root, hs, name);
    }
  }

  lemma {:induction false} SameValues(parse: string -> Grammar.Outcome, ts: Templates, us: Templates, env: Env,
                                      root: Value, hs: seq<Header>, name: string)
    requires Reordered(ts, us) && ParseFirst(parse, ts, |ts|).All? && ParseFirst(parse, us, |us|).All?
    ensures var cs, ds := ParseFirst(parse, ts, |ts|).headers, ParseFirst(parse, us, |us|).headers;
            && (AllRender(cs, env, root) <==> AllRender(ds, env, root))
            && (AllRender(cs, env, root) ==>
                  Values(Updated(hs, Updates(cs, env, root), |cs|), name)
                  == Values(Updated(hs, Updates(ds, env, root), |ds|), name))
  {
    var cs, ds := ParseFirst(parse, ts, |ts|).headers, ParseFirst(parse, us, |us|).headers;
    AcceptedWithin(parse, ts, us);
    AcceptedWithin(parse, us, ts);
    if AllRender(cs, env, root) {
      RenderWithin(cs, ds, env, root);
    }
    if AllRender(ds, env, root) {
      RenderWithin(ds, cs, env, root);
    }
    if AllRender(cs, env, root) {
      DistinctUpdates(parse, ts, env, root);
      DistinctUpdates(parse, us, env, root);
      OrderDoesNotMatter(hs, Updates(cs, env, root), Updates(ds, env, root), name);
    }
  }

  /** When a template throws, the order decides which of the others have been applied: none of those
      behind it. */
  lemma {:induction false} OrderMattersWhenOneThrows(hs: seq<Header>, env: Env, root: Value,
                                                     bad: (string, seq<Bytecode>), good: (string, seq<Bytecode>))
    requires Halts(bad.1, env, root) && !Ending(bad.1, env, root).At?
    requires Halts(good.1, env, root) && Ending(good.1, env, root).At?
    ensures var first, second := [bad, good], [good, bad];
            && AllHalt(first, env, root) && Leading(first, env, root, 2) == 0
            && AllHalt(second, env, root) && Leading(second, env, root, 2) == 1
            && Updated(hs, Renders(first, env, root, 0), 0) == hs
            && Updated(hs, Renders(second, env, root, 1), 1) == Update(hs, UpdateOf(good, env, root))
  {
    var first, second := [bad, good], [good, bad];
    assert Leading(first, env, root, 0) == 0 && Leading(first, env, root, 1) == 0;
    assert Leading(second, env, root, 0) == 0 && Leading(second, env, root, 1) == 1;
    var us := Renders(second, env, root, 1);
    assert Renders(second, env, root, 0) == [];
    assert us == [UpdateOf(good, env, root)];
    assert Updated(hs, us, 0) == hs;
  }

  // ----- two templates that show it -----

  /** The code of {{ name }}, and of a text. */
  function Gone(notation: Notation, name: string): seq<Bytecode> {
    [PushLookup(notation, name).(op := PrintValue, args := 1)]
  }

  function Hello(): seq<Bytecode> {
    [TextInstr("hello")]
  }

  lemma {:induction false} FirstStepFails(code: seq<Bytecode>, env: Env, root: Value)
    requires code != [] && Step(env, root, code[0], START) == Failed
    ensures Halts(code, env, root) && Ending(code, env, root) == Failed
  {
    assert Stepper(code, env, root)(START) == Failed;
    assert Rendering(code, env, root, 1) == Failed;
    assert IsFinal(|code|, Rendering(code, env, root, 1));
    EndIsUnique(code, env, root, Ending(code, env, root), Failed);
  }

  lemma {:induction false} GoneThrows(env: Env, root: Value, notation: Notation, name: string)
    requires Resolve(env, root, notation, name).None?
    ensures Halts(Gone(notation, name), env, root) && Ending(Gone(notation, name), env, root) == Failed
  {
    var bc := Gone(notation, name)[0];
    assert ImmediateValue(env, root, bc).None?;
    assert Fetch(env, root, [], bc) == Thrown;
    FirstStepFails(Gone(notation, name), env, root);
  }

  lemma {:induction false} HelloRenders(env: Env, root: Value)
    ensures Halts(Hello(), env, root) && Ending(Hello(), env, root) == At(State(1, [], [], "hello"))
  {
    var next, end := Stepper(Hello(), env, root), State(1, [], [], "hello");
    assert "" + "hello" == "hello";
    assert next(START) == At(end);
    assert Run(next, 1, end, 0) == At(end);
    assert Rendering(Hello(), env, root, 1) == At(end);
    assert IsFinal(1, Rendering(Hello(), env, root, 1));
    EndIsUnique(Hello(), env, root, Ending(Hello(), env, root), At(end));
  }

  /** [x: {{ name }}, y: hello] adds no header, [y: hello, x: {{ name }}] adds one, and throws too. */
  lemma {:induction false} ThrowingOrderShown(env: Env, root: Value, notation: Notation, name: string)
    requires Resolve(env, root, notation, name).None?
    ensures var x, y := ("x", Gone(notation, name)), ("y", Hello());
            && AllHalt([x, y], env, root) && Leading([x, y], env, root, 2) == 0
            && AllHalt([y, x], env, root) && Leading([y, x], env, root, 2) == 1
            && Updated([], Renders([x, y], env, root, 0), 0) == []
            && Updated([], Renders([y, x], env, root, 1), 1) == [("y", "hello")]
  {
    GoneThrows(env, root, notation, name);
    HelloRenders(env, root);
    OrderMattersWhenOneThrows([], env, root, ("x", Gone(notation, name)), ("y", Hello()));
  }
}
