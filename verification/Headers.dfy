/** Header lists, and what a sequence of removals and additions comes to. */
module Headers {
  import opened Options

  /** A name and a value. */
  type Header = (string, string)

  function LowerChar(c: char): char {
    if 'A' <= c <= 'Z' then c - 'A' + 'a' else c
  }

  /** std::transform with tolower. */
  function ToLower(s: string): (r: string)
    ensures |r| == |s|
  {
    seq(|s|, i requires 0 <= i < |s| => LowerChar(s[i]))
  }

  /** The twenty-six capital letters, 65 to 90 in ASCII, go up by 32; all else stays. */
  lemma {:induction false} ToLowerExact(s: string, i: nat)
    requires i < |s|
    ensures 65 <= s[i] as int <= 90 ==> ToLower(s)[i] as int == s[i] as int + 32
    ensures !(65 <= s[i] as int <= 90) ==> ToLower(s)[i] == s[i]
  {
  }

  /** getHeader, from the i-th header on. */
  function GetHeaderFrom(hs: seq<Header>, key: string, i: nat): Option<string>
    requires i <= |hs|
    decreases |hs| - i, hs
  {
    if i == |hs| then None else if hs[i].0 == key then Some(hs[i].1) else GetHeaderFrom(hs, key, i + 1)
  }

  function GetHeader(hs: seq<Header>, key: string): Option<string> {
    GetHeaderFrom(hs, key, 0)
  }

  /** The first n headers, without those of a name. */
  function WithoutFirst(hs: seq<Header>, name: string, n: nat): seq<Header>
    requires n <= |hs|
    decreases n, hs
  {
    if n == 0 then []
    else WithoutFirst(hs, name, n - 1) + if hs[n - 1].0 == name then [] else [hs[n - 1]]
  }

  function Without(hs: seq<Header>, name: string): seq<Header> {
    WithoutFirst(hs, name, |hs|)
  }

  /** The values the first n headers have under a name, in order. */
  function ValuesFirst(hs: seq<Header>, name: string, n: nat): seq<string>
    requires n <= |hs|
    decreases n, hs
  {
    if n == 0 then []
    else ValuesFirst(hs, name, n - 1) + if hs[n - 1].0 == name then [hs[n - 1].1] else []
  }

  function Values(hs: seq<Header>, name: string): seq<string> {
    ValuesFirst(hs, name, |hs|)
  }

  /** The host's header map. */
  class HeaderMap {
    var entries: seq<Header>

    constructor (entries: seq<Header>)
      ensures this.entries == entries
    {
      this.entries := entries;
    }

    /** Removes every header of the name. */
    method Remove(name: string)
      modifies this
      ensures entries == Without(old(entries), name)
    {
      var kept := [];
      for i := 0 to |entries|
        invariant kept == WithoutFirst(entries, name, i)
      {
        if entries[i].0 != name {
          kept := kept + [entries[i]];
        }
      }
      entries := kept;
    }

    /** Appends a header. */
    method Add(name: string, value: string)
      modifies this
      ensures entries == old(entries) + [(name, value)]
    {
      entries := entries + [(name, value)];
    }
  }

  // ----- updates -----

  /** One templated header: the old ones go, and the rendered text comes unless it is empty. */
  function Update(hs: seq<Header>, u: Header): seq<Header> {
    Without(hs, u.0) + if u.1 == "" then [] else [u]
  }

  /** The first n updates, one after another. */
  function Updated(hs: seq<Header>, us: seq<Header>, n: nat): seq<Header>
    requires n <= |us|
    decreases n, us
  {
    if n == 0 then hs else Update(Updated(hs, us, n - 1), us[n - 1])
  }

  /** The last of the first n updates that concerns a name. */
  function LastFor(us: seq<Header>, name: string, n: nat): (r: Option<string>)
    requires n <= |us|
    ensures r.None? <==> forall i | 0 <= i < n :: us[i].0 != name
    decreases n, us
  {
    if n == 0 then None else if us[n - 1].0 == name then Some(us[n - 1].1) else LastFor(us, name, n - 1)
  }

  lemma {:induction false} ValuesPrefix(a: seq<Header>, b: seq<Header>, name: string, n: nat)
    requires n <= |a|
    ensures ValuesFirst(a + b, name, n) == ValuesFirst(a, name, n)
    decreases n
  {
    if n > 0 {
      ValuesPrefix(a, b, name, n - 1);
      assert (a + b)[n - 1] == a[n - 1];
    }
  }

  lemma {:induction false} ValuesOfOneMore(a: seq<Header>, h: Header, name: string)
    ensures Values(a + [h], name) == Values(a, name) + if h.0 == name then [h.1] else []
  {
    ValuesPrefix(a, [h], name, |a|);
  }

  lemma {:induction false} ValuesWithout(hs: seq<Header>, gone: string, name: string, n: nat)
    requires n <= |hs|
    ensures Values(WithoutFirst(hs, gone, n), name) == if name == gone then [] else ValuesFirst(hs, name, n)
    decreases n
  {
    if n > 0 {
      ValuesWithout(hs, gone, name, n - 1);
      var before := WithoutFirst(hs, gone, n - 1);
      ValuesOfOneMore(before, hs[n - 1], name);
      assert before + [] == before;
    }
  }

  lemma {:induction false} ValuesUpdate(hs: seq<Header>, u: Header, name: string)
    ensures Values(Update(hs, u), name) ==
            if name != u.0 then Values(hs, name) else if u.1 == "" then [] else [u.1]
  {
    ValuesWithout(hs, u.0, name, |hs|);
    var kept := Without(hs, u.0);
    ValuesOfOneMore(kept, u, name);
    assert kept + [] == kept;
  }

  /** What a list of updates leaves under every name: the original values if no update concerns
      the name, otherwise the text of the last one that does, or nothing if that is empty. */
  lemma {:induction false} ValuesUpdated(hs: seq<Header>, us: seq<Header>, n: nat, name: string)
    requires n <= |us|
    ensures Values(Updated(hs, us, n), name) ==
            match LastFor(us, name, n)
            case None => Values(hs, name)
            case Some(text) => if text == "" then [] else [text]
    decreases n
  {
    if n > 0 {
      ValuesUpdated(hs, us, n - 1, name);
      ValuesUpdate(Updated(hs, us, n - 1), us[n - 1], name);
    }
  }

  // ----- simultaneous substitution -----

  predicate Distinct(us: seq<Header>) {
    forall i, j | 0 <= i < j < |us| :: us[i].0 != us[j].0
  }

  predicate Names(us: seq<Header>, n: nat, name: string)
    requires n <= |us|
  {
    exists i :: 0 <= i < n && us[i].0 == name
  }

  /** The first k headers, without those that one of the first n updates names. */
  function Untouched(hs: seq<Header>, us: seq<Header>, n: nat, k: nat): seq<Header>
    requires n <= |us| && k <= |hs|
    decreases k, hs
  {
    if k == 0 then []
    else Untouched(hs, us, n, k - 1) + if Names(us, n, hs[k - 1].0) then [] else [hs[k - 1]]
  }

  /** The first n updates that have a text, in order. */
  function Added(us: seq<Header>, n: nat): seq<Header>
    requires n <= |us|
    decreases n, us
  {
    if n == 0 then [] else Added(us, n - 1) + if us[n - 1].1 == "" then [] else [us[n - 1]]
  }

  lemma {:induction false} WithoutConcat(a: seq<Header>, b: seq<Header>, name: string, n: nat)
    requires |a| <= n <= |a| + |b|
    ensures WithoutFirst(a + b, name, n) == Without(a, name) + WithoutFirst(b, name, n - |a|)
    decreases n
  {
    if n == |a| {
      WithoutPrefix(a, b, name, n);
    } else {
      WithoutConcat(a, b, name, n - 1);
    }
  }

  lemma {:induction false} WithoutPrefix(a: seq<Header>, b: seq<Header>, name: string, n: nat)
    requires n <= |a|
    ensures WithoutFirst(a + b, name, n) == WithoutFirst(a, name, n)
    decreases n
  {
    if n > 0 {
      WithoutPrefix(a, b, name, n - 1);
      assert (a + b)[n - 1] == a[n - 1];
    }
  }

  lemma {:induction false} WithoutAbsent(hs: seq<Header>, name: string, n: nat)
    requires n <= |hs| && forall i | 0 <= i < n :: hs[i].0 != name
    ensures WithoutFirst(hs, name, n) == hs[..n]
    decreases n
  {
    if n > 0 {
      WithoutAbsent(hs, name, n - 1);
    }
  }

  lemma {:induction false} AddedNames(us: seq<Header>, n: nat)
    requires n <= |us|
    ensures forall i | 0 <= i < |Added(us, n)| :: Names(us, n, Added(us, n)[i].0)
    decreases n
  {
    if n > 0 {
      AddedNames(us, n - 1);
      var before := Added(us, n - 1);
      forall i | 0 <= i < |Added(us, n)| ensures Names(us, n, Added(us, n)[i].0) {
        if i < |before| {
          assert Added(us, n)[i] == before[i] && Names(us, n - 1, before[i].0);
        } else {
          assert Added(us, n)[i] == us[n - 1];
        }
      }
    }
  }

  /** The update under way removes nothing that an earlier one has added. */
  lemma {:induction false} AddedStays(us: seq<Header>, n: nat)
    requires Distinct(us) && n < |us|
    ensures Without(Added(us, n), us[n].0) == Added(us, n)
  {
    var a := Added(us, n);
    AddedNames(us, n);
    forall i | 0 <= i < |a| ensures a[i].0 != us[n].0 {
      assert Names(us, n, a[i].0);
    }
    WithoutAbsent(a, us[n].0, |a|);
  }

  lemma {:induction false} UntouchedNext(hs: seq<Header>, us: seq<Header>, n: nat, k: nat)
    requires n < |us| && k <= |hs|
    ensures Without(Untouched(hs, us, n, k), us[n].0) == Untouched(hs, us, n + 1, k)
    decreases k
  {
    if k > 0 {
      UntouchedNext(hs, us, n, k - 1);
      var before, h := Untouched(hs, us, n, k - 1), hs[k - 1];
      NamesNext(us, n, h.0);
      if !Names(us, n, h.0) {
        WithoutConcat(before, [h], us[n].0, |before| + 1);
        assert WithoutFirst([h], us[n].0, 0) == [];
      } else {
        assert before + [] == before;
      }
    }
  }

  lemma {:induction false} NamesNext(us: seq<Header>, n: nat, name: string)
    requires n < |us|
    ensures Names(us, n + 1, name) <==> Names(us, n, name) || us[n].0 == name
  {
    if Names(us, n, name) {
      var i :| 0 <= i < n && us[i].0 == name;
      assert us[i].0 == name;
    }
    if us[n].0 == name {
      assert 0 <= n < n + 1 && us[n].0 == name;
    }
  }

  lemma {:induction false} NothingNamed(hs: seq<Header>, us: seq<Header>, k: nat)
    requires k <= |hs|
    ensures Untouched(hs, us, 0, k) == hs[..k]
    decreases k
  {
    if k > 0 {
      NothingNamed(hs, us, k - 1);
    }
  }

  /** Updates with distinct names, one after another, are one simultaneous substitution: what no
      update names stays in its order, and the new texts follow. */
  lemma {:induction false} Simultaneous(hs: seq<Header>, us: seq<Header>, n: nat)
    requires Distinct(us) && n <= |us|
    ensures Updated(hs, us, n) == Untouched(hs, us, n, |hs|) + Added(us, n)
    decreases n
  {
    if n == 0 {
      NothingNamed(hs, us, |hs|);
    } else {
      Simultaneous(hs, us, n - 1);
      var u, a, b := us[n - 1], Untouched(hs, us, n - 1, |hs|), Added(us, n - 1);
      WithoutConcat(a, b, u.0, |a| + |b|);
      UntouchedNext(hs, us, n - 1, |hs|);
      AddedStays(us, n - 1);
      Appending(Untouched(hs, us, n, |hs|), b, if u.1 == "" then [] else [u]);
    }
  }

  lemma {:induction false} Appending(a: seq<Header>, b: seq<Header>, c: seq<Header>)
    ensures (a + b) + c == a + (b + c)
  {
  }

  // ----- order -----

  predicate SameUpdates(us: seq<Header>, vs: seq<Header>) {
    (forall u | u in us :: u in vs) && (forall v | v in vs :: v in us) && Distinct(us) && Distinct(vs)
  }

  lemma {:induction false} LastForIsMember(us: seq<Header>, name: string, n: nat)
    requires Distinct(us) && n <= |us|
    ensures forall text :: LastFor(us, name, n) == Some(text) <==> (name, text) in us[..n]
    decreases n
  {
    if n > 0 {
      LastForIsMember(us, name, n - 1);
      assert us[..n] == us[..n - 1] + [us[n - 1]];
      forall text | (name, text) in us[..n - 1] ensures us[n - 1].0 != name {
        var i :| 0 <= i < n - 1 && us[i] == (name, text);
      }
    }
  }

  /** With distinct names, the order of the updates does not matter to what any name maps to. */
  lemma {:induction false} OrderDoesNotMatter(hs: seq<Header>, us: seq<Header>, vs: seq<Header>, name: string)
    requires SameUpdates(us, vs)
    ensures Values(Updated(hs, us, |us|), name) == Values(Updated(hs, vs, |vs|), name)
  {
    ValuesUpdated(hs, us, |us|, name);
    ValuesUpdated(hs, vs, |vs|, name);
    LastForIsMember(us, name, |us|);
    LastForIsMember(vs, name, |vs|);
    assert us[..|us|] == us && vs[..|vs|] == vs;
    var a, b := LastFor(us, name, |us|), LastFor(vs, name, |vs|);
    if a.Some? {
      assert (name, a.value) in us;
    }
    if b.Some? {
      assert (name, b.value) in vs;
    }
  }

  /** Without distinct names it does: two updates of one name differ in which text stays. */
  lemma {:induction false} OrderMattersForOneName(hs: seq<Header>, name: string, x: string, y: string)
    requires x != "" && y != "" && x != y
    ensures var us, vs := [(name, x), (name, y)], [(name, y), (name, x)];
            Values(Updated(hs, us, 2), name) == [y] && Values(Updated(hs, vs, 2), name) == [x]
  {
    ValuesUpdated(hs, [(name, x), (name, y)], 2, name);
    ValuesUpdated(hs, [(name, y), (name, x)], 2, name);
  }
}
