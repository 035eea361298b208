/** The registry of functions: per name, a list of entries told apart by their number of arguments,
    each holding a built-in operation, a callback, or both. */
module Functions {
  import opened Options
  import opened Json
  import opened Bytecodes

  type Callback = seq<Value> -> Option<Value>

  datatype FunctionData = FunctionData(numArgs: nat, op: Option<Function>, callback: Option<Callback>)

  /** The first entry from the i-th on that takes n arguments, or the number of entries. */
  function IndexOf(vec: seq<FunctionData>, n: nat, i: nat): (r: nat)
    requires i <= |vec|
    ensures i <= r <= |vec| && (r < |vec| ==> vec[r].numArgs == n)
    ensures forall j | i <= j < r :: vec[j].numArgs != n
    decreases |vec| - i, vec
  {
    if i == |vec| || vec[i].numArgs == n then i else IndexOf(vec, n, i + 1)
  }

  type Storage = map<string, seq<FunctionData>>

  function EntryIn(m: Storage, name: string, n: nat): Option<FunctionData> {
    if name !in m then None
    else
      var i := IndexOf(m[name], n, 0);
      if i == |m[name]| then None else Some(m[name][i])
  }

  function OpIn(m: Storage, name: string, n: nat): Option<Function> {
    var e :- EntryIn(m, name, n);
    e.op
  }

  function CallbackIn(m: Storage, name: string, n: nat): Option<Callback> {
    var e :- EntryIn(m, name, n);
    e.callback
  }

  class FunctionStorage {
    var m: Storage

    ghost function Entry(name: string, n: nat): Option<FunctionData>
      reads this
    {
      EntryIn(m, name, n)
    }

    /** What find_builtin and find_callback answer for a name and a number of arguments. */
    ghost function OpOf(name: string, n: nat): Option<Function>
      reads this
    {
      OpIn(m, name, n)
    }

    ghost function CallbackOf(name: string, n: nat): Option<Callback>
      reads this
    {
      CallbackIn(m, name, n)
    }

    constructor ()
      ensures m == map[]
    {
      m := map[];
    }

    /** get_or_new: the entry's place; nothing else changes. */
    method GetOrNew(name: string, n: nat) returns (i: nat)
      modifies this
      ensures name in m && i < |m[name]| && i == IndexOf(m[name], n, 0)
      ensures m[name][i] == (match old(Entry(name, n)) case Some(e) => e case None => FunctionData(n, None, None))
      ensures forall other: string, k: nat :: (other, k) != (name, n) ==> Entry(other, k) == old(Entry(other, k))
    {
      var vec := if name in m then m[name] else [];
      i := 0;
      while i < |vec|
        invariant i <= |vec| && IndexOf(vec, n, i) == IndexOf(vec, n, 0)
      {
        if vec[i].numArgs == n {
          m := m[name := vec];
          return;
        }
        i := i + 1;
      }
      var entry := FunctionData(n, None, None);
      forall k: nat ensures IndexOf(vec + [entry], k, 0) == if k == n then |vec| else Shifted(vec, k) {
        IndexOfMore(vec, entry, k, 0);
      }
      m := m[name := vec + [entry]];
    }

    method AddBuiltin(name: string, n: nat, op: Function)
      modifies this
      ensures OpOf(name, n) == Some(op) && CallbackOf(name, n) == old(CallbackOf(name, n))
      ensures forall other: string, k: nat :: (other, k) != (name, n) ==> Entry(other, k) == old(Entry(other, k))
    {
      var i := GetOrNew(name, n);
      ReplacedEntries(m[name], i, m[name][i].(op := Some(op)));
      m := m[name := m[name][i := m[name][i].(op := Some(op))]];
    }

    method AddCallback(name: string, n: nat, callback: Callback)
      modifies this
      ensures CallbackOf(name, n) == Some(callback) && OpOf(name, n) == old(OpOf(name, n))
      ensures forall other: string, k: nat :: (other, k) != (name, n) ==> Entry(other, k) == old(Entry(other, k))
    {
      var i := GetOrNew(name, n);
      ReplacedEntries(m[name], i, m[name][i].(callback := Some(callback)));
      m := m[name := m[name][i := m[name][i].(callback := Some(callback))]];
    }

    method Get(name: string, n: nat) returns (e: Option<FunctionData>)
      ensures e == Entry(name, n)
    {
      if name !in m {
        return None;
      }
      var vec := m[name];
      for i := 0 to |vec|
        invariant IndexOf(vec, n, i) == IndexOf(vec, n, 0)
      {
        if vec[i].numArgs == n {
          return Some(vec[i]);
        }
      }
      e := None;
    }

    method FindBuiltin(name: string, n: nat) returns (op: Option<Function>)
      ensures op == OpOf(name, n)
    {
      var e := Get(name, n);
      op := if e.Some? then e.value.op else None;
    }

    method FindCallback(name: string, n: nat) returns (callback: Option<Callback>)
      ensures callback == CallbackOf(name, n)
    {
      var e := Get(name, n);
      callback := if e.Some? then e.value.callback else None;
    }
  }

  /** Where k arguments are found once an entry has been added behind: as before, or nowhere. */
  function Shifted(vec: seq<FunctionData>, k: nat): nat {
    var i := IndexOf(vec, k, 0);
    if i == |vec| then |vec| + 1 else i
  }

  lemma {:induction false} IndexOfMore(vec: seq<FunctionData>, entry: FunctionData, k: nat, i: nat)
    requires i <= |vec|
    ensures IndexOf(vec + [entry], k, i) ==
            if IndexOf(vec, k, i) < |vec| then IndexOf(vec, k, i) else if entry.numArgs == k then |vec| else |vec| + 1
    decreases |vec| - i
  {
    if i < |vec| {
      assert (vec + [entry])[i] == vec[i];
      if vec[i].numArgs != k {
        IndexOfMore(vec, entry, k, i + 1);
      }
    }
  }

  lemma {:induction false} IndexOfReplaced(vec: seq<FunctionData>, at: nat, e: FunctionData, k: nat, i: nat)
    requires at < |vec| && e.numArgs == vec[at].numArgs && i <= |vec|
    ensures IndexOf(vec[at := e], k, i) == IndexOf(vec, k, i)
    decreases |vec| - i
  {
    if i < |vec| && vec[i].numArgs != k {
      IndexOfReplaced(vec, at, e, k, i + 1);
    }
  }

  lemma {:induction false} ReplacedEntries(vec: seq<FunctionData>, at: nat, e: FunctionData)
    requires at < |vec| && e.numArgs == vec[at].numArgs
    ensures forall k: nat :: IndexOf(vec[at := e], k, 0) == IndexOf(vec, k, 0)
  {
    forall k: nat ensures IndexOf(vec[at := e], k, 0) == IndexOf(vec, k, 0) {
      IndexOfReplaced(vec, at, e, k, 0);
    }
  }

  // ----- the parser's own registry -----

  type Table = map<(string, nat), Function>

  /** The table of built-in functions, in the order they are registered: the first half. */
  function FirstBuiltins(): Table {
    map[]
    [("at", 2) := Pure(ElementAt)]
    [("default", 2) := DefaultFn]
    [("divisibleBy", 2) := Pure(DivisibleBy)]
    [("even", 1) := Pure(Even)]
    [("first", 1) := Pure(First)]
    [("float", 1) := Pure(ToFloat)]
    [("int", 1) := Pure(ToInt)]
    [("last", 1) := Pure(Last)]
    [("length", 1) := Pure(Length)]
    [("lower", 1) := Pure(Lower)]
    [("max", 1) := Pure(Max)]
    [("min", 1) := Pure(Min)]
  }

  /** And all of them. */
  function Builtins(): Table {
    FirstBuiltins()
    [("odd", 1) := Pure(Odd)]
    [("range", 1) := Pure(Range)]
    [("round", 2) := Pure(Round)]
    [("sort", 1) := Pure(Sort)]
    [("upper", 1) := Pure(Upper)]
    [("exists", 1) := ExistsFn]
    [("existsIn", 2) := Pure(ExistsIn)]
    [("isBoolean", 1) := Pure(IsBoolean)]
    [("isNumber", 1) := Pure(IsNumber)]
    [("isInteger", 1) := Pure(IsInteger)]
    [("isFloat", 1) := Pure(IsFloat)]
    [("isObject", 1) := Pure(IsObject)]
    [("isArray", 1) := Pure(IsArray)]
    [("isString", 1) := Pure(IsString)]
  }

  /** The storage answers by the table, and holds no callback. */
  ghost predicate Answers(m: Storage, table: Table) {
    forall name: string, n: nat ::
      && OpIn(m, name, n) == (if (name, n) in table then Some(table[(name, n)]) else None)
      && CallbackIn(m, name, n) == None
  }

  predicate Noted(m: Storage, table: Table) {
    true
  }

  /** What a storage has been filled with; kept abstract while it is being filled. */
  ghost predicate Tells(filled: (Storage, Table) -> bool) {
    forall m: Storage, table: Table {:trigger Noted(m, table)} :: Noted(m, table) ==>
      filled(m, table) == Answers(m, table)
  }

  method Register(storage: FunctionStorage, name: string, n: nat, op: Function,
                  ghost filled: (Storage, Table) -> bool, ghost table: Table) returns (ghost after: Table)
    requires Tells(filled) && filled(storage.m, table)
    modifies storage
    ensures after == table[(name, n) := op] && filled(storage.m, after)
  {
    assert Noted(storage.m, table);
    storage.AddBuiltin(name, n, op);
    after := table[(name, n) := op];
    assert Noted(storage.m, after);
  }

  method RegisterAll(functions: FunctionStorage, ghost filled: (Storage, Table) -> bool)
    requires Tells(filled) && filled(functions.m, map[])
    modifies functions
    ensures filled(functions.m, Builtins())
  {
    ghost var t: Table := map[];
    t := Register(functions, "at", 2, Pure(ElementAt), filled, t);
    t := Register(functions, "default", 2, DefaultFn, filled, t);
    t := Register(functions, "divisibleBy", 2, Pure(DivisibleBy), filled, t);
    t := Register(functions, "even", 1, Pure(Even), filled, t);
    t := Register(functions, "first", 1, Pure(First), filled, t);
    t := Register(functions, "float", 1, Pure(ToFloat), filled, t);
    t := Register(functions, "int", 1, Pure(ToInt), filled, t);
    t := Register(functions, "last", 1, Pure(Last), filled, t);
    t := Register(functions, "length", 1, Pure(Length), filled, t);
    t := Register(functions, "lower", 1, Pure(Lower), filled, t);
    t := Register(functions, "max", 1, Pure(Max), filled, t);
    t := Register(functions, "min", 1, Pure(Min), filled, t);
    t := Register(functions, "odd", 1, Pure(Odd), filled, t);
    t := Register(functions, "range", 1, Pure(Range), filled, t);
    t := Register(functions, "round", 2, Pure(Round), filled, t);
    t := Register(functions, "sort", 1, Pure(Sort), filled, t);
    t := Register(functions, "upper", 1, Pure(Upper), filled, t);
    t := Register(functions, "exists", 1, ExistsFn, filled, t);
    t := Register(functions, "existsIn", 2, Pure(ExistsIn), filled, t);
    t := Register(functions, "isBoolean", 1, Pure(IsBoolean), filled, t);
    t := Register(functions, "isNumber", 1, Pure(IsNumber), filled, t);
    t := Register(functions, "isInteger", 1, Pure(IsInteger), filled, t);
    t := Register(functions, "isFloat", 1, Pure(IsFloat), filled, t);
    t := Register(functions, "isObject", 1, Pure(IsObject), filled, t);
    t := Register(functions, "isArray", 1, Pure(IsArray), filled, t);
    t := Register(functions, "isString", 1, Pure(IsString), filled, t);
  }

  /** ParserStatic: the storage answers by the table. */
  method ParserStatic() returns (functions: FunctionStorage)
    ensures fresh(functions) && Answers(functions.m, Builtins())
  {
    functions := new FunctionStorage();
    ghost var filled := (m: Storage, table: Table) => Answers(m, table);
    assert Noted(functions.m, map[]);
    RegisterAll(functions, filled);
    assert Noted(functions.m, Builtins());
  }

  predicate Aligned(table: Table) {
    forall key | key in table :: key.1 == Arity(table[key])
  }

  /** Every entry is found under its operation's own name, with its own number of arguments. */
  predicate Named(table: Table) {
    forall key | key in table :: key == (NameOf(table[key]), Arity(table[key]))
  }

  predicate Seen(table: Table) {
    true
  }

  ghost predicate Judges(named: Table -> bool) {
    forall table: Table {:trigger Seen(table)} :: Seen(table) ==> named(table) == Named(table)
  }

  lemma {:induction false} NameOne(named: Table -> bool, table: Table, name: string, op: Function)
    returns (after: Table)
    requires Judges(named) && named(table) && name == NameOf(op)
    ensures after == table[(name, Arity(op)) := op] && named(after)
  {
    after := table[(name, Arity(op)) := op];
    assert Seen(table) && Seen(after);
  }

  lemma {:induction false} NameFirst(named: Table -> bool)
    requires Judges(named) && named(map[])
    ensures named(FirstBuiltins())
  {
    var t: Table := map[];
    t := NameOne(named, t, "at", Pure(ElementAt));
    t := NameOne(named, t, "default", DefaultFn);
    t := NameOne(named, t, "divisibleBy", Pure(DivisibleBy));
    t := NameOne(named, t, "even", Pure(Even));
    t := NameOne(named, t, "first", Pure(First));
    t := NameOne(named, t, "float", Pure(ToFloat));
    t := NameOne(named, t, "int", Pure(ToInt));
    t := NameOne(named, t, "last", Pure(Last));
    t := NameOne(named, t, "length", Pure(Length));
    t := NameOne(named, t, "lower", Pure(Lower));
    t := NameOne(named, t, "max", Pure(Max));
    t := NameOne(named, t, "min", Pure(Min));
  }

  lemma {:induction false} NameRest(named: Table -> bool)
    requires Judges(named) && named(FirstBuiltins())
    ensures named(Builtins())
  {
    var t := FirstBuiltins();
    t := NameOne(named, t, "odd", Pure(Odd));
    t := NameOne(named, t, "range", Pure(Range));
    t := NameOne(named, t, "round", Pure(Round));
    t := NameOne(named, t, "sort", Pure(Sort));
    t := NameOne(named, t, "upper", Pure(Upper));
    t := NameOne(named, t, "exists", ExistsFn);
    t := NameOne(named, t, "existsIn", Pure(ExistsIn));
    t := NameOne(named, t, "isBoolean", Pure(IsBoolean));
    t := NameOne(named, t, "isNumber", Pure(IsNumber));
    t := NameOne(named, t, "isInteger", Pure(IsInteger));
    t := NameOne(named, t, "isFloat", Pure(IsFloat));
    t := NameOne(named, t, "isObject", Pure(IsObject));
    t := NameOne(named, t, "isArray", Pure(IsArray));
    t := NameOne(named, t, "isString", Pure(IsString));
  }

  lemma {:induction false} BuiltinsNamed()
    ensures Named(Builtins())
  {
    assert Seen(map[]) && Seen(Builtins());
    var named := (table: Table) => Named(table);
    NameFirst(named);
    NameRest(named);
  }

  /** Every built-in function is registered with its own number of arguments. */
  lemma {:induction false} BuiltinsByArity()
    ensures Aligned(Builtins())
  {
    BuiltinsNamed();
  }

  /** A storage answers by one table only. */
  lemma {:induction false} TableIsUnique(m: Storage, a: Table, b: Table)
    requires Answers(m, a) && Answers(m, b)
    ensures a == b
  {
    forall key: (string, nat) ensures (key in a <==> key in b) && (key in a ==> a[key] == b[key]) {
      var (name, n) := key;
      assert OpIn(m, name, n) == if (name, n) in a then Some(a[(name, n)]) else None;
      assert OpIn(m, name, n) == if (name, n) in b then Some(b[(name, n)]) else None;
    }
  }
}
