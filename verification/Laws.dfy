/** What the interpreter's definitions come to, with truth, operators and scopes written out: the
    meaning that the theorems about rendering carry over to every compiled template. */
module Laws {
  import opened Options
  import opened Json
  import opened Bytecodes
  import opened Machine
  import opened Pointers
  import opened Syntax
  import opened Compiler

  // ----- truth -----

  /** The values that a condition takes for false. */
  predicate IsFalse(v: Value) {
    v == Null || v == Arr([]) || v == Obj(map[]) || v == Bool(false) || v == Int(0) || v == Float(0.0)
  }

  /** The values that a condition throws on: arrays and objects that hold something. */
  predicate HasNoTruth(v: Value) {
    (v.Arr? && v.elems != []) || (v.Obj? && v.fields != map[])
  }

  /** All others, among them the empty string and the string "false". */
  predicate IsTrue(v: Value) {
    !IsFalse(v) && !HasNoTruth(v)
  }

  lemma {:induction false} TruthExactly(v: Value)
    ensures Truthy(v) == Some(false) <==> IsFalse(v)
    ensures Truthy(v) == Some(true) <==> IsTrue(v)
    ensures Truthy(v) == None <==> HasNoTruth(v)
  {
  }

  // ----- arguments -----

  /** The values of all arguments, if they have some. */
  ghost predicate Values(cx: Context, data: Value, args: seq<Expr>, vs: seq<Value>) {
    |vs| == |args| && forall i | 0 <= i < |args| :: Eval(cx, data, args[i]) == Some(vs[i])
  }

  lemma {:induction false} EvalValues(cx: Context, data: Value, args: seq<Expr>, vs: seq<Value>, n: nat)
    requires Values(cx, data, args, vs) && n <= |args|
    ensures EvalArgs(cx, data, args, n) == Some(vs[..n])
    decreases n
  {
    if n > 0 {
      EvalValues(cx, data, args, vs, n - 1);
      assert vs[..n] == vs[..n - 1] + [vs[n - 1]];
    }
  }

  lemma {:induction false} EvalThrows(cx: Context, data: Value, args: seq<Expr>, i: nat, n: nat)
    requires i < n <= |args| && Eval(cx, data, args[i]).None?
    ensures EvalArgs(cx, data, args, n).None?
    decreases n
  {
    if i < n - 1 {
      EvalThrows(cx, data, args, i, n - 1);
    }
  }

  /** A call hands over the values of its arguments, in their order, when each has one and a callback of
      that name takes as many; otherwise it throws. */
  lemma {:induction false} CallMeans(cx: Context, data: Value, name: string, args: seq<Expr>, vs: seq<Value>)
    ensures Values(cx, data, args, vs) ==>
              Eval(cx, data, Call(name, args)) ==
              if cx.env.hasCallback(name, |args|) then cx.env.callback(name, vs) else None
    ensures (exists i :: 0 <= i < |args| && Eval(cx, data, args[i]).None?) ==>
              Eval(cx, data, Call(name, args)).None?
  {
    if Values(cx, data, args, vs) {
      EvalValues(cx, data, args, vs, |args|);
      assert vs[..|args|] == vs;
    }
    if i :| 0 <= i < |args| && Eval(cx, data, args[i]).None? {
      EvalThrows(cx, data, args, i, |args|);
    }
  }

  /** So does a built-in function or an infix operator, the left operand first. */
  lemma {:induction false} BuiltinMeans(cx: Context, data: Value, b: Builtin, args: seq<Expr>, vs: seq<Value>)
    requires |args| == Arity(Pure(b))
    ensures Values(cx, data, args, vs) ==> Eval(cx, data, Expr.Apply(Pure(b), args)) == cx.env.builtin(b, vs)
    ensures (exists i :: 0 <= i < |args| && Eval(cx, data, args[i]).None?) ==>
              Eval(cx, data, Expr.Apply(Pure(b), args)).None?
  {
    if Values(cx, data, args, vs) {
      EvalValues(cx, data, args, vs, |args|);
      assert vs[..|args|] == vs;
    }
    if i :| 0 <= i < |args| && Eval(cx, data, args[i]).None? {
      EvalThrows(cx, data, args, i, |args|);
    }
  }

  // ----- and, or, not, exists, default -----

  lemma {:induction false} TwoValues(cx: Context, data: Value, x: Expr, y: Expr)
    ensures var a, b := Eval(cx, data, x), Eval(cx, data, y);
            EvalArgs(cx, data, [x, y], 2) == if a.None? || b.None? then None else Some([a.value, b.value])
  {
    var args, a, b := [x, y], Eval(cx, data, x), Eval(cx, data, y);
    if a.Some? && b.Some? {
      EvalValues(cx, data, args, [a.value, b.value], 2);
      assert [a.value, b.value][..2] == [a.value, b.value];
    } else {
      EvalThrows(cx, data, args, if a.None? then 0 else 1, 2);
    }
  }

  lemma {:induction false} OneValue(cx: Context, data: Value, x: Expr)
    ensures var a := Eval(cx, data, x);
            EvalArgs(cx, data, [x], 1) == if a.None? then None else Some([a.value])
  {
    var a := Eval(cx, data, x);
    if a.Some? {
      EvalValues(cx, data, [x], [a.value], 1);
      assert [a.value][..1] == [a.value];
    } else {
      EvalThrows(cx, data, [x], 0, 1);
    }
  }

  /** a or b: both are evaluated, but a true a leaves the truth of b unasked. */
  lemma {:induction false} OrMeans(cx: Context, data: Value, x: Expr, y: Expr)
    ensures var a, b, r := Eval(cx, data, x), Eval(cx, data, y), Eval(cx, data, Expr.Apply(OrFn, [x, y]));
            if a.None? || b.None? then r == None
            else && (r == Some(Bool(true)) <==> IsTrue(a.value) || (IsFalse(a.value) && IsTrue(b.value)))
                 && (r == Some(Bool(false)) <==> IsFalse(a.value) && IsFalse(b.value))
                 && (r == None <==> HasNoTruth(a.value) || (IsFalse(a.value) && HasNoTruth(b.value)))
  {
    TwoValues(cx, data, x, y);
    var a, b := Eval(cx, data, x), Eval(cx, data, y);
    if a.Some? && b.Some? {
      TruthExactly(a.value);
      TruthExactly(b.value);
    }
  }

  /** a and b: a false a leaves the truth of b unasked. */
  lemma {:induction false} AndMeans(cx: Context, data: Value, x: Expr, y: Expr)
    ensures var a, b, r := Eval(cx, data, x), Eval(cx, data, y), Eval(cx, data, Expr.Apply(AndFn, [x, y]));
            if a.None? || b.None? then r == None
            else && (r == Some(Bool(true)) <==> IsTrue(a.value) && IsTrue(b.value))
                 && (r == Some(Bool(false)) <==> IsFalse(a.value) || (IsTrue(a.value) && IsFalse(b.value)))
                 && (r == None <==> HasNoTruth(a.value) || (IsTrue(a.value) && HasNoTruth(b.value)))
  {
    TwoValues(cx, data, x, y);
    var a, b := Eval(cx, data, x), Eval(cx, data, y);
    if a.Some? && b.Some? {
      TruthExactly(a.value);
      TruthExactly(b.value);
    }
  }

  lemma {:induction false} NotMeans(cx: Context, data: Value, x: Expr)
    ensures var a, r := Eval(cx, data, x), Eval(cx, data, Expr.Apply(NotFn, [x]));
            if a.None? then r == None
            else && (r == Some(Bool(true)) <==> IsFalse(a.value))
                 && (r == Some(Bool(false)) <==> IsTrue(a.value))
                 && (r == None <==> HasNoTruth(a.value))
  {
    OneValue(cx, data, x);
    var a := Eval(cx, data, x);
    if a.Some? {
      TruthExactly(a.value);
    }
  }

  /** exists(s) asks the data the template is rendered with, whatever loop it stands in. */
  lemma {:induction false} ExistsMeans(cx: Context, data: Value, x: Expr)
    ensures var a, r := Eval(cx, data, x), Eval(cx, data, Expr.Apply(ExistsFn, [x]));
            if a.None? || !a.value.Str? then r == None
            else && (r == Some(Bool(true)) <==> cx.root.Obj? && a.value.s in cx.root.fields)
                 && (r == Some(Bool(false)) <==> !(cx.root.Obj? && a.value.s in cx.root.fields))
  {
    OneValue(cx, data, x);
  }

  /** default(a, b): b is evaluated first and may throw; a may not be there. */
  lemma {:induction false} DefaultMeans(cx: Context, data: Value, x: Expr, y: Expr)
    ensures var a, b, r := Eval(cx, data, x), Eval(cx, data, y), Eval(cx, data, Expr.Apply(DefaultFn, [x, y]));
            && (b.None? ==> r == None) && (b.Some? && a.Some? ==> r == a) && (b.Some? && a.None? ==> r == b)
  {
  }

  // ----- names -----

  /** A name in dot notation: a slash and the name with its dots turned into slashes, one final dot
      dropped. */
  predicate IsDotPointer(name: string, pointer: string) {
    var n := if name != "" && name[|name| - 1] == '.' then |name| - 1 else |name|;
    && |pointer| == n + 1 && pointer[0] == '/'
    && forall i | 0 <= i < n :: pointer[i + 1] == if name[i] == '.' then '/' else name[i]
  }

  /** A name is looked up in the current data, at its pointer; then it is a callback without arguments;
      then it throws. */
  lemma {:induction false} LookupMeans(cx: Context, data: Value, name: string, pointer: string)
    requires if cx.notation == LookupDot then IsDotPointer(name, pointer) else pointer == "/" + name
    ensures var found, r := cx.env.lookup(data, pointer), Eval(cx, data, Lookup(name));
            && (found.Some? ==> r == found)
            && (found.None? && cx.env.hasCallback(name, 0) ==> r == cx.env.callback(name, []))
            && (found.None? && !cx.env.hasCallback(name, 0) ==> r == None)
  {
    if cx.notation == LookupDot {
      PointerIsSlashed(name);
      PointerIsUnique(name, pointer, DotToPointer(name));
    }
  }

  lemma {:induction false} PointerIsUnique(name: string, p: string, q: string)
    requires IsDotPointer(name, p) && q == "/" + Slashed(DropFinalDot(name))
    ensures p == q
  {
    forall i | 0 <= i < |p| ensures p[i] == q[i] {
      if i > 0 {
        assert p[(i - 1) + 1] == if name[i - 1] == '.' then '/' else name[i - 1];
      }
    }
  }

  // ----- statements -----

  /** Strings are printed as they are, all else as the JSON library dumps it. */
  lemma {:induction false} PrintMeans(cx: Context, data: Value, e: Expr)
    ensures var v, r := Eval(cx, data, e), ExecStmt(cx, data, Print(e));
            if v.None? then r == None
            else if v.value.Str? then r == Some(v.value.s)
            else r == cx.env.dump(v.value)
  {
  }

  /** An if runs its branch when the condition is true, the rest of its chain when it is false, and
      throws when it has no truth. */
  lemma {:induction false} IfMeans(cx: Context, data: Value, d: Delim, br: Branches)
    ensures var v, r := Eval(cx, data, br.cond), ExecStmt(cx, data, If(d, br));
            && (v.None? ==> r == None)
            && (v.Some? && IsTrue(v.value) ==> r == Exec(cx, data, br.thn, 0))
            && (v.Some? && IsFalse(v.value) ==>
                  match br.els
                  case EndIf(_) => r == Some("")
                  case ElseDo(_, b, _) => r == Exec(cx, data, b, 0)
                  case ElseIf(d2, next) => r == ExecStmt(cx, data, If(d2, next)))
            && (v.Some? && HasNoTruth(v.value) ==> r == None)
  {
    var v := Eval(cx, data, br.cond);
    assert ExecStmt(cx, data, If(d, br)) == ExecBranches(cx, data, br);
    if v.Some? {
      TruthExactly(v.value);
      if IsFalse(v.value) {
        assert ExecBranches(cx, data, br) == ExecElse(cx, data, br.els);
        RestMeans(cx, data, br.els);
      }
    }
  }

  lemma {:induction false} RestMeans(cx: Context, data: Value, els: Else)
    ensures match els
            case EndIf(_) => ExecElse(cx, data, els) == Some("")
            case ElseDo(_, b, _) => ExecElse(cx, data, els) == Exec(cx, data, b, 0)
            case ElseIf(d, next) => ExecElse(cx, data, els) == ExecStmt(cx, data, If(d, next))
  {
  }

  /** One text behind another. */
  function Joined(outs: seq<string>, n: nat): string
    requires n <= |outs|
    decreases |outs| - n, outs
  {
    if n == |outs| then "" else outs[n] + Joined(outs, n + 1)
  }

  /** A block writes what its statements write, in their order, and throws if one of them does. */
  lemma {:induction false} BlockMeans(cx: Context, data: Value, b: seq<Stmt>, i: nat, outs: seq<string>)
    requires i <= |b| == |outs|
    ensures (forall k | i <= k < |b| :: ExecStmt(cx, data, b[k]) == Some(outs[k])) ==>
              Exec(cx, data, b, i) == Some(Joined(outs, i))
    ensures (exists k :: i <= k < |b| && ExecStmt(cx, data, b[k]).None?) ==> Exec(cx, data, b, i).None?
    decreases |b| - i
  {
    if i < |b| {
      BlockMeans(cx, data, b, i + 1, outs);
    }
  }

  /** Texts are written, comments are not. */
  lemma {:induction false} TextMeans(cx: Context, data: Value, text: string)
    ensures ExecStmt(cx, data, Text(text)) == Some(text) && ExecStmt(cx, data, Comment(text)) == Some("")
  {
  }

  // ----- loops -----

  /** The data around a loop, as an object: null counts as one that holds nothing. */
  predicate IsAround(data: Value, fields: map<string, Value>) {
    data == Obj(fields) || (data == Null && fields == map[])
  }

  /** The "loop" around a loop, if there is one, is an object or null. */
  predicate HasRoom(fields: map<string, Value>) {
    "loop" in fields ==> fields["loop"].Obj? || fields["loop"].Null?
  }

  /** A loop's record before it is marked: the enclosing record, with itself as its parent. */
  function Enclosing(fields: map<string, Value>): map<string, Value> {
    if "loop" !in fields then map[]
    else (if fields["loop"].Obj? then fields["loop"].fields else map[])["parent" := fields["loop"]]
  }

  /** What the body of a loop over an array sees at one of its items. */
  function ItemFields(value: string, fields: map<string, Value>, elems: seq<Value>, i: nat): map<string, Value>
    requires i < |elems|
  {
    var record := Enclosing(fields)["index" := Int(i)]["index1" := Int(i + 1)]
                  ["is_first" := Bool(i == 0)]["is_last" := Bool(i + 1 == |elems|)];
    fields[value := elems[i]]["loop" := Obj(record)]
  }

  /** What the body of a loop over an object sees at one of its entries. */
  function PairFields(key: string, value: string, fields: map<string, Value>, entry: (string, Value)):
    map<string, Value>
  {
    var base := if "loop" in fields then fields["loop" := Obj(Enclosing(fields))] else fields;
    base[key := Str(entry.0)][value := entry.1]
  }

  lemma {:induction false} ParentMeans(data: Value, fields: map<string, Value>)
    requires IsAround(data, fields)
    ensures WithParent(data) == if !HasRoom(fields) then None
                                else if "loop" in fields then Some(Obj(fields["loop" := Obj(Enclosing(fields))]))
                                else Some(data)
  {
  }

  lemma {:induction false} MarksMean(record: map<string, Value>, i: nat, size: nat)
    ensures record + LoopMarks(i, size) ==
            record["index" := Int(i)]["index1" := Int(i + 1)]
            ["is_first" := Bool(i == 0)]["is_last" := Bool(i + 1 == size)]
  {
  }

  lemma {:induction false} ItemScopeMeans(value: string, data: Value, fields: map<string, Value>, elems: seq<Value>,
                                          items: seq<(string, Value)>, i: nat)
    requires IsAround(data, fields) && value != "loop" && i < |elems| == |items| && items[i].1 == elems[i]
    ensures Opened(ItemVar(value), data, items, i) ==
            if HasRoom(fields) then Some(Obj(ItemFields(value, fields, elems, i))) else None
  {
    ParentMeans(data, fields);
    if HasRoom(fields) {
      MarksMean(Enclosing(fields), i, |elems|);
      assert map[] + LoopMarks(i, |elems|) == LoopMarks(i, |elems|);
      var base := WithParent(data).value;
      var s := SetField(base, value, elems[i]).value;
      assert FieldOrNull(s, "loop") == if "loop" in fields then Obj(Enclosing(fields)) else Null;
      var record := LoopRecord(FieldOrNull(s, "loop"), i, |elems|).value;
      assert SetField(s, "loop", record).value.fields == ItemFields(value, fields, elems, i);
    }
  }

  lemma {:induction false} PairScopeMeans(key: string, value: string, data: Value, fields: map<string, Value>,
                                          items: seq<(string, Value)>, i: nat)
    requires IsAround(data, fields) && i < |items|
    ensures Opened(PairVars(key, value), data, items, i) ==
            if HasRoom(fields) then Some(Obj(PairFields(key, value, fields, items[i]))) else None
  {
    ParentMeans(data, fields);
  }

  /** The iterations, in the order of their scopes. */
  lemma {:induction false} EachMeans(cx: Context, scopes: seq<Option<Value>>, body: seq<Stmt>, outs: seq<string>,
                                     k: nat)
    requires k <= |scopes| == |outs|
    requires forall i | k <= i < |scopes| :: scopes[i].Some? && Exec(cx, scopes[i].value, body, 0) == Some(outs[i])
    ensures ExecEach(cx, scopes, k, body) == Some(Joined(outs, k))
    decreases |scopes| - k
  {
    if k < |scopes| {
      EachMeans(cx, scopes, body, outs, k + 1);
    }
  }

  lemma {:induction false} EachThrows(cx: Context, scopes: seq<Option<Value>>, body: seq<Stmt>, k: nat, i: nat)
    requires k <= i < |scopes| && (scopes[i].None? || Exec(cx, scopes[i].value, body, 0).None?)
    ensures ExecEach(cx, scopes, k, body).None?
    decreases i - k
  {
    if k < i {
      EachThrows(cx, scopes, body, k + 1, i);
    }
  }

  /** A loop over an array writes what its body writes for one item after another. */
  lemma {:induction false} ArrayLoopMeans(cx: Context, data: Value, fields: map<string, Value>, s: Stmt,
                                          value: string, elems: seq<Value>, outs: seq<string>)
    requires s.For? && s.vars == ItemVar(value) && value != "loop" && IsAround(data, fields) && HasRoom(fields)
    requires Eval(cx, data, s.e) == Some(Arr(elems)) && |outs| == |elems|
    ensures (forall i | 0 <= i < |elems| ::
               Exec(cx, Obj(ItemFields(value, fields, elems, i)), s.body, 0) == Some(outs[i])) ==>
              ExecStmt(cx, data, s) == Some(Joined(outs, 0))
    ensures (exists i :: 0 <= i < |elems| && Exec(cx, Obj(ItemFields(value, fields, elems, i)), s.body, 0).None?) ==>
              ExecStmt(cx, data, s).None?
  {
    if elems != [] {
      var items := Items(s.vars, Arr(elems)).value;
      var scopes := Scopes(s.vars, data, items);
      forall i | 0 <= i < |elems| ensures scopes[i] == Some(Obj(ItemFields(value, fields, elems, i))) {
        ItemScopeMeans(value, data, fields, elems, items, i);
      }
      assert ExecStmt(cx, data, s) == ExecEach(cx, scopes, 0, s.body);
      if forall i | 0 <= i < |elems| :: Exec(cx, Obj(ItemFields(value, fields, elems, i)), s.body, 0) == Some(outs[i]) {
        EachMeans(cx, scopes, s.body, outs, 0);
      }
      if i :| 0 <= i < |elems| && Exec(cx, Obj(ItemFields(value, fields, elems, i)), s.body, 0).None? {
        EachThrows(cx, scopes, s.body, 0, i);
      }
    }
  }

  /** A loop over an object writes what its body writes for one entry after another. */
  lemma {:induction false} ObjectLoopMeans(cx: Context, data: Value, fields: map<string, Value>, s: Stmt,
                                           key: string, value: string, over: map<string, Value>, outs: seq<string>)
    requires s.For? && s.vars == PairVars(key, value) && IsAround(data, fields) && HasRoom(fields)
    requires Eval(cx, data, s.e) == Some(Obj(over)) && |outs| == |over|
    ensures (forall i | 0 <= i < |over| ::
               Exec(cx, Obj(PairFields(key, value, fields, Entries(over)[i])), s.body, 0) == Some(outs[i])) ==>
              ExecStmt(cx, data, s) == Some(Joined(outs, 0))
    ensures (exists i :: 0 <= i < |over| &&
               Exec(cx, Obj(PairFields(key, value, fields, Entries(over)[i])), s.body, 0).None?) ==>
              ExecStmt(cx, data, s).None?
  {
    if over != map[] {
      var items := Entries(over);
      var scopes := Scopes(s.vars, data, items);
      forall i | 0 <= i < |over| ensures scopes[i] == Some(Obj(PairFields(key, value, fields, items[i]))) {
        PairScopeMeans(key, value, data, fields, items, i);
      }
      assert ExecStmt(cx, data, s) == ExecEach(cx, scopes, 0, s.body);
      if forall i | 0 <= i < |over| ::
           Exec(cx, Obj(PairFields(key, value, fields, items[i])), s.body, 0) == Some(outs[i]) {
        EachMeans(cx, scopes, s.body, outs, 0);
      }
      if i :| 0 <= i < |over| && Exec(cx, Obj(PairFields(key, value, fields, items[i])), s.body, 0).None? {
        EachThrows(cx, scopes, s.body, 0, i);
      }
    }
  }

  /** Other values, and data that is neither an object nor null: nothing for null and what is empty,
      otherwise the loop throws. */
  lemma {:induction false} OtherLoopMeans(cx: Context, data: Value, s: Stmt)
    requires s.For?
    ensures var v, r := Eval(cx, data, s.e), ExecStmt(cx, data, s);
            && (v.None? ==> r == None)
            && (v == Some(Null) || v == Some(Arr([])) || v == Some(Obj(map[])) ==> r == Some(""))
            && (v.Some? && v.value != Null && v.value != Arr([]) && v.value != Obj(map[]) ==>
                  && ((if s.vars.ItemVar? then !v.value.Arr? else !v.value.Obj?) ==> r == None)
                  && (!data.Obj? && data != Null ==> r == None))
  {
    var v := Eval(cx, data, s.e);
    if v.Some? && !IsEmpty(v.value) && Items(s.vars, v.value).Some? && !data.Obj? && data != Null {
      var items := Items(s.vars, v.value).value;
      NonEmptyHasItems(s.vars, v.value);
      assert Opened(s.vars, data, items, 0) == None;
      EachThrows(cx, Scopes(s.vars, data, items), s.body, 0, 0);
    }
  }
}
