/** What the body of a for-loop sees. */
module Scoping {
  import opened Options
  import opened Json
  import opened Bytecodes
  import opened Machine
  import opened Syntax
  import opened Compiler
  import opened Correctness

  /** Data a loop can be opened on: an object whose own "loop", if it has one, is an object or null. */
  predicate Openable(fields: map<string, Value>) {
    "loop" in fields ==> fields["loop"].Obj? || fields["loop"].Null?
  }

  /** The marks of an iteration: its number from zero and from one, and whether it is the first or the
      last of all. */
  predicate IsMarked(record: Value, index: nat, size: nat) {
    && record.Obj?
    && "index" in record.fields && record.fields["index"] == Int(index)
    && "index1" in record.fields && record.fields["index1"] == Int(index + 1)
    && "is_first" in record.fields && record.fields["is_first"] == Bool(index == 0)
    && "is_last" in record.fields && record.fields["is_last"] == Bool(index + 1 == size)
  }

  /** The marks of an iteration, and the enclosing loop's record as the parent, if there is one. */
  predicate IsRecord(record: Value, fields: map<string, Value>, index: nat, size: nat) {
    && IsMarked(record, index, size)
    && ("loop" in fields ==> "parent" in record.fields && record.fields["parent"] == fields["loop"])
    && ("loop" !in fields ==> record.fields.Keys == {"index", "index1", "is_first", "is_last"})
  }

  /** The enclosing data with some names bound anew. */
  predicate Extends(scope: map<string, Value>, fields: map<string, Value>, names: set<string>) {
    && scope.Keys == fields.Keys + names
    && forall k | k in fields && k !in names :: scope[k] == fields[k]
  }

  lemma {:induction false} ParentOf(fields: map<string, Value>)
    ensures Openable(fields) <==> WithParent(Obj(fields)).Some?
    ensures Openable(fields) && "loop" in fields ==>
              var r := WithParent(Obj(fields)).value;
              && r.Obj? && r.fields.Keys == fields.Keys
              && (forall k | k in fields && k != "loop" :: r.fields[k] == fields[k])
              && r.fields["loop"].Obj?
              && "parent" in r.fields["loop"].fields && r.fields["loop"].fields["parent"] == fields["loop"]
  {
  }

  /** Array loops: the item under its name, the loop record, and everything around the loop. The
      loop fails exactly when the data's own "loop" cannot be turned into a record. */
  lemma {:induction false} ItemScope(value: string, fields: map<string, Value>, items: seq<(string, Value)>, index: nat)
    requires value != "loop" && index < |items|
    ensures var r := Opened(ItemVar(value), Obj(fields), items, index);
            && (r.Some? <==> Openable(fields))
            && (r.Some? ==>
                  && r.value.Obj? && Extends(r.value.fields, fields, {value, "loop"})
                  && r.value.fields[value] == items[index].1
                  && IsRecord(r.value.fields["loop"], fields, index, |items|))
  {
    ParentOf(fields);
    var marks := LoopMarks(index, |items|);
    if Openable(fields) {
      var base := WithParent(Obj(fields)).value.fields;
      assert "loop" in fields ==> "parent" in (base["loop"].fields + marks);
      assert "loop" !in fields ==> marks.Keys == {"index", "index1", "is_first", "is_last"};
    }
  }

  /** Object loops: the key and the value under their names, the value last if the names are the
      same. No marks are made: "loop" stays the enclosing loop's, now with a parent. */
  lemma {:induction false} PairScope(key: string, value: string, fields: map<string, Value>,
                                     items: seq<(string, Value)>, index: nat)
    requires key != "loop" && value != "loop" && index < |items|
    ensures var r := Opened(PairVars(key, value), Obj(fields), items, index);
            && (r.Some? <==> Openable(fields))
            && (r.Some? ==>
                  && r.value.Obj? && Extends(r.value.fields, fields - {"loop"}, ({key, value} + fields.Keys * {"loop"}))
                  && r.value.fields[value] == items[index].1
                  && (key != value ==> r.value.fields[key] == Str(items[index].0))
                  && ("loop" in fields ==>
                        && r.value.fields["loop"].Obj? && "parent" in r.value.fields["loop"].fields
                        && r.value.fields["loop"].fields["parent"] == fields["loop"]))
  {
    ParentOf(fields);
  }

  /** A loop variable named "loop" is lost: the marks are made in the item itself, and an item
      that is neither an object nor null makes the loop fail. */
  lemma {:induction false} ItemNamedLoop(fields: map<string, Value>, items: seq<(string, Value)>, index: nat)
    requires Openable(fields) && index < |items|
    ensures var r := Opened(ItemVar("loop"), Obj(fields), items, index);
            && (r.Some? <==> items[index].1.Obj? || items[index].1.Null?)
            && (r.Some? ==>
                  && r.value.Obj? && "loop" in r.value.fields
                  && IsMarked(r.value.fields["loop"], index, |items|)
                  && (items[index].1.Obj? ==>
                        forall k | k in items[index].1.fields && k !in {"index", "index1", "is_first", "is_last"} ::
                          && k in r.value.fields["loop"].fields
                          && r.value.fields["loop"].fields[k] == items[index].1.fields[k]))
  {
    ParentOf(fields);
  }

  /** Compiled code, at a loop's start with the iterable's value on the stack: an empty value, of
      either kind or null, takes one step to the address behind the loop's end, with no loop opened
      and no output made; any other value of the wrong kind throws. */
  lemma {:induction false} EmptyLoop(p: Program, st: State, s: Stmt, pc: nat, v: Value)
    requires Obeys(p) && |p.code| < ARGS_LIMIT && s.For? && Holds(p.code, pc, LayoutStmt(p.kit, s, pc))
    requires st.pc == pc + |p.kit.code(s.e)| && st.stack != [] && st.stack[|st.stack| - 1] == v
    ensures IsEmpty(v) ==>
              From(p, st, 1) == At(st.(pc := pc + SizeStmt(p.kit, s), stack := st.stack[..|st.stack| - 1]))
    ensures !IsEmpty(v) && (if s.vars.ItemVar? then !v.Arr? else !v.Obj?) && |st.loops| < RESERVED_LOOPS ==>
              From(p, st, 1) == Failed
  {
    ForParts(p.code, p.kit, s, pc);
    OneStart(p, st);
    assert LoopVarsOf(p.code[st.pc]) == s.vars;
  }

  /** The loop stack holds sixteen levels: exactly with that many open, one more is undefined. */
  lemma {:induction false} SixteenLoops(vars: LoopVars, data: Value, v: Value, skip: nat, st: State)
    ensures EnterLoop(vars, data, v, skip, st) == Undefined <==>
            |st.loops| >= 16 && v != Null && v != Arr([]) && v != Obj(map[])
  {
  }

  /** Array items come in index order, object entries in ascending key order, each once. */
  lemma {:induction false} IterationOrder(vars: LoopVars, v: Value)
    requires Items(vars, v).Some?
    ensures var items := Items(vars, v).value;
            && (v.Arr? ==> |items| == |v.elems| && forall i | 0 <= i < |items| :: items[i].1 == v.elems[i])
            && (v.Obj? ==>
                  && |items| == |v.fields|
                  && (forall k | k in v.fields :: (k, v.fields[k]) in items)
                  && (forall i, j | 0 <= i < j < |items| :: items[i].0 != items[j].0 && LexLe(items[i].0, items[j].0)))
  {
    if v.Obj? {
      EntriesAscend(v.fields);
    }
  }
}
