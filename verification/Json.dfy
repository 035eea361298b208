/** The JSON values the template engine computes with: what the engine itself asks of
    nlohmann::json, and no more. Dumping, parsing and pointer resolution stay parameters. */
module Json {
  import opened Options

  datatype Value =
    | Null
    | Bool(b: bool)
    | Int(i: int)
    | Float(x: real)
    | Str(s: string)
    | Arr(elems: seq<Value>)
    | Obj(fields: map<string, Value>)

  /** basic_json::empty: a string is never empty, not even "". */
  predicate IsEmpty(v: Value) {
    match v
    case Null => true
    case Arr(elems) => elems == []
    case Obj(fields) => fields == map[]
    case _ => false
  }

  /** Renderer::truthy. None is the exception thrown on a non-empty array or object. */
  function Truthy(v: Value): Option<bool> {
    if IsEmpty(v) then Some(false)
    else match v
      case Int(i) => Some(i != 0)
      case Float(x) => Some(x != 0.0)
      case Str(_) => Some(true)
      case Bool(b) => Some(b)
      case _ => None
  }

  /** v[key] = x: null becomes an object first, every other non-object throws. */
  function SetField(v: Value, key: string, x: Value): Option<Value> {
    match v
    case Null => Some(Obj(map[key := x]))
    case Obj(fields) => Some(Obj(fields[key := x]))
    case _ => None
  }

  /** What v[key] refers to before it is written: null when the key is new. */
  function FieldOrNull(v: Value, key: string): Value {
    if v.Obj? && key in v.fields then v.fields[key] else Null
  }

  // ----- key order -----

  /** Byte order on strings, the order of std::map keys and of string_view's `<`. */
  predicate LexLe(a: string, b: string) {
    a == [] || (b != [] && (a[0] < b[0] || (a[0] == b[0] && LexLe(a[1..], b[1..]))))
  }

  lemma {:induction false} LexAntisymmetric(a: string, b: string)
    requires LexLe(a, b) && LexLe(b, a)
    ensures a == b
  {
    if a != [] {
      LexAntisymmetric(a[1..], b[1..]);
      assert a == [a[0]] + a[1..] && b == [b[0]] + b[1..];
    }
  }

  lemma {:induction false} LexTotal(a: string, b: string)
    ensures LexLe(a, b) || LexLe(b, a)
  {
    if a != [] && b != [] {
      LexTotal(a[1..], b[1..]);
    }
  }

  /** The order: a prefix comes first, otherwise the first character that differs decides. */
  lemma {:induction false} LexLeExact(a: string, b: string)
    ensures LexLe(a, b) <==>
            a <= b || exists k :: 0 <= k < |a| && k < |b| && a[..k] == b[..k] && a[k] < b[k]
  {
    if a != [] && b != [] && a[0] == b[0] {
      LexLeExact(a[1..], b[1..]);
      if a[1..] <= b[1..] {
        assert a == [a[0]] + a[1..] && b == [b[0]] + b[1..];
      }
      if k :| 0 <= k < |a[1..]| && k < |b[1..]| && a[1..][..k] == b[1..][..k] && a[1..][k] < b[1..][k] {
        assert a[..k + 1] == [a[0]] + a[1..][..k] && b[..k + 1] == [b[0]] + b[1..][..k];
        assert a[k + 1] < b[k + 1];
      }
      if k :| 0 <= k < |a| && k < |b| && a[..k] == b[..k] && a[k] < b[k] {
        assert a[1..][..k - 1] == a[..k][1..] && b[1..][..k - 1] == b[..k][1..];
        assert a[1..][k - 1] < b[1..][k - 1];
      }
      if a <= b {
        assert a[1..] <= b[1..];
      }
    } else if a != [] && b != [] && a[0] < b[0] {
      assert a[..0] == b[..0];
    }
  }

  lemma {:induction false} LexTransitive(a: string, b: string, c: string)
    requires LexLe(a, b) && LexLe(b, c)
    ensures LexLe(a, c)
  {
    if a != [] && a[0] == b[0] == c[0] {
      LexTransitive(a[1..], b[1..], c[1..]);
    }
  }

  predicate IsFirst(k: string, keys: set<string>) {
    k in keys && forall other | other in keys :: LexLe(k, other)
  }

  lemma {:induction false} FirstExists(keys: set<string>)
    requires keys != {}
    ensures exists k :: IsFirst(k, keys)
  {
    var x :| x in keys;
    if keys == {x} {
      LexTotal(x, x);
      assert IsFirst(x, keys);
    } else {
      FirstExists(keys - {x});
      var k :| IsFirst(k, keys - {x});
      LexTotal(x, x);
      LexTotal(x, k);
      if LexLe(x, k) {
        forall other | other in keys ensures LexLe(x, other) {
          if other != x {
            LexTransitive(x, k, other);
          }
        }
        assert IsFirst(x, keys);
      } else {
        assert IsFirst(k, keys);
      }
    }
  }

  lemma {:induction false} FirstIsUnique(keys: set<string>)
    ensures forall j, k | IsFirst(j, keys) && IsFirst(k, keys) :: j == k
  {
    forall j, k | IsFirst(j, keys) && IsFirst(k, keys) ensures j == k {
      LexAntisymmetric(j, k);
    }
  }

  /** The keys of an object in iteration order. */
  function SortedKeys(keys: set<string>): (r: seq<string>)
    ensures forall k :: k in r <==> k in keys
    ensures |r| == |keys|
    ensures forall i, j | 0 <= i < j < |r| :: r[i] != r[j] && LexLe(r[i], r[j])
  {
    if keys == {} then []
    else
      FirstExists(keys);
      FirstIsUnique(keys);
      var k :| k in keys && IsFirst(k, keys);
      [k] + SortedKeys(keys - {k})
  }

  /** An object's entries in iteration order. */
  function Entries(fields: map<string, Value>): (r: seq<(string, Value)>)
    ensures |r| == |fields|
    ensures forall i | 0 <= i < |r| :: r[i].0 in fields && r[i].1 == fields[r[i].0]
  {
    var keys := SortedKeys(fields.Keys);
    seq(|keys|, i requires 0 <= i < |keys| => (keys[i], fields[keys[i]]))
  }

  /** A loop over an object meets every key once, in ascending byte order. */
  lemma {:induction false} EntriesAscend(fields: map<string, Value>)
    ensures forall k | k in fields :: (k, fields[k]) in Entries(fields)
    ensures forall i, j | 0 <= i < j < |fields| ::
              Entries(fields)[i].0 != Entries(fields)[j].0 && LexLe(Entries(fields)[i].0, Entries(fields)[j].0)
  {
    var keys, entries := SortedKeys(fields.Keys), Entries(fields);
    forall k | k in fields ensures (k, fields[k]) in entries {
      var i :| 0 <= i < |keys| && keys[i] == k;
      assert entries[i] == (k, fields[k]);
    }
    forall i, j | 0 <= i < j < |fields|
      ensures entries[i].0 != entries[j].0 && LexLe(entries[i].0, entries[j].0)
    {
      assert entries[i].0 == keys[i] && entries[j].0 == keys[j];
    }
  }
}
