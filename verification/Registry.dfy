/** The table of built-in functions, against the names that templates call them by. */
module Registry {
  import opened Bytecodes
  import opened Functions
  import opened Linear

  // ----- no two functions have one name -----

  /** A few characters of a name, enough to tell it from the others. */
  datatype Mark = Mark(size: nat, first: char, middle: char, last: char)

  function MarkOf(name: string): Mark
    requires name != ""
  {
    Mark(|name|, name[0], name[|name| / 2], name[|name| - 1])
  }

  function MarkOfFunction(f: Function): Mark {
    match f
    case NotFn => Mark(3, 'n', 'o', 't')
    case AndFn => Mark(3, 'a', 'n', 'd')
    case OrFn => Mark(2, 'o', 'r', 'r')
    case ExistsFn => Mark(6, 'e', 's', 's')
    case DefaultFn => Mark(7, 'd', 'a', 't')
    case Pure(b) =>
      match b {
        case ElementAt => Mark(2, 'a', 't', 't')
        case DivisibleBy => Mark(11, 'd', 'i', 'y')
        case Even => Mark(4, 'e', 'e', 'n')
        case First => Mark(5, 'f', 'r', 't')
        case ToFloat => Mark(5, 'f', 'o', 't')
        case ToInt => Mark(3, 'i', 'n', 't')
        case Last => Mark(4, 'l', 's', 't')
        case Length => Mark(6, 'l', 'g', 'h')
        case Lower => Mark(5, 'l', 'w', 'r')
        case Max => Mark(3, 'm', 'a', 'x')
        case Min => Mark(3, 'm', 'i', 'n')
        case Odd => Mark(3, 'o', 'd', 'd')
        case Range => Mark(5, 'r', 'n', 'e')
        case Round => Mark(5, 'r', 'u', 'd')
        case Sort => Mark(4, 's', 'r', 't')
        case Upper => Mark(5, 'u', 'p', 'r')
        case ExistsIn => Mark(8, 'e', 't', 'n')
        case IsBoolean => Mark(9, 'i', 'o', 'n')
        case IsNumber => Mark(8, 'i', 'm', 'r')
        case IsInteger => Mark(9, 'i', 't', 'r')
        case IsFloat => Mark(7, 'i', 'l', 't')
        case IsObject => Mark(8, 'i', 'j', 't')
        case IsArray => Mark(7, 'i', 'r', 'y')
        case IsString => Mark(8, 'i', 'r', 'g')
        case In => Mark(2, 'i', 'n', 'n')
        case Equal => Mark(2, '=', '=', '=')
        case Different => Mark(2, '!', '=', '=')
        case Greater => Mark(1, '>', '>', '>')
        case GreaterEqual => Mark(2, '>', '=', '=')
        case Less => Mark(1, '<', '<', '<')
        case LessEqual => Mark(2, '<', '=', '=')
      }
  }

  lemma {:induction false} MarkIsRight(f: Function)
    ensures NameOf(f) != "" && MarkOf(NameOf(f)) == MarkOfFunction(f)
  {
  }

  lemma {:induction false} MarksDiffer(f: Function, g: Function)
    requires MarkOfFunction(f) == MarkOfFunction(g)
    ensures f == g
  {
  }

  lemma {:induction false} NamesDiffer(f: Function, g: Function)
    requires NameOf(f) == NameOf(g)
    ensures f == g
  {
    MarkIsRight(f);
    MarkIsRight(g);
    MarksDiffer(f, g);
  }

  // ----- the table -----

  /** Written as a call: neither a word operator nor a comparison. */
  predicate IsCalled(f: Function) {
    f == DefaultFn || f == ExistsFn || (f.Pure? && !IsInfix(f.builtin))
  }

  lemma {:induction false} CalledAreRegistered(f: Function)
    requires IsCalled(f)
    ensures (NameOf(f), Arity(f)) in Builtins()
  {
  }

  lemma {:induction false} RegisteredAreCalled(name: string, n: nat)
    requires (name, n) in Builtins()
    ensures IsCalled(Builtins()[(name, n)])
  {
  }

  /** The table has the functions that are written as calls, each under its name and its number of
      arguments, and nothing else. */
  lemma {:induction false} TableExactly(name: string, n: nat, f: Function)
    ensures ((name, n) in Builtins() && Builtins()[(name, n)] == f)
            <==> IsCalled(f) && name == NameOf(f) && n == Arity(f)
  {
    BuiltinsNamed();
    if (name, n) in Builtins() && Builtins()[(name, n)] == f {
      RegisteredAreCalled(name, n);
    }
    if IsCalled(f) && name == NameOf(f) && n == Arity(f) {
      CalledAreRegistered(f);
      NamesDiffer(f, Builtins()[(name, n)]);
    }
  }

  predicate IsEntry(name: string, n: nat, f: Function) {
    (name, n) in Builtins() && Builtins()[(name, n)] == f && NameOf(f) == name && Arity(f) == n
  }

  lemma {:induction false} IsFound(name: string, n: nat, f: Function)
    requires IsCalled(f) && name == NameOf(f) && n == Arity(f)
    ensures IsEntry(name, n, f)
  {
    TableExactly(name, n, f);
  }

  /** The entries, written out. */
  lemma {:induction false} EntriesAtToFloat()
    ensures IsEntry("at", 2, Pure(ElementAt))
    ensures IsEntry("default", 2, DefaultFn)
    ensures IsEntry("divisibleBy", 2, Pure(DivisibleBy))
    ensures IsEntry("even", 1, Pure(Even))
    ensures IsEntry("first", 1, Pure(First))
    ensures IsEntry("float", 1, Pure(ToFloat))
  {
    IsFound("at", 2, Pure(ElementAt));
    IsFound("default", 2, DefaultFn);
    IsFound("divisibleBy", 2, Pure(DivisibleBy));
    IsFound("even", 1, Pure(Even));
    IsFound("first", 1, Pure(First));
    IsFound("float", 1, Pure(ToFloat));
  }

  lemma {:induction false} EntriesIntToMin()
    ensures IsEntry("int", 1, Pure(ToInt))
    ensures IsEntry("last", 1, Pure(Last))
    ensures IsEntry("length", 1, Pure(Length))
    ensures IsEntry("lower", 1, Pure(Lower))
    ensures IsEntry("max", 1, Pure(Max))
    ensures IsEntry("min", 1, Pure(Min))
  {
    IsFound("int", 1, Pure(ToInt));
    IsFound("last", 1, Pure(Last));
    IsFound("length", 1, Pure(Length));
    IsFound("lower", 1, Pure(Lower));
    IsFound("max", 1, Pure(Max));
    IsFound("min", 1, Pure(Min));
  }

  lemma {:induction false} EntriesOddToExists()
    ensures IsEntry("odd", 1, Pure(Odd))
    ensures IsEntry("range", 1, Pure(Range))
    ensures IsEntry("round", 2, Pure(Round))
    ensures IsEntry("sort", 1, Pure(Sort))
    ensures IsEntry("upper", 1, Pure(Upper))
    ensures IsEntry("exists", 1, ExistsFn)
  {
    IsFound("odd", 1, Pure(Odd));
    IsFound("range", 1, Pure(Range));
    IsFound("round", 2, Pure(Round));
    IsFound("sort", 1, Pure(Sort));
    IsFound("upper", 1, Pure(Upper));
    IsFound("exists", 1, ExistsFn);
  }

  lemma {:induction false} EntriesExistsInToIsString()
    ensures IsEntry("existsIn", 2, Pure(ExistsIn))
    ensures IsEntry("isBoolean", 1, Pure(IsBoolean))
    ensures IsEntry("isNumber", 1, Pure(IsNumber))
    ensures IsEntry("isInteger", 1, Pure(IsInteger))
    ensures IsEntry("isFloat", 1, Pure(IsFloat))
    ensures IsEntry("isObject", 1, Pure(IsObject))
    ensures IsEntry("isArray", 1, Pure(IsArray))
    ensures IsEntry("isString", 1, Pure(IsString))
  {
    IsFound("existsIn", 2, Pure(ExistsIn));
    IsFound("isBoolean", 1, Pure(IsBoolean));
    IsFound("isNumber", 1, Pure(IsNumber));
    IsFound("isInteger", 1, Pure(IsInteger));
    IsFound("isFloat", 1, Pure(IsFloat));
    IsFound("isObject", 1, Pure(IsObject));
    IsFound("isArray", 1, Pure(IsArray));
    IsFound("isString", 1, Pure(IsString));
  }

  /** The operators' names, as they are written. */
  lemma {:induction false} OperatorNames()
    ensures NameOf(NotFn) == "not" && NameOf(AndFn) == "and" && NameOf(OrFn) == "or" && NameOf(Pure(In)) == "in"
    ensures NameOf(Pure(Equal)) == "==" && NameOf(Pure(Different)) == "!="
    ensures NameOf(Pure(Greater)) == ">" && NameOf(Pure(GreaterEqual)) == ">="
    ensures NameOf(Pure(Less)) == "<" && NameOf(Pure(LessEqual)) == "<="
  {
  }
}
