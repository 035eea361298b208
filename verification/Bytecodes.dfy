/** The instruction set shared by the parser, which emits it, and the renderer, which runs it. */
module Bytecodes {
  import opened Json

  /** Built-in functions whose result depends on their arguments alone. */
  datatype Builtin =
    | In | Equal | Different | Greater | GreaterEqual | Less | LessEqual
    | ElementAt | DivisibleBy | Even | First | ToFloat | ToInt | Last | Length | Lower | Max | Min | Odd
    | Range | Round | Sort | Upper | ExistsIn | IsBoolean | IsNumber | IsInteger | IsFloat
    | IsObject | IsArray | IsString

  /** Everything append_function emits for an operator or a built-in name. */
  datatype Function = NotFn | AndFn | OrFn | ExistsFn | DefaultFn | Pure(builtin: Builtin)

  datatype Op =
    | PrintText
    | PrintValue
    | Push
    | Fn(f: Function)
    | Callback
    | Jump
    | ConditionalJump
    | StartLoop
    | EndLoop

  /** Where a value-taking instruction finds its last argument. */
  datatype Flag = Pop | Immediate | LookupDot | LookupPointer

  /** ElementNotation: the flag a parser gives every lookup. */
  type Notation = f: Flag | f == LookupDot || f == LookupPointer witness LookupDot

  datatype Bytecode = Bytecode(op: Op, args: nat, flags: Flag, value: Value, str: string)

  /** `args` is a 30-bit field. */
  const ARGS_LIMIT: nat := 0x4000_0000

  function Arg30(n: nat): nat {
    n % ARGS_LIMIT
  }

  /** Thirty bits hold the numbers below 1073741824, and lose the rest of any other. */
  lemma {:induction false} ThirtyBits(n: nat)
    ensures ARGS_LIMIT == 1073741824 && Arg30(n) < 1073741824
    ensures Arg30(n) == n <==> n < 1073741824
  {
  }

  function Instr(op: Op, args: nat): Bytecode {
    Bytecode(op, Arg30(args), Pop, Null, "")
  }

  function PushLiteral(v: Value): Bytecode {
    Bytecode(Push, 0, Immediate, v, "")
  }

  /** A lookup keeps its name as written; the notation says how the renderer reads it. */
  function PushLookup(notation: Notation, name: string): Bytecode {
    Bytecode(Push, 0, notation, Null, name)
  }

  function TextInstr(s: string): Bytecode {
    Bytecode(PrintText, 0, Pop, Null, s)
  }

  /** The variables a for-loop binds: an item, or a key and a value. */
  datatype LoopVars = ItemVar(value: string) | PairVars(key: string, value: string)

  function StartInstr(vars: LoopVars): Bytecode {
    match vars
    case ItemVar(value) => Bytecode(StartLoop, 0, Pop, Null, value)
    case PairVars(key, value) => Bytecode(StartLoop, 0, Pop, Str(key), value)
  }

  /** The renderer tells the two kinds of loop apart by the type of the immediate. */
  function LoopVarsOf(bc: Bytecode): LoopVars {
    if bc.value.Str? then PairVars(bc.value.s, bc.str) else ItemVar(bc.str)
  }

  function Arity(f: Function): (n: nat)
    ensures 1 <= n <= 2
  {
    match f
    case NotFn => 1
    case AndFn => 2
    case OrFn => 2
    case ExistsFn => 1
    case DefaultFn => 2
    case Pure(b) =>
      if b in {In, Equal, Different, Greater, GreaterEqual, Less, LessEqual, ElementAt, DivisibleBy, Round, ExistsIn}
      then 2 else 1
  }

  /** The fixed table of built-in names. */
  function NameOf(f: Function): string {
    match f
    case NotFn => "not"
    case AndFn => "and"
    case OrFn => "or"
    case ExistsFn => "exists"
    case DefaultFn => "default"
    case Pure(b) =>
      match b {
        case In => "in" case Equal => "==" case Different => "!=" case Greater => ">"
        case GreaterEqual => ">=" case Less => "<" case LessEqual => "<="
        case ElementAt => "at" case DivisibleBy => "divisibleBy" case Even => "even" case First => "first"
        case ToFloat => "float" case ToInt => "int" case Last => "last" case Length => "length"
        case Lower => "lower" case Max => "max" case Min => "min" case Odd => "odd"
        case Range => "range" case Round => "round" case Sort => "sort" case Upper => "upper"
        case ExistsIn => "existsIn" case IsBoolean => "isBoolean" case IsNumber => "isNumber"
        case IsInteger => "isInteger" case IsFloat => "isFloat" case IsObject => "isObject"
        case IsArray => "isArray" case IsString => "isString"
      }
  }
}
