/** Values of the language and the type operators the machine dispatches to.

    Only Int, Bool, Function, Array and null cells are modelled, and strings only as the texts of the
    exceptions raised by operators.  An operator either writes its result cell, leaves it alone (the
    operand mixes for which the type's method has no branch), raises an exception, stops the program
    with a fatal error, or leaves the modelled fragment. */
module Values {

  datatype Option<+T> = None | Some(value: T)

  function Last<T>(s: seq<T>): T
    requires s != []
  {
    s[|s| - 1]
  }

  function Init<T>(s: seq<T>): seq<T>
    requires s != []
  {
    s[..|s| - 1]
  }

  datatype Val =
    | Null
    | Bool(b: bool)
    | Int(n: int)
    | Func(id: nat)
    | Arr(elems: seq<Val>)
    | Str(text: string)

  /** `Value::asBool`: null and false are falsy, everything else (0 included) is truthy. */
  predicate Truthy(v: Val) {
    if v.Bool? then v.b else !v.Null?
  }

  datatype Effect =
    | Write(v: Val)
    | NoWrite
    | Raise(ex: Val)
    | Fail
    | Foreign

  datatype Bin = Add | Sub | Mul | Div | Mod | BwAnd | BwOr | BwXor | Shl | Shr

  datatype Cmp = Eq | Ne | Gt | Ge | Lt | Le

  datatype Step1 = PreInc | PreDec | PosInc | PosDec

  /** C's division: rounds toward zero. */
  function TruncDiv(a: int, b: int): int
    requires b != 0
  {
    if a >= 0 then a / b else -((-a) / b)
  }

  function TruncMod(a: int, b: int): int
    requires b != 0
  {
    a - TruncDiv(a, b) * b
  }

  /** A bitwise connective on two's complement numbers of unbounded width, bit by bit. */
  function Bitwise(f: (bool, bool) -> bool, a: int, b: int): int
    decreases (if a < 0 then -a else a) + (if b < 0 then -b else b)
  {
    var low := if f(a % 2 == 1, b % 2 == 1) then 1 else 0;
    if (a == 0 || a == -1) && (b == 0 || b == -1) then -low
    else low + 2 * Bitwise(f, a / 2, b / 2)
  }

  function Pow2(n: nat): nat
    ensures Pow2(n) > 0
  {
    if n == 0 then 1 else 2 * Pow2(n - 1)
  }

  function IntOp(op: Bin, a: int, b: int): Effect {
    match op
    case Add => Write(Int(a + b))
    case Sub => Write(Int(a - b))
    case Mul => Write(Int(a * b))
    case Div => if b == 0 then Foreign else Write(Int(TruncDiv(a, b)))
    case Mod => if b == 0 then Foreign else Write(Int(TruncMod(a, b)))
    case BwAnd => Write(Int(Bitwise((x, y) => x && y, a, b)))
    case BwOr => Write(Int(Bitwise((x, y) => x || y, a, b)))
    case BwXor => Write(Int(Bitwise((x, y) => x != y, a, b)))
    case Shl => if 0 <= b < 64 then Write(Int(a * Pow2(b))) else Foreign
    case Shr => if 0 <= b < 64 then Write(Int(a / Pow2(b))) else Foreign
  }

  function Symbol(op: Bin): string {
    match op
    case Add => "+" case Sub => "-" case Mul => "*" case Div => "/" case Mod => "%"
    case BwAnd => "&" case BwOr => "|" case BwXor => "^" case Shl => "<<" case Shr => ">>"
  }

  function CmpSymbol(op: Cmp): string {
    match op
    case Eq => "==" case Ne => "!=" case Gt => ">" case Ge => ">=" case Lt => "<" case Le => "<="
  }

  /** The formatter takes the `%` of the remainder for a directive and drops it with the blank after it. */
  function Unsupported(symbol: string, ty: string): Effect {
    Raise(Str("Cannot use " + (if symbol == "%" then "" else symbol + " ") + "operator with " + ty + " type"))
  }

  /** `VM::binOp` on a binary opcode: a null operand is fatal, otherwise the left type decides. */
  function Arith(op: Bin, l: Val, r: Val): Effect {
    if l.Null? || r.Null? then Fail
    else
      match l
      case Int(a) =>
        (match r
         case Int(b) => IntOp(op, a, b)
         case Str(_) => if op.Add? then Foreign else NoWrite
         case _ => NoWrite)
      case Bool(_) => Unsupported(Symbol(op), "Bool")
      case Func(_) => Unsupported(Symbol(op), "Function")
      case _ => Foreign
  }

  function IntCmp(op: Cmp, a: int, b: int): bool {
    match op
    case Eq => a == b
    case Ne => a != b
    case Gt => a > b
    case Ge => a >= b
    case Lt => a < b
    case Le => a <= b
  }

  /** `VM::logicOp`: comparisons with null never fail, otherwise the left type decides. */
  function Compare(op: Cmp, l: Val, r: Val): Effect {
    if l.Null? || r.Null? then
      Write(Bool(match op
                 case Eq => l.Null? == r.Null?
                 case Ne => l.Null? != r.Null?
                 case _ => false))
    else
      match l
      case Int(a) => if r.Int? then Write(Bool(IntCmp(op, a, r.n))) else NoWrite
      case Bool(a) =>
        if !op.Eq? && !op.Ne? then Unsupported(CmpSymbol(op), "Bool")
        else if r.Bool? then Write(Bool((a == r.b) == op.Eq?))
        else NoWrite
      case Func(_) =>
        if !op.Eq? && !op.Ne? then Unsupported(CmpSymbol(op), "Function")
        else Write(Bool((l == r) == op.Eq?))
      case _ => Foreign
  }

  function Not(v: Val): Effect {
    match v
    case Null => Fail
    case Bool(b) => Write(Bool(!b))
    case Int(_) => Write(Bool(!Truthy(v)))
    case Func(_) => Unsupported("!", "Function")
    case _ => Foreign
  }

  function BwNot(v: Val): Effect {
    match v
    case Null => Fail
    case Int(n) => Write(Int(-n - 1))
    case Bool(_) => Unsupported("~", "Bool")
    case Func(_) => Unsupported("~", "Function")
    case _ => Foreign
  }

  predicate IsInc(op: Step1) { op.PreInc? || op.PosInc? }

  predicate IsPre(op: Step1) { op.PreInc? || op.PreDec? }

  /** What `++` or `--` does to its variable. */
  function Stepped(op: Step1, v: Val): Effect {
    match v
    case Null => Fail
    case Int(n) => Write(Int(if IsInc(op) then n + 1 else n - 1))
    case Bool(_) => Unsupported(if IsInc(op) then "++" else "--", "Bool")
    case Func(_) => Unsupported(if IsInc(op) then "++" else "--", "Function")
    case _ => Foreign
  }
}
