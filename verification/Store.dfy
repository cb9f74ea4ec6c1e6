/** Environments: the activation records that hold variables.

    The store is a heap of environments addressed by number.  An environment has an optional outer
    environment and a vector of cells; a variable is addressed by the pair the resolver computed: how
    many outer links to follow, and an index.  Environments are never moved and are only added. */
module Store {
  import opened Values

  datatype Off = Off(hops: nat, idx: nat)

  datatype Cell = Cell(v: Val, isConst: bool)

  datatype Env = Env(outer: Option<nat>, cells: seq<Cell>)

  type Heap = seq<Env>

  /** Follows `hops` outer links. */
  function Walk(h: Heap, env: nat, hops: nat): Option<nat>
    decreases hops
  {
    if env >= |h| then None
    else if hops == 0 then Some(env)
    else if h[env].outer.None? then None
    else Walk(h, h[env].outer.value, hops - 1)
  }

  /** The cell an offset denotes, seen from an environment; None where the source would assert. */
  function Locate(h: Heap, env: nat, x: Off): (r: Option<(nat, nat)>)
    ensures r.Some? ==> r.value.0 < |h| && r.value.1 < |h[r.value.0].cells|
  {
    match Walk(h, env, x.hops)
    case None => None
    case Some(e) => if e < |h| && x.idx < |h[e].cells| then Some((e, x.idx)) else None
  }

  function CellAt(h: Heap, at: (nat, nat)): Cell
    requires at.0 < |h| && at.1 < |h[at.0].cells|
  {
    h[at.0].cells[at.1]
  }

  function ReadVar(h: Heap, env: nat, x: Off): Option<Val> {
    match Locate(h, env, x)
    case None => None
    case Some(at) => Some(CellAt(h, at).v)
  }

  function SetCell(h: Heap, at: (nat, nat), v: Val): (h': Heap)
    requires at.0 < |h| && at.1 < |h[at.0].cells|
    ensures |h'| == |h|
  {
    h[at.0 := h[at.0].(cells := h[at.0].cells[at.1 := h[at.0].cells[at.1].(v := v)])]
  }

  /** Overwrites a variable without looking at its const flag. */
  function WriteVar(h: Heap, env: nat, x: Off, v: Val): Option<Heap> {
    match Locate(h, env, x)
    case None => None
    case Some(at) => Some(SetCell(h, at, v))
  }

  /** `Value::isAssignable`: a const cell accepts its first non-null value only. */
  function Assignable(h: Heap, env: nat, x: Off): Option<bool> {
    match Locate(h, env, x)
    case None => None
    case Some(at) => Some(CellAt(h, at).v.Null? || !CellAt(h, at).isConst)
  }

  /** The run-time header of a user function: its blueprint environment and its arity. */
  datatype Header = Header(env: nat, required: nat, params: nat, variadic: bool)

  /** `VM::paramBinding` on the cells of a fresh activation. */
  function BindCells(cells: seq<Cell>, f: Header, args: seq<Val>): Option<seq<Cell>> {
    var n := if |args| < f.params then |args| else f.params;
    if |cells| < f.params + (if f.variadic then 1 else 0) then None
    else
      var bound := seq(|cells|, i requires 0 <= i < |cells| => if i < n then cells[i].(v := args[i]) else cells[i]);
      Some(if f.variadic then bound[f.params := bound[f.params].(v := Arr(args[n..]))] else bound)
  }

  predicate ArityOk(f: Header, count: nat) {
    f.required <= count && (count <= f.params || f.variadic)
  }

  /** `Environment::activate` followed by parameter binding: the clone of the blueprint is a new
      environment at the end of the heap, with the blueprint's own outer link. */
  function Activate(h: Heap, f: Header, args: seq<Val>): Option<Heap> {
    if f.env >= |h| then None
    else
      match BindCells(h[f.env].cells, f, args)
      case None => None
      case Some(cells) => Some(h + [Env(h[f.env].outer, cells)])
  }
}
