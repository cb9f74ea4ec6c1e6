/** The instruction set and one step of the virtual machine.

    An operand keeps all three fields of the source's struct, because backpatching writes the address
    field of operands that are not jump targets.  A thrown exception takes two steps here: one leaves it
    pending in `exc`, the next one runs the code at the label throw_exception. */
module Machine {
  import opened Values
  import opened Store

  datatype OperandType = Unused | FetchVar | FetchConst | FetchTmp | JmpAddr

  datatype Operand = Operand(kind: OperandType, off: Off, addr: nat)

  const NO_OPERAND := Operand(Unused, Off(0, 0), 0)

  function VarOp(x: Off): Operand { Operand(FetchVar, x, 0) }
  function ConstOp(i: nat): Operand { Operand(FetchConst, Off(0, i), 0) }
  function TmpOp(i: nat): Operand { Operand(FetchTmp, Off(0, i), 0) }
  function Addr(a: nat): Operand { Operand(JmpAddr, Off(0, 0), a) }

  datatype Opcode =
    | RET | ASSIGN | BINARY(bin: Bin) | COMPARE(cmp: Cmp) | NOT | BWNOT | JMP | FCALL | LEAVE | SENDVAL
    | JMPZ | JMPNZ | INCDEC(step: Step1) | AND | OR | TRY | CATCH | THROW | ETRY | BSCOPE | ESCOPE | HALT

  datatype IR = IR(op: Opcode, op1: Operand, op2: Operand, result: Operand)

  function Ins0(op: Opcode): IR { IR(op, NO_OPERAND, NO_OPERAND, NO_OPERAND) }
  function Ins1(op: Opcode, a: Operand): IR { IR(op, a, NO_OPERAND, NO_OPERAND) }
  function Ins2(op: Opcode, a: Operand, b: Operand): IR { IR(op, a, b, NO_OPERAND) }

  /** Backpatching: `getAt(i).op1.jmp_addr = a`. */
  function SetAddr(i: IR, a: nat): IR { i.(op1 := i.op1.(addr := a)) }

  /** A compiled function: header, entry address and number of temporaries. */
  datatype FunInfo = FunInfo(header: Header, addr: nat, temps: nat)

  datatype Program = Program(code: seq<IR>, consts: seq<Val>, funs: seq<FunInfo>)

  /** A `Value*` as pushed by OP_SEND_VAL. */
  datatype CellRef = ConstRef(i: nat) | VarRef(at: (nat, nat)) | TmpRef(depth: nat, i: nat)

  datatype Frame = Frame(env: nat, temps: seq<Val>, retAddr: nat, retTmp: nat)

  datatype TryEntry = TryEntry(addr: nat, phase: nat)

  /** Wild: the source reaches a failed assertion, undefined behaviour or an unmodelled type. */
  datatype Status = Running | Halted | Fatal | Uncaught(v: Val) | Wild

  /** The call stack is never empty: `frame` is its top and `callers` the rest, innermost last. */
  datatype State = State(status: Status, pc: nat, heap: Heap, frame: Frame, callers: seq<Frame>, args: seq<CellRef>,
                         tries: seq<TryEntry>, exc: Option<Val>)

  // ----- operands -----

  function ReadOp(p: Program, s: State, o: Operand): Option<Val> {
    match o.kind
    case FetchConst => if o.off.hops == 0 && o.off.idx < |p.consts| then Some(p.consts[o.off.idx]) else None
    case FetchVar => ReadVar(s.heap, s.frame.env, o.off)
    case FetchTmp => if o.off.idx < |s.frame.temps| then Some(s.frame.temps[o.off.idx]) else None
    case _ => None
  }

  function SetTmp(s: State, i: nat, v: Val): State
    requires i < |s.frame.temps|
  {
    s.(frame := s.frame.(temps := s.frame.temps[i := v]))
  }

  function Bad(s: State): State { s.(status := Wild) }

  /** Stores into a result cell: const flags are not looked at. */
  function WriteOp(s: State, o: Operand, v: Val): State {
    match o.kind
    case FetchTmp => if o.off.idx < |s.frame.temps| then SetTmp(s, o.off.idx, v) else Bad(s)
    case FetchVar =>
      (match WriteVar(s.heap, s.frame.env, o.off, v)
       case None => Bad(s)
       case Some(h) => s.(heap := h))
    case _ => Bad(s)
  }

  function Next(s: State): State { s.(pc := s.pc + 1) }

  /** Result of an operator on a result operand. */
  function Apply(s: State, e: Effect, result: Operand): State {
    match e
    case Write(v) => Next(WriteOp(s, result, v))
    case NoWrite => Next(s)
    case Raise(ex) => s.(exc := Some(ex))
    case Fail => s.(status := Fatal)
    case Foreign => Bad(s)
  }

  // ----- opcodes -----

  function StepReturn(p: Program, s: State, i: IR): State {
    if s.frame.env == 0 then s.(status := Halted)
    else if s.callers == [] then Bad(s)
    else if i.op1.kind.Unused? then Pop(s)
    else
      match ReadOp(p, s, i.op1)
      case None => Bad(s)
      case Some(v) =>
        if s.frame.retTmp < |Last(s.callers).temps| then SetTmp(Pop(s), s.frame.retTmp, v) else Bad(s)
  }

  /** OP_LEAVE, and the tail of OP_RET. */
  function Pop(s: State): State
    requires s.callers != []
  {
    s.(frame := Last(s.callers), callers := Init(s.callers), pc := s.frame.retAddr)
  }

  function StepAssign(p: Program, s: State, i: IR): State {
    if !i.op1.kind.FetchVar? then Bad(s)
    else
      match (Assignable(s.heap, s.frame.env, i.op1.off), ReadOp(p, s, i.op2))
      case (Some(true), Some(v)) =>
        var s1 := WriteOp(s, i.op1, v);
        Next(if i.result.kind.Unused? then s1 else WriteOp(s1, i.result, v))
      case (Some(false), Some(_)) => s.(status := Fatal)
      case _ => Bad(s)
  }

  function StepBinary(p: Program, s: State, i: IR, op: Bin): State {
    match (ReadOp(p, s, i.op1), ReadOp(p, s, i.op2))
    case (Some(l), Some(r)) => Apply(s, Arith(op, l, r), i.result)
    case _ => Bad(s)
  }

  function StepCompare(p: Program, s: State, i: IR, op: Cmp): State {
    match (ReadOp(p, s, i.op1), ReadOp(p, s, i.op2))
    case (Some(l), Some(r)) => Apply(s, Compare(op, l, r), i.result)
    case _ => Bad(s)
  }

  function StepUnary(p: Program, s: State, i: IR): State {
    match ReadOp(p, s, i.op1)
    case Some(v) => Apply(s, if i.op.NOT? then Not(v) else BwNot(v), i.result)
    case None => Bad(s)
  }

  /** The four increment opcodes: the pre forms copy the new value to the result, the post forms the old. */
  function StepIncDec(p: Program, s: State, i: IR, op: Step1): State {
    match ReadOp(p, s, i.op1)
    case None => Bad(s)
    case Some(v) =>
      match Stepped(op, v)
      case Write(w) => Next(WriteOp(WriteOp(s, i.op1, w), i.result, if IsPre(op) then w else v))
      case Raise(ex) => WriteOp(s, i.result, v).(exc := Some(ex))
      case Fail => s.(status := Fatal)
      case _ => Bad(s)
  }

  /** OP_JMPZ and OP_JMPNZ: the optional result cell receives the truth value that was tested. */
  function StepBranch(p: Program, s: State, i: IR, jumpOn: bool): State {
    match ReadOp(p, s, i.op1)
    case None => Bad(s)
    case Some(v) =>
      var s1 := if i.result.kind.Unused? then s else WriteOp(s, i.result, Bool(Truthy(v)));
      if Truthy(v) == jumpOn then s1.(pc := i.op2.addr) else Next(s1)
  }

  /** OP_AND: the result is null and control jumps when the operand is falsy, else a copy of it. */
  function StepAnd(p: Program, s: State, i: IR): State {
    match ReadOp(p, s, i.op1)
    case None => Bad(s)
    case Some(v) =>
      if Truthy(v) then Next(WriteOp(s, i.result, v)) else WriteOp(s, i.result, Null).(pc := i.op2.addr)
  }

  /** OP_OR: a truthy operand is copied and control jumps; a falsy one leaves the result alone. */
  function StepOr(p: Program, s: State, i: IR): State {
    match ReadOp(p, s, i.op1)
    case None => Bad(s)
    case Some(v) =>
      if Truthy(v) then WriteOp(s, i.result, v).(pc := i.op2.addr) else Next(s)
  }

  function StepSend(p: Program, s: State, i: IR): State {
    match RefOf(p, s, i.op1)
    case None => Bad(s)
    case Some(c) => Next(s.(args := s.args + [c]))
  }

  function RefOf(p: Program, s: State, o: Operand): Option<CellRef> {
    match o.kind
    case FetchConst => if o.off.hops == 0 && o.off.idx < |p.consts| then Some(ConstRef(o.off.idx)) else None
    case FetchVar =>
      (match Locate(s.heap, s.frame.env, o.off)
       case None => None
       case Some(at) => Some(VarRef(at)))
    case FetchTmp =>
      if o.off.idx < |s.frame.temps| then Some(TmpRef(|s.callers|, o.off.idx)) else None
    case _ => None
  }

  function Load(p: Program, s: State, c: CellRef): Option<Val> {
    match c
    case ConstRef(i) => if i < |p.consts| then Some(p.consts[i]) else None
    case VarRef(at) => if at.0 < |s.heap| && at.1 < |s.heap[at.0].cells| then Some(CellAt(s.heap, at).v) else None
    case TmpRef(d, i) =>
      if d > |s.callers| then None
      else
        var f := if d == |s.callers| then s.frame else s.callers[d];
        if i < |f.temps| then Some(f.temps[i]) else None
  }

  function LoadAll(p: Program, s: State, cs: seq<CellRef>): Option<seq<Val>> {
    if cs == [] then Some([])
    else
      match (Load(p, s, cs[0]), LoadAll(p, s, cs[1..]))
      case (Some(v), Some(vs)) => Some([v] + vs)
      case _ => None
  }

  /** OP_FCALL on a user function: `prepareCall`, then a jump to its address. */
  function StepCall(p: Program, s: State, i: IR): State {
    match (ReadOp(p, s, i.op1), LoadAll(p, s, s.args))
    case (Some(fval), Some(args)) =>
      if !fval.Func? then s.(status := Fatal)
      else if fval.id >= |p.funs| || !i.result.kind.FetchTmp? then Bad(s)
      else
        var f := p.funs[fval.id];
        if !ArityOk(f.header, |args|) then s.(status := Fatal)
        else
          (match Activate(s.heap, f.header, args)
           case None => Bad(s)
           case Some(h) =>
             var callee := Frame(|s.heap|, seq(f.temps, _ => Null), s.pc + 1, i.result.off.idx);
             s.(heap := h, frame := callee, callers := s.callers + [s.frame], args := [], pc := f.addr))
    case _ => Bad(s)
  }

  function StepThrow(p: Program, s: State, i: IR): State {
    match ReadOp(p, s, i.op1)
    case None => Bad(s)
    case Some(v) => s.(exc := Some(v))
  }

  function StepCatch(s: State): State {
    if s.tries == [] then Bad(s)
    else Next(s.(tries := Init(s.tries) + [Last(s.tries).(phase := 2)]))
  }

  /** The label throw_exception, with the exception `v` pending. */
  function Dispatch(p: Program, s: State, v: Val): State {
    if s.tries == [] then s.(status := Uncaught(v))
    else
      var left := if Last(s.tries).phase > 1 then Init(s.tries) else s.tries;
      if left == [] then s.(status := Uncaught(v), tries := [])
      else
        var addr := Last(left).addr;
        if addr < |p.code| then WriteOp(s.(tries := left, exc := None, pc := addr), p.code[addr].op1, v)
        else Bad(s)
  }

  function Execute(p: Program, s: State, i: IR): State {
    match i.op
    case RET => StepReturn(p, s, i)
    case ASSIGN => StepAssign(p, s, i)
    case BINARY(op) => StepBinary(p, s, i, op)
    case COMPARE(op) => StepCompare(p, s, i, op)
    case NOT => StepUnary(p, s, i)
    case BWNOT => StepUnary(p, s, i)
    case JMP => s.(pc := i.op1.addr)
    case FCALL => StepCall(p, s, i)
    case LEAVE => if s.callers == [] then Bad(s) else Pop(s)
    case SENDVAL => StepSend(p, s, i)
    case JMPZ => StepBranch(p, s, i, false)
    case JMPNZ => StepBranch(p, s, i, true)
    case INCDEC(op) => StepIncDec(p, s, i, op)
    case AND => StepAnd(p, s, i)
    case OR => StepOr(p, s, i)
    case TRY => Next(s.(tries := s.tries + [TryEntry(i.op1.addr, 1)]))
    case CATCH => StepCatch(s)
    case THROW => StepThrow(p, s, i)
    case ETRY => if s.tries == [] then Bad(s) else Next(s.(tries := Init(s.tries)))
    case BSCOPE => Next(s)
    case ESCOPE => Next(s)
    case HALT => s.(status := Halted)
  }

  function Step(p: Program, s: State): State {
    if !s.status.Running? then s
    else if s.exc.Some? then Dispatch(p, s, s.exc.value)
    else if s.pc >= |p.code| then Bad(s)
    else Execute(p, s, p.code[s.pc])
  }

  function Steps(p: Program, s: State, n: nat): State
    decreases n
  {
    if n == 0 then s else Steps(p, Step(p, s), n - 1)
  }

  // ----- runs -----

  lemma {:induction false} StepsAdd(p: Program, s: State, m: nat, n: nat)
    ensures Steps(p, s, m + n) == Steps(p, Steps(p, s, m), n)
    decreases m
  {
    if m > 0 {
      StepsAdd(p, Step(p, s), m - 1, n);
    }
  }

  lemma {:induction false} StoppedStays(p: Program, s: State, n: nat)
    requires !s.status.Running?
    ensures Steps(p, s, n) == s
    decreases n
  {
    if n > 0 {
      StoppedStays(p, s, n - 1);
    }
  }

  /** Two instructions that differ at most in the address field of an operand the opcode never jumps
      through: what patching the loop-start sentinel leaves behind. */
  predicate Same(a: IR, b: IR) {
    || a == b
    || (!b.op1.kind.JmpAddr? && !b.op.JMP? && !b.op.TRY? && a == SetAddr(b, a.op1.addr))
  }

  /** Patching such an operand never changes what the instruction does. */
  lemma InertPatch(p: Program, s: State, a: IR, b: IR)
    requires Same(a, b)
    ensures Execute(p, s, a) == Execute(p, s, b)
    ensures forall v :: WriteOp(s, a.op1, v) == WriteOp(s, b.op1, v)
  {
    assert ReadOp(p, s, a.op1) == ReadOp(p, s, b.op1);
    assert RefOf(p, s, a.op1) == RefOf(p, s, b.op1);
  }
}
