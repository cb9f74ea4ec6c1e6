/** The virtual machine's run loop: opcodes that update the machine in place, proved equal to the steps the
    compiler is verified against. */
module Vm {
  import opened Values
  import opened Store
  import opened Ast
  import opened Machine
  import opened Semantics
  import opened Decisions
  import opened Correctness
  import opened Compiler

  class VirtualMachine {
    const prog: Program
    var status: Status
    var pc: nat
    var envs: Heap
    var callStack: seq<Frame>
    var callArgs: seq<CellRef>
    var tryStack: seq<TryEntry>
    var exception: Option<Val>

    ghost predicate Valid()
      reads this
    {
      callStack != []
    }

    ghost function Now(): State
      requires Valid()
      reads this
    {
      State(status, pc, envs, Last(callStack), Init(callStack), callArgs, tryStack, exception)
    }

    constructor (prog: Program, envs: Heap, temps: nat)
      ensures Valid() && this.prog == prog && Now() == Boot(envs, seq(temps, _ => Null))
    {
      this.prog := prog;
      this.envs := envs;
      status, pc, callArgs, tryStack, exception := Running, 0, [], [], None;
      callStack := [Frame(0, seq(temps, _ => Null), 0, 0)];
    }

    // ----- operands -----

    /** `Environment::getValue`: follows outer links, counting down. */
    method Find(x: Off) returns (at: Option<(nat, nat)>)
      requires Valid()
      ensures at == Locate(envs, Last(callStack).env, x)
    {
      var env: nat, depth: nat := Last(callStack).env, x.hops;
      while depth > 0 && env < |envs| && envs[env].outer.Some?
        invariant depth <= x.hops
        invariant Walk(envs, env, depth) == Walk(envs, Last(callStack).env, x.hops)
      {
        env := envs[env].outer.value;
        depth := depth - 1;
      }
      if depth == 0 && env < |envs| && x.idx < |envs[env].cells| {
        at := Some((env, x.idx));
      } else {
        at := None;
      }
    }

    method GetValue(o: Operand) returns (v: Option<Val>)
      requires Valid()
      ensures v == ReadOp(prog, Now(), o)
    {
      v := None;
      match o.kind
      case FetchConst =>
        if o.off.hops == 0 && o.off.idx < |prog.consts| {
          v := Some(prog.consts[o.off.idx]);
        }
      case FetchVar =>
        var at := Find(o.off);
        if at.Some? {
          v := Some(CellAt(envs, at.value).v);
        }
      case FetchTmp =>
        if o.off.idx < |Last(callStack).temps| {
          v := Some(Last(callStack).temps[o.off.idx]);
        }
      case _ =>
    }

    method SetTemp(i: nat, v: Val)
      requires Valid() && i < |Last(callStack).temps|
      modifies this
      ensures Valid() && Now() == SetTmp(old(Now()), i, v)
    {
      var top := Last(callStack);
      callStack := Init(callStack) + [top.(temps := top.temps[i := v])];
    }

    method SetValue(o: Operand, v: Val)
      requires Valid()
      modifies this
      ensures Valid() && Now() == WriteOp(old(Now()), o, v)
    {
      match o.kind
      case FetchTmp =>
        if o.off.idx < |Last(callStack).temps| {
          SetTemp(o.off.idx, v);
        } else {
          status := Wild;
        }
      case FetchVar =>
        var at := Find(o.off);
        if at.Some? {
          envs := SetCell(envs, at.value, v);
        } else {
          status := Wild;
        }
      case _ => status := Wild;
    }

    /** The effect of a type's operator. */
    method Perform(e: Effect, result: Operand)
      requires Valid()
      modifies this
      ensures Valid() && Now() == Apply(old(Now()), e, result)
    {
      match e
      case Write(v) =>
        SetValue(result, v);
        pc := pc + 1;
      case NoWrite => pc := pc + 1;
      case Raise(ex) => exception := Some(ex);
      case Fail => status := Fatal;
      case Foreign => status := Wild;
    }

    // ----- opcodes -----

    method PopFrame()
      requires Valid() && |callStack| > 1
      modifies this
      ensures Valid() && Now() == Pop(old(Now()))
    {
      pc := Last(callStack).retAddr;
      callStack := Init(callStack);
    }

    method OpReturn(i: IR)
      requires Valid()
      modifies this
      ensures Valid() && Now() == StepReturn(prog, old(Now()), i)
    {
      if Last(callStack).env == 0 {
        status := Halted;
      } else if |callStack| == 1 {
        status := Wild;
      } else if i.op1.kind.Unused? {
        PopFrame();
      } else {
        var v := GetValue(i.op1);
        var result := Last(callStack).retTmp;
        if v.None? || result >= |Last(Init(callStack)).temps| {
          status := Wild;
        } else {
          PopFrame();
          SetTemp(result, v.value);
        }
      }
    }

    method OpAssign(i: IR)
      requires Valid()
      modifies this
      ensures Valid() && Now() == StepAssign(prog, old(Now()), i)
    {
      if !i.op1.kind.FetchVar? {
        status := Wild;
        return;
      }
      var at := Find(i.op1.off);
      var v := GetValue(i.op2);
      if at.None? || v.None? {
        status := Wild;
      } else if !CellAt(envs, at.value).v.Null? && CellAt(envs, at.value).isConst {
        status := Fatal;
      } else {
        SetValue(i.op1, v.value);
        if !i.result.kind.Unused? {
          SetValue(i.result, v.value);
        }
        pc := pc + 1;
      }
    }

    /** `binOp` and `logicOp`. */
    method OpOperator(i: IR)
      requires Valid() && (i.op.BINARY? || i.op.COMPARE? || i.op.NOT? || i.op.BWNOT?)
      modifies this
      ensures Valid() && Now() == Execute(prog, old(Now()), i)
    {
      var l := GetValue(i.op1);
      if l.None? {
        status := Wild;
      } else if i.op.NOT? || i.op.BWNOT? {
        Perform(if i.op.NOT? then Not(l.value) else BwNot(l.value), i.result);
      } else {
        var r := GetValue(i.op2);
        if r.None? {
          status := Wild;
        } else {
          Perform(if i.op.BINARY? then Arith(i.op.bin, l.value, r.value)
                  else Compare(i.op.cmp, l.value, r.value), i.result);
        }
      }
    }

    method OpIncDec(i: IR, op: Step1)
      requires Valid()
      modifies this
      ensures Valid() && Now() == StepIncDec(prog, old(Now()), i, op)
    {
      var v := GetValue(i.op1);
      if v.None? {
        status := Wild;
        return;
      }
      match Stepped(op, v.value)
      case Write(w) =>
        SetValue(i.op1, w);
        SetValue(i.result, if IsPre(op) then w else v.value);
        pc := pc + 1;
      case Raise(ex) =>
        SetValue(i.result, v.value);
        exception := Some(ex);
      case Fail => status := Fatal;
      case _ => status := Wild;
    }

    method OpBranch(i: IR, jumpOn: bool)
      requires Valid()
      modifies this
      ensures Valid() && Now() == StepBranch(prog, old(Now()), i, jumpOn)
    {
      var v := GetValue(i.op1);
      if v.None? {
        status := Wild;
        return;
      }
      if !i.result.kind.Unused? {
        SetValue(i.result, Bool(Truthy(v.value)));
      }
      pc := if Truthy(v.value) == jumpOn then i.op2.addr else pc + 1;
    }

    method OpAnd(i: IR)
      requires Valid()
      modifies this
      ensures Valid() && Now() == StepAnd(prog, old(Now()), i)
    {
      var v := GetValue(i.op1);
      if v.None? {
        status := Wild;
      } else if Truthy(v.value) {
        SetValue(i.result, v.value);
        pc := pc + 1;
      } else {
        SetValue(i.result, Null);
        pc := i.op2.addr;
      }
    }

    method OpOr(i: IR)
      requires Valid()
      modifies this
      ensures Valid() && Now() == StepOr(prog, old(Now()), i)
    {
      var v := GetValue(i.op1);
      if v.None? {
        status := Wild;
      } else if Truthy(v.value) {
        SetValue(i.result, v.value);
        pc := i.op2.addr;
      } else {
        pc := pc + 1;
      }
    }

    // ----- calls -----

    /** A pointer to the argument's cell, not its value, goes to the argument vector. */
    method OpSend(i: IR)
      requires Valid()
      modifies this
      ensures Valid() && Now() == StepSend(prog, old(Now()), i)
    {
      var o := i.op1;
      match o.kind
      case FetchConst =>
        if o.off.hops == 0 && o.off.idx < |prog.consts| {
          callArgs, pc := callArgs + [ConstRef(o.off.idx)], pc + 1;
        } else {
          status := Wild;
        }
      case FetchVar =>
        var at := Find(o.off);
        if at.Some? {
          callArgs, pc := callArgs + [VarRef(at.value)], pc + 1;
        } else {
          status := Wild;
        }
      case FetchTmp =>
        if o.off.idx < |Last(callStack).temps| {
          callArgs, pc := callArgs + [TmpRef(|callStack| - 1, o.off.idx)], pc + 1;
        } else {
          status := Wild;
        }
      case _ => status := Wild;
    }

    /** The values the argument vector points at. */
    method Arguments() returns (vs: Option<seq<Val>>)
      requires Valid()
      ensures vs == LoadAll(prog, Now(), callArgs)
    {
      var i := |callArgs|;
      vs := Some([]);
      while i > 0
        invariant 0 <= i <= |callArgs|
        invariant vs == LoadAll(prog, Now(), callArgs[i..])
      {
        i := i - 1;
        var c := callArgs[i];
        var v: Option<Val>;
        match c {
          case ConstRef(k) => v := if k < |prog.consts| then Some(prog.consts[k]) else None;
          case VarRef(at) => v := if at.0 < |envs| && at.1 < |envs[at.0].cells| then Some(CellAt(envs, at).v) else None;
          case TmpRef(d, k) =>
            v := if d < |callStack| && k < |callStack[d].temps| then Some(callStack[d].temps[k]) else None;
        }
        assert v == Load(prog, Now(), c);
        assert callArgs[i..] == [c] + callArgs[i + 1..];
        vs := if v.Some? && vs.Some? then Some([v.value] + vs.value) else None;
      }
      assert callArgs[0..] == callArgs;
    }

    /** `paramBinding`: arguments go to the first cells in order, the surplus to the variadic array. */
    method BindParameters(f: Header, blueprint: seq<Cell>, args: seq<Val>) returns (bound: Option<seq<Cell>>)
      ensures bound == BindCells(blueprint, f, args)
    {
      if |blueprint| < f.params + (if f.variadic then 1 else 0) {
        return None;
      }
      var n := if |args| < f.params then |args| else f.params;
      var cells := blueprint;
      for i := 0 to n
        invariant |cells| == |blueprint|
        invariant forall k :: 0 <= k < |cells| ==>
                    cells[k] == if k < i then blueprint[k].(v := args[k]) else blueprint[k]
      {
        cells := cells[i := cells[i].(v := args[i])];
      }
      assert cells == seq(|blueprint|, i requires 0 <= i < |blueprint| => if i < n then blueprint[i].(v := args[i])
                          else blueprint[i]);
      if f.variadic {
        cells := cells[f.params := cells[f.params].(v := Arr(args[n..]))];
      }
      bound := Some(cells);
    }

    method OpCall(i: IR)
      requires Valid()
      modifies this
      ensures Valid() && Now() == StepCall(prog, old(Now()), i)
      ensures var s := old(Now());
              var callee, sent := ReadOp(prog, s, i.op1), LoadAll(prog, s, s.args);
              s.status.Running? && callee.Some? && callee.value.Func? && callee.value.id < |prog.funs| && sent.Some? ==>
                var f, count := prog.funs[callee.value.id].header, |sent.value|;
                i.result.kind.FetchTmp? && Activate(s.heap, f, sent.value).Some? ==>
                  (status == Fatal <==> (count < f.required || (count > f.params && !f.variadic)))
    {
      ghost var s := Now();
      var fval := GetValue(i.op1);
      var args := Arguments();
      if fval.Some? && fval.value.Func? && fval.value.id < |prog.funs| && args.Some? && i.result.kind.FetchTmp? {
        ArityChecked(prog, s, i, fval.value.id, args.value);
      }
      if fval.None? || args.None? {
        status := Wild;
      } else if !fval.value.Func? {
        status := Fatal;
      } else if fval.value.id >= |prog.funs| || !i.result.kind.FetchTmp? {
        status := Wild;
      } else {
        var f := prog.funs[fval.value.id];
        var count := |args.value|;
        if count < f.header.required || (count > f.header.params && !f.header.variadic) {
          status := Fatal;
        } else if f.header.env >= |envs| {
          status := Wild;
        } else {
          var cells := BindParameters(f.header, envs[f.header.env].cells, args.value);
          if cells.None? {
            status := Wild;
          } else {
            callStack := callStack + [Frame(|envs|, seq(f.temps, _ => Null), pc + 1, i.result.off.idx)];
            envs := envs + [Env(envs[f.header.env].outer, cells.value)];
            callArgs := [];
            pc := f.addr;
          }
        }
      }
    }

    static lemma ArityChecked(p: Program, s: State, i: IR, f: nat, args: seq<Val>)
      requires ReadOp(p, s, i.op1) == Some(Func(f)) && f < |p.funs| && i.result.kind.FetchTmp?
      requires LoadAll(p, s, s.args) == Some(args)
      ensures s.status.Running? && Activate(s.heap, p.funs[f].header, args).Some? ==>
                (StepCall(p, s, i).status == Fatal <==> WrongNumber(p.funs[f].header, |args|))
    {
      if s.status.Running? && Activate(s.heap, p.funs[f].header, args).Some? {
        CallStops(p, s, i, f, args);
      }
    }

    // ----- exceptions -----

    /** The label throw_exception. */
    method ThrowException()
      requires Valid() && exception.Some?
      modifies this
      ensures Valid() && Now() == Dispatch(prog, old(Now()), old(exception.value))
    {
      var v := exception.value;
      var left := if tryStack != [] && Last(tryStack).phase > 1 then Init(tryStack) else tryStack;
      if left == [] {
        tryStack, status := left, Uncaught(v);
      } else {
        var addr := Last(left).addr;
        if addr < |prog.code| {
          tryStack, exception, pc := left, None, addr;
          SetValue(prog.code[addr].op1, v);
        } else {
          status := Wild;
        }
      }
    }

    method OpTryCatch(i: IR)
      requires Valid() && (i.op.TRY? || i.op.CATCH? || i.op.THROW? || i.op.ETRY?)
      modifies this
      ensures Valid() && Now() == Execute(prog, old(Now()), i)
    {
      if i.op.THROW? {
        var v := GetValue(i.op1);
        if v.Some? {
          exception := v;
        } else {
          status := Wild;
        }
      } else if i.op.TRY? {
        tryStack, pc := tryStack + [TryEntry(i.op1.addr, 1)], pc + 1;
      } else if tryStack == [] {
        status := Wild;
      } else if i.op.CATCH? {
        tryStack, pc := Init(tryStack) + [Last(tryStack).(phase := 2)], pc + 1;
      } else {
        tryStack, pc := Init(tryStack), pc + 1;
      }
    }

    // ----- the loop -----

    method RunInstruction(i: IR)
      requires Valid()
      modifies this
      ensures Valid() && Now() == Execute(prog, old(Now()), i)
    {
      match i.op
      case RET => OpReturn(i);
      case ASSIGN => OpAssign(i);
      case BINARY(_) => OpOperator(i);
      case COMPARE(_) => OpOperator(i);
      case NOT => OpOperator(i);
      case BWNOT => OpOperator(i);
      case JMP => pc := i.op1.addr;
      case FCALL => OpCall(i);
      case LEAVE =>
        if |callStack| == 1 {
          status := Wild;
        } else {
          PopFrame();
        }
      case SENDVAL => OpSend(i);
      case JMPZ => OpBranch(i, false);
      case JMPNZ => OpBranch(i, true);
      case INCDEC(op) => OpIncDec(i, op);
      case AND => OpAnd(i);
      case OR => OpOr(i);
      case TRY => OpTryCatch(i);
      case CATCH => OpTryCatch(i);
      case THROW => OpTryCatch(i);
      case ETRY => OpTryCatch(i);
      case BSCOPE => pc := pc + 1;
      case ESCOPE => pc := pc + 1;
      case HALT => status := Halted;
    }

    method Tick()
      requires Valid() && status.Running?
      modifies this
      ensures Valid() && Now() == Step(prog, old(Now()))
    {
      if exception.Some? {
        ThrowException();
      } else if pc >= |prog.code| {
        status := Wild;
      } else {
        RunInstruction(prog.code[pc]);
      }
    }

    /** Runs until the machine stops, as it does after `n` steps. */
    method Run(ghost n: nat)
      requires Valid() && !Steps(prog, Now(), n).status.Running?
      modifies this
      ensures Valid() && !status.Running? && Now() == Steps(prog, old(Now()), n)
    {
      ghost var left := n;
      while status.Running?
        invariant Valid() && Steps(prog, Now(), left) == Steps(prog, old(Now()), n)
        decreases left
      {
        assert left > 0;
        Tick();
        left := left - 1;
      }
      StoppedStays(prog, Now(), left);
    }
  }

  /** What the source promises of a program that ends. */
  ghost predicate EndsAs(status: Status, envs: Heap, o: Out) {
    match o
    case Norm(_, h) => status.Halted? && envs == h
    case Ret(_, h) => status.Halted? && envs == h
    case Thr(ex, _, h) => status == Uncaught(ex) && envs == h
    case Abort(ex, _, h, _) => status == Uncaught(ex) && envs == h
    case Error(h) => status.Fatal? && envs == h
    case _ => false
  }

  /** How many steps the machine needs for a program that ends. */
  lemma StepsNeeded(main: Stmt, g: seq<FunDef>, h: Heap, fuel: nat) returns (n: nat)
    requires Compilable(main, g)
    requires var o := Exec(g, fuel, main, h, 0); o.Norm? || o.Ret? || o.Thr? || o.Abort? || o.Error?
    ensures var s := Steps(Compiled(main, g), Started(main, h), n);
            !s.status.Running? && EndsAs(s.status, s.heap, Exec(g, fuel, main, h, 0))
  {
    hide Steps, Compiled, Compilable, Exec, Started;
    CompilerCorrect(main, g, h, fuel);
    var p, s := Compiled(main, g), Started(main, h);
    match Exec(g, fuel, main, h, 0)
    case Norm(_, h1) => n :| Steps(p, s, n).status == Halted && Steps(p, s, n).heap == h1;
    case Ret(_, h1) => n :| Steps(p, s, n).status == Halted && Steps(p, s, n).heap == h1;
    case Thr(ex, _, h1) => n :| Steps(p, s, n).status == Uncaught(ex) && Steps(p, s, n).heap == h1;
    case Abort(ex, _, h1, _) => n :| Steps(p, s, n).status == Uncaught(ex) && Steps(p, s, n).heap == h1;
    case Error(h1) => n :| Steps(p, s, n).status == Fatal && Steps(p, s, n).heap == h1;
  }

  /** Compiles a program and runs it: whenever the evaluator ends it, with any amount of fuel, the machine
      ends it the same way and with the same variables. */
  method CompileAndRun(main: Stmt, g: seq<FunDef>, envs: Heap, ghost fuel: nat) returns (vm: VirtualMachine)
    requires Compilable(main, g)
    requires var o := Exec(g, fuel, main, envs, 0); o.Norm? || o.Ret? || o.Thr? || o.Abort? || o.Error?
    ensures EndsAs(vm.status, vm.envs, Exec(g, fuel, main, envs, 0))
  {
    hide Steps, Compiled, Compilable, Exec, EndsAs;
    var p, temps := Compile(main, g);
    vm := new VirtualMachine(p, envs, temps);
    assert vm.Now() == Started(main, envs);
    ghost var n := StepsNeeded(main, g, envs, fuel);
    vm.Run(n);
  }
}
