/** What the evaluator and the machine decide on, in the language's own terms: which values are false, when a call
    has the wrong number of arguments, and when a constant may be assigned. */
module Decisions {
  import opened Values
  import opened Store
  import opened Ast
  import opened Machine
  import opened Semantics
  import opened Operators

  // ----- truth -----

  predicate Falsy(v: Val) { v == Null || v == Bool(false) }

  /** Null and false are the only falsy values; 0 is none. */
  lemma OnlyFalsy(v: Val)
    ensures !Truthy(v) <==> Falsy(v)
  {
  }

  /** A branch is skipped if and only if its condition is null or false. */
  lemma BranchSkipped(g: seq<FunDef>, fuel: nat, bs: Branches, h: Heap, env: nat)
    requires bs.Branch? && Demand(Eval(g, fuel, bs.cond, h, env), env).Got?
    ensures var c := Demand(Eval(g, fuel, bs.cond, h, env), env);
            ExecIf(g, fuel, bs, h, env)
            == if Falsy(c.v) then ExecIf(g, fuel, bs.rest, c.h, env) else Exec(g, fuel, bs.block, c.h, env)
  {
    hide Eval, Exec;
  }

  /** A loop ends before its body if and only if its condition is null or false. */
  lemma LoopEnds(g: seq<FunDef>, fuel: nat, s: Stmt, h: Heap, env: nat)
    requires s.Loop? && WellMade(s) && s.cond.When? && fuel > 0 && Demand(Eval(g, fuel, s.cond.e, h, env), env).Got?
    ensures var c := Demand(Eval(g, fuel, s.cond.e, h, env), env);
            Exec(g, fuel, s, h, env) == if Falsy(c.v) then Norm(Junk, c.h) else Iterate(g, fuel, s, c.h, env)
  {
    hide Eval, Iterate;
  }

  /** `&&` and `and` are decided by a first operand that is null or false, `||` and `or` by any other.  A decided
      `&&` is false, a decided `||` true, a decided `and` null, and a decided `or` its operand. */
  lemma FirstDecides(g: seq<FunDef>, fuel: nat, e: Expr, h: Heap, env: nat)
    requires (e.Logic? || e.Boolean?) && Demand(Eval(g, fuel, e.l, h, env), env).Got?
    ensures var l := Demand(Eval(g, fuel, e.l, h, env), env);
            Falsy(l.v) == e.isAnd ==>
              Eval(g, fuel, e, h, env)
              == Norm(Held(if e.Boolean? then Bool(!e.isAnd) else if e.isAnd then Null else l.v), l.h)
  {
    assert Eval(g, fuel, e, h, env) == EvalShort(g, fuel, e, h, env);
  }

  /** Otherwise the second operand is evaluated and decides: a boolean form gives its truth, `and` the operand or
      null, and `or` the operand or nothing. */
  lemma SecondDecides(g: seq<FunDef>, fuel: nat, e: Expr, h: Heap, env: nat)
    requires (e.Logic? || e.Boolean?) && Demand(Eval(g, fuel, e.l, h, env), env).Got?
    requires Falsy(Demand(Eval(g, fuel, e.l, h, env), env).v) != e.isAnd
    ensures var r := Demand(Eval(g, fuel, e.r, Demand(Eval(g, fuel, e.l, h, env), env).h, env), env);
            Eval(g, fuel, e, h, env) ==
            match r
            case Lost(o) => o
            case Got(v, h2) =>
              Norm(if e.Boolean? then Held(Bool(!Falsy(v)))
                   else if !Falsy(v) then Held(v) else if e.isAnd then Held(Null) else Junk, h2)
  {
    assert Eval(g, fuel, e, h, env) == EvalShort(g, fuel, e, h, env);
  }

  /** OP_JMPZ jumps if and only if its operand is null or false, OP_JMPNZ if and only if it is neither; both store
      the truth value if they have a result. */
  lemma BranchJumps(p: Program, s: State, i: IR, jumpOn: bool, v: Val)
    requires ReadOp(p, s, i.op1) == Some(v)
    ensures var s' := StepBranch(p, s, i, jumpOn);
            && s'.pc == (if Falsy(v) != jumpOn then i.op2.addr else s.pc + 1)
            && (i.result.kind.Unused? ==> s' == s.(pc := s'.pc))
            && (!i.result.kind.Unused? ==> s' == WriteOp(s, i.result, Bool(!Falsy(v))).(pc := s'.pc))
  {
  }

  /** OP_AND jumps if and only if its operand is null or false, and then its result is null; OP_OR if and only if
      it is neither.  When they differ from that, `and` has the operand and `or` nothing new. */
  lemma ShortJumps(p: Program, s: State, i: IR, v: Val)
    requires ReadOp(p, s, i.op1) == Some(v)
    ensures StepAnd(p, s, i) == if Falsy(v) then WriteOp(s, i.result, Null).(pc := i.op2.addr)
                                else WriteOp(s, i.result, v).(pc := s.pc + 1)
    ensures StepOr(p, s, i) == if Falsy(v) then s.(pc := s.pc + 1) else WriteOp(s, i.result, v).(pc := i.op2.addr)
  {
  }

  // ----- arity -----

  /** Too few arguments, or too many for a function that is not variadic. */
  predicate WrongNumber(f: Header, count: nat) {
    count < f.required || (count > f.params && !f.variadic)
  }

  /** A call with a wrong number of arguments is a fatal error, whatever the body does; with a right number the body
      is entered, which a fuel of 0 does not allow. */
  lemma CallFails(g: seq<FunDef>, fuel: nat, f: nat, args: seq<Val>, h: Heap)
    requires f < |g| && Activate(h, g[f].header, args).Some?
    ensures WrongNumber(g[f].header, |args|) ==> Invoke(g, fuel, Func(f), args, h) == Error(h)
    ensures Invoke(g, 0, Func(f), args, h) == Error(h) <==> WrongNumber(g[f].header, |args|)
    ensures !WrongNumber(g[f].header, |args|) ==>
              var body := Exec(g, fuel, Ast.Seq(g[f].prologue, g[f].body), Activate(h, g[f].header, args).value, |h|);
              body.Norm? ==> Invoke(g, fuel + 1, Func(f), args, h) == Norm(Junk, body.h)
  {
    hide Exec, Activate;
  }

  /** The same of OP_FCALL. */
  lemma CallStops(p: Program, s: State, i: IR, f: nat, args: seq<Val>)
    requires s.status.Running? && ReadOp(p, s, i.op1) == Some(Func(f)) && f < |p.funs| && i.result.kind.FetchTmp?
    requires LoadAll(p, s, s.args) == Some(args) && Activate(s.heap, p.funs[f].header, args).Some?
    ensures StepCall(p, s, i).status == Fatal <==> WrongNumber(p.funs[f].header, |args|)
    ensures StepCall(p, s, i).status == Fatal ==> StepCall(p, s, i) == s.(status := Fatal)
  {
    hide ReadOp, LoadAll, Activate;
  }

  /** Calling anything but a function is a fatal error too. */
  lemma NoFunction(p: Program, g: seq<FunDef>, fuel: nat, s: State, i: IR, v: Val, args: seq<Val>, h: Heap)
    requires ReadOp(p, s, i.op1) == Some(v) && LoadAll(p, s, s.args) == Some(args) && !v.Func?
    ensures StepCall(p, s, i) == s.(status := Fatal) && Invoke(g, fuel, v, args, h) == Error(h)
  {
    hide ReadOp, LoadAll;
  }

  // ----- constants -----

  /** An assignment is a fatal error if and only if the variable is constant and not null any more. */
  lemma ConstantKept(r: Res, h: Heap, env: nat, x: Off, v: Val)
    requires Locate(h, env, x).Some? && Deref(r, h, env) == Some(v)
    ensures var c := CellAt(h, Locate(h, env, x).value);
            && (Put(r, h, env, x) == Error(h) <==> c.isConst && c.v != Null)
            && (!(c.isConst && c.v != Null)
                ==> Put(r, h, env, x) == Norm(Held(v), SetCell(h, Locate(h, env, x).value, v)))
  {
    hide Walk;
  }

  /** The same of OP_ASSIGN. */
  lemma AssignStops(p: Program, s: State, i: IR, v: Val)
    requires s.status.Running? && i.op1.kind.FetchVar? && i.result.kind.Unused? && ReadOp(p, s, i.op2) == Some(v)
    requires Locate(s.heap, s.frame.env, i.op1.off).Some?
    ensures var c := CellAt(s.heap, Locate(s.heap, s.frame.env, i.op1.off).value);
            StepAssign(p, s, i) == if c.isConst && c.v != Null then s.(status := Fatal)
                                   else s.(heap := SetCell(s.heap, Locate(s.heap, s.frame.env, i.op1.off).value, v),
                                           pc := s.pc + 1)
  {
    hide Walk, ReadOp;
  }

  /** A constant takes one value, its first that is not null, and keeps it. */
  lemma OnceAssigned(r: Res, h: Heap, env: nat, x: Off, v: Val, r2: Res, w: Val)
    requires Locate(h, env, x).Some? && CellAt(h, Locate(h, env, x).value) == Cell(Null, true) && v != Null
    requires Deref(r, h, env) == Some(v)
    ensures var o := Put(r, h, env, x);
            o.Norm? && (Deref(r2, o.h, env) == Some(w) ==> Put(r2, o.h, env, x) == Error(o.h))
  {
    hide Walk;
    WalkAfterSet(h, Locate(h, env, x).value, v, env, x.hops);
  }
}
