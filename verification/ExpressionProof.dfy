/** Compiled expressions simulate the evaluator, provided calls with less fuel do. */
module ExpressionProof {
  import opened Values
  import opened Store
  import opened Ast
  import opened Machine
  import opened Semantics
  import opened Layout
  import opened Simulation

  /** A linked program with its source functions, and the fuel of the evaluator. */
  datatype Ctx = Ctx(p: Program, g: seq<FunDef>, fuel: nat)

  function BodyGoal(p: Program, f: FunDef, info: FunInfo, fuel: nat): Goal {
    Goal(info.addr + SizeS(f.prologue) + SizeS(f.body), 0, 0, 0, fuel)
  }

  /** The body of function `f`, entered with `b` units of fuel in the state `s`, simulates the evaluator. */
  ghost predicate BodyOk(p: Program, g: seq<FunDef>, b: nat, f: nat, s: State)
    requires f < |g| && |p.funs| == |g|
  {
    exists n: nat ::
      Run(p, s, n, Exec(g, b, Ast.Seq(g[f].prologue, g[f].body), s.heap, s.frame.env), BodyGoal(p, g[f], p.funs[f], b))
  }

  ghost predicate CallsOk(c: Ctx)
    requires |c.p.funs| == |c.g|
  {
    forall b: nat, f: nat, s: State {:trigger BodyOk(c.p, c.g, b, f, s)} ::
      b < c.fuel && f < |c.g| && Ready(s, c.p.funs[f].addr, c.p.funs[f].temps) ==> BodyOk(c.p, c.g, b, f, s)
  }

  ghost predicate Setup(c: Ctx) {
    Linked(c.p, c.g) && CallsOk(c)
  }

  ghost predicate EnterE(c: Ctx, e: Expr, at: Pos, s: State) {
    && Setup(c)
    && CodeAt(c.p, at.pc, CodeE(e, at)) && PoolAt(c.p, at.k, PoolE(e))
    && Ready(s, at.pc, at.t + TmpsE(e))
  }

  function GoalE(c: Ctx, e: Expr, at: Pos): Goal {
    Goal(at.pc + SizeE(e), 0, 0, at.t, c.fuel)
  }

  /** After `n` steps the compiled expression has done what the evaluator says, and its operand denotes
      the evaluator's result. */
  ghost predicate DoneE(c: Ctx, e: Expr, at: Pos, s: State, n: nat) {
    RunE(c.p, s, n, Eval(c.g, c.fuel, e, s.heap, s.frame.env), GoalE(c, e, at), OpE(e, at))
  }

  /** The same for an expression that is read as soon as it is computed. */
  ghost predicate DoneV(c: Ctx, e: Expr, at: Pos, s: State, n: nat) {
    match Demand(Eval(c.g, c.fuel, e, s.heap, s.frame.env), s.frame.env)
    case Got(v, h) =>
      Arrive(c.p, s, n, at.pc + SizeE(e), h, at.t) && ReadOp(c.p, Steps(c.p, s, n), OpE(e, at)) == Some(v)
    case Lost(o) => Run(c.p, s, n, o, GoalE(c, e, at))
  }

  // ----- final instructions -----

  /** An operator whose result is a temporary. */
  lemma ProduceStep(p: Program, s: State, i: IR, e: Effect, fuel: nat, t: nat)
    requires CodeAt(p, s.pc, [i]) && Ready(s, s.pc, 0)
    requires Execute(p, s, i) == Apply(s, e, i.result)
    requires i.result == TmpOp(i.result.off.idx) && t <= i.result.off.idx < |s.frame.temps|
    ensures RunE(p, s, 1, Produce(e, s.heap), Goal(s.pc + 1, 0, 0, t, fuel), i.result)
  {
    hide Execute;
    OneStep(p, s, s.pc, i);
    hide Steps;
    if e.Write? {
      KeptTmp(s, i.result.off.idx, e.v, t);
    }
  }

  lemma BinaryStep(p: Program, s: State, i: IR, a: Val, b: Val, fuel: nat, t: nat)
    requires CodeAt(p, s.pc, [i]) && Ready(s, s.pc, 0) && (i.op.BINARY? || i.op.COMPARE?)
    requires ReadOp(p, s, i.op1) == Some(a) && ReadOp(p, s, i.op2) == Some(b)
    requires i.result == TmpOp(i.result.off.idx) && t <= i.result.off.idx < |s.frame.temps|
    ensures RunE(p, s, 1, Produce(if i.op.BINARY? then Arith(i.op.bin, a, b) else Compare(i.op.cmp, a, b), s.heap),
                 Goal(s.pc + 1, 0, 0, t, fuel), i.result)
  {
    ProduceStep(p, s, i, if i.op.BINARY? then Arith(i.op.bin, a, b) else Compare(i.op.cmp, a, b), fuel, t);
  }

  lemma UnaryStep(p: Program, s: State, i: IR, v: Val, fuel: nat, t: nat)
    requires CodeAt(p, s.pc, [i]) && Ready(s, s.pc, 0) && (i.op.NOT? || i.op.BWNOT?)
    requires ReadOp(p, s, i.op1) == Some(v)
    requires i.result == TmpOp(i.result.off.idx) && t <= i.result.off.idx < |s.frame.temps|
    ensures RunE(p, s, 1, Produce(if i.op.NOT? then Not(v) else BwNot(v), s.heap), Goal(s.pc + 1, 0, 0, t, fuel),
                 i.result)
  {
    ProduceStep(p, s, i, if i.op.NOT? then Not(v) else BwNot(v), fuel, t);
  }

  /** An operator whose result is the variable that is its first operand. */
  lemma UpdateStep(p: Program, s: State, i: IR, op: Bin, x: Off, a: Val, b: Val, fuel: nat, t: nat)
    requires CodeAt(p, s.pc, [i]) && Ready(s, s.pc, t)
    requires i == IR(BINARY(op), VarOp(x), i.op2, VarOp(x))
    requires ReadVar(s.heap, s.frame.env, x) == Some(a) && ReadOp(p, s, i.op2) == Some(b)
    ensures RunE(p, s, 1, Update(Arith(op, a, b), s.heap, s.frame.env, x), Goal(s.pc + 1, 0, 0, t, fuel), VarOp(x))
  {
    OneStep(p, s, s.pc, i);
    hide Steps;
  }

  lemma AssignStep(p: Program, s: State, i: IR, x: Off, r: Res, fuel: nat, t: nat)
    requires CodeAt(p, s.pc, [i]) && Ready(s, s.pc, t)
    requires i == IR(ASSIGN, VarOp(x), i.op2, i.result) && Denotes(p, s, i.op2, r)
    requires i.result.kind.Unused? || (i.result == TmpOp(i.result.off.idx) && t <= i.result.off.idx < |s.frame.temps|)
    ensures Run(p, s, 1, Put(r, s.heap, s.frame.env, x), Goal(s.pc + 1, 0, 0, t, fuel))
    ensures i.result.kind.FetchTmp? ==>
              RunE(p, s, 1, Put(r, s.heap, s.frame.env, x), Goal(s.pc + 1, 0, 0, t, fuel), i.result)
  {
    OneStep(p, s, s.pc, i);
    hide Steps;
    var o := Put(r, s.heap, s.frame.env, x);
    if o.Norm? {
      var v := o.res.v;
      ReadDenoted(p, s, i.op2, r, v);
      if i.result.kind.FetchTmp? {
        KeptTmp(WriteOp(s, VarOp(x), v), i.result.off.idx, v, t);
      }
    } else if o.Error? {
      ReadDenoted(p, s, i.op2, r, Deref(r, s.heap, s.frame.env).value);
    }
  }

  lemma IncDecStep(p: Program, s: State, step: Step1, x: Off, j: nat, fuel: nat, t: nat)
    requires CodeAt(p, s.pc, [IR(INCDEC(step), VarOp(x), NO_OPERAND, TmpOp(j))]) && Ready(s, s.pc, 0)
    requires t <= j < |s.frame.temps|
    ensures RunE(p, s, 1, Bump(step, x, s.heap, s.frame.env), Goal(s.pc + 1, 0, 0, t, fuel), TmpOp(j))
  {
    OneStep(p, s, s.pc, IR(INCDEC(step), VarOp(x), NO_OPERAND, TmpOp(j)));
    hide Steps;
    match ReadOp(p, s, VarOp(x))
    case None =>
    case Some(v) =>
      KeptTmp(s, j, v, t);
      match Stepped(step, v)
      case Write(w) =>
        var s1 := WriteOp(s, VarOp(x), w);
        if s1.status.Running? {
          KeptTmp(s1, j, if IsPre(step) then w else v, t);
        }
      case _ =>
  }

  /** One test of a short circuit: to the end when it decides the outcome, or on to the next instruction. */
  lemma TestStep(p: Program, s: State, e: Expr, i: IR, v: Val, t: nat)
    requires e.Logic? || e.Boolean?
    requires CodeAt(p, s.pc, [i]) && Ready(s, s.pc, 0) && ReadOp(p, s, i.op1) == Some(v)
    requires i == IR(TestOp(e), i.op1, Addr(i.op2.addr), TmpOp(i.result.off.idx))
    requires t <= i.result.off.idx < |s.frame.temps|
    ensures Arrive(p, s, 1, if Decided(e, v).Some? then i.op2.addr else s.pc + 1, s.heap, t)
    ensures Decided(e, v).Some? ==> Denotes(p, Steps(p, s, 1), i.result, Held(Decided(e, v).value))
    ensures Denotes(p, Steps(p, s, 1), i.result, Settled(e, v))
  {
    OneStep(p, s, s.pc, i);
    hide Steps;
    var j := i.result.off.idx;
    KeptTmp(s, j, v, t);
    KeptTmp(s, j, Null, t);
    KeptTmp(s, j, Bool(Truthy(v)), t);
  }

  // ----- operands -----

  lemma SimDemand(c: Ctx, e: Expr, at: Pos, s: State) returns (n: nat)
    requires EnterE(c, e, at, s)
    ensures DoneV(c, e, at, s, n)
    decreases e, 4
  {
    hide Steps, EnterE, ReadOp, Eval, OpE;
    n := SimExpr(c, e, at, s);
    var o := Eval(c.g, c.fuel, e, s.heap, s.frame.env);
    var r := Demand(o, s.frame.env);
    if r.Got? {
      ReadDenoted(c.p, Steps(c.p, s, n), OpE(e, at), o.res, r.v);
    }
  }

  /** Two operands: both are still readable after the second was computed. */
  ghost predicate DoneBoth(c: Ctx, e: Expr, at: Pos, s: State, n: nat)
    requires e.Binary? || e.Comparison?
  {
    match EvalBoth(c.g, c.fuel, e, s.heap, s.frame.env)
    case Both(a, b, h) =>
      && Arrive(c.p, s, n, AfterE(e.r, AfterE(e.l, at)).pc, h, at.t)
      && ReadOp(c.p, Steps(c.p, s, n), OpE(e.l, at)) == Some(a)
      && ReadOp(c.p, Steps(c.p, s, n), OpE(e.r, AfterE(e.l, at))) == Some(b)
    case Neither(o) => Run(c.p, s, n, o, GoalE(c, e, at))
  }

  lemma SimBoth(c: Ctx, e: Expr, at: Pos, s: State) returns (n: nat)
    requires e.Binary? || e.Comparison?
    requires EnterE(c, e.l, at, s)
    requires CodeAt(c.p, AfterE(e.l, at).pc, CodeE(e.r, AfterE(e.l, at))) && PoolAt(c.p, AfterE(e.l, at).k, PoolE(e.r))
    requires AfterE(e.r, AfterE(e.l, at)).t <= |s.frame.temps|
    ensures DoneBoth(c, e, at, s, n)
    decreases e, 0
  {
    hide Steps, CodeAt, PoolAt, Setup, ReadOp, Eval, OpE, CodeE, Deref;
    var l, r, at1, env := e.l, e.r, AfterE(e.l, at), s.frame.env;
    n := SimExpr(c, l, at, s);
    var o1 := Eval(c.g, c.fuel, l, s.heap, env);
    if o1.Norm? {
      var s1 := Steps(c.p, s, n);
      var m := SimExpr(c, r, at1, s1);
      var o2 := Eval(c.g, c.fuel, r, o1.h, env);
      RunThen(c.p, s, n, at1.pc, o1.h, m, o2, GoalE(c, r, at1).(t := at.t), at1.t);
      var s2 := Steps(c.p, s, n + m);
      var both := EvalBoth(c.g, c.fuel, e, s.heap, env);
      if both.Both? {
        OpBound(l, at);
        DenotesKept(c.p, s1, s2, OpE(l, at), o1.res, at1.t);
        ReadDenoted(c.p, s2, OpE(l, at), o1.res, both.a);
        ReadDenoted(c.p, s2, OpE(r, at1), o2.res, both.b);
      } else if !o2.Norm? {
        RunElsewhere(c.p, s, n + m, o2, GoalE(c, r, at1).(t := at.t), GoalE(c, e, at));
      }
      n := n + m;
    } else {
      RunElsewhere(c.p, s, n, o1, GoalE(c, l, at), GoalE(c, e, at));
    }
  }

  lemma SimBinary(c: Ctx, e: Expr, at: Pos, s: State) returns (n: nat)
    requires e.Binary? || e.Comparison?
    requires EnterE(c, e, at, s)
    ensures DoneE(c, e, at, s, n)
    decreases e, 1
  {
    hide Steps, CodeAt, PoolAt, Setup, ReadOp, EvalBoth, Eval, CodeE, PoolE, SizeE, TmpsE, OpE, Arith, Compare, Produce;
    BinaryParts(c, e, at, s.heap, s.frame.env);
    var l, r, at1, at2 := e.l, e.r, AfterE(e.l, at), AfterE(e.r, AfterE(e.l, at));
    var i := IR(if e.Binary? then BINARY(e.op) else COMPARE(e.cmp), OpE(l, at), OpE(r, at1), OpE(e, at));
    CodeSplit(c.p, at.pc, CodeE(l, at) + CodeE(r, at1), [i]);
    CodeSplit(c.p, at.pc, CodeE(l, at), CodeE(r, at1));
    PoolSplit(c.p, at.k, PoolE(l), PoolE(r));
    n := SimBoth(c, e, at, s);
    var both := EvalBoth(c.g, c.fuel, e, s.heap, s.frame.env);
    if both.Both? {
      var s2 := Steps(c.p, s, n);
      BinaryStep(c.p, s2, i, both.a, both.b, c.fuel, at.t);
      var eff := if e.Binary? then Arith(e.op, both.a, both.b) else Compare(e.cmp, both.a, both.b);
      RunEThen(c.p, s, n, at2.pc, both.h, 1, Produce(eff, both.h), GoalE(c, e, at), at.t, OpE(e, at));
      n := n + 1;
    }
  }

  lemma BinaryParts(c: Ctx, e: Expr, at: Pos, h: Heap, env: nat)
    requires e.Binary? || e.Comparison?
    ensures var l, r, at1 := e.l, e.r, AfterE(e.l, at);
            var i := IR(if e.Binary? then BINARY(e.op) else COMPARE(e.cmp), OpE(l, at), OpE(r, at1), OpE(e, at));
            && CodeE(e, at) == CodeE(l, at) + CodeE(r, at1) + [i] && PoolE(e) == PoolE(l) + PoolE(r)
            && SizeE(e) == SizeE(l) + SizeE(r) + 1 && TmpsE(e) == TmpsE(l) + TmpsE(r) + 1
            && OpE(e, at) == TmpOp(AfterE(r, at1).t)
    ensures Eval(c.g, c.fuel, e, h, env) ==
            match EvalBoth(c.g, c.fuel, e, h, env)
            case Both(a, b, h1) => Produce(if e.Binary? then Arith(e.op, a, b) else Compare(e.cmp, a, b), h1)
            case Neither(o) => o
  {
  }

  lemma SimUnary(c: Ctx, e: Expr, at: Pos, s: State) returns (n: nat)
    requires e.Negate? || e.Complement?
    requires EnterE(c, e, at, s)
    ensures DoneE(c, e, at, s, n)
    decreases e, 1
  {
    hide Steps, CodeAt, PoolAt, Setup, ReadOp;
    var i := IR(if e.Negate? then NOT else BWNOT, OpE(e.e, at), NO_OPERAND, OpE(e, at));
    CodeSplit(c.p, at.pc, CodeE(e.e, at), [i]);
    n := SimDemand(c, e.e, at, s);
    var r := Demand(Eval(c.g, c.fuel, e.e, s.heap, s.frame.env), s.frame.env);
    if r.Got? {
      UnaryStep(c.p, Steps(c.p, s, n), i, r.v, c.fuel, at.t);
      RunEThen(c.p, s, n, AfterE(e.e, at).pc, r.h, 1, Produce(if e.Negate? then Not(r.v) else BwNot(r.v), r.h),
               GoalE(c, e, at), at.t, OpE(e, at));
      n := n + 1;
    } else {
      RunElsewhere(c.p, s, n, r.o, GoalE(c, e.e, at), GoalE(c, e, at));
    }
  }

  lemma SimAugmented(c: Ctx, e: Expr, at: Pos, s: State) returns (n: nat)
    requires e.Augmented?
    requires EnterE(c, e, at, s)
    ensures DoneE(c, e, at, s, n)
    decreases e, 1
  {
    hide Steps, CodeAt, PoolAt, Setup, ReadOp, Update, Arith;
    var i := IR(BINARY(e.op), VarOp(e.x), OpE(e.r, at), VarOp(e.x));
    CodeSplit(c.p, at.pc, CodeE(e.r, at), [i]);
    n := SimDemand(c, e.r, at, s);
    var r := Demand(Eval(c.g, c.fuel, e.r, s.heap, s.frame.env), s.frame.env);
    if r.Got? {
      var a := ReadVar(r.h, s.frame.env, e.x);
      if a.Some? {
        UpdateStep(c.p, Steps(c.p, s, n), i, e.op, e.x, a.value, r.v, c.fuel, at.t);
        RunEThen(c.p, s, n, AfterE(e.r, at).pc, r.h, 1, Update(Arith(e.op, a.value, r.v), r.h, s.frame.env, e.x),
                 GoalE(c, e, at), at.t, OpE(e, at));
        n := n + 1;
      }
    } else {
      RunElsewhere(c.p, s, n, r.o, GoalE(c, e.r, at), GoalE(c, e, at));
    }
  }

  lemma SimAssignTo(c: Ctx, e: Expr, at: Pos, s: State) returns (n: nat)
    requires e.AssignTo?
    requires EnterE(c, e, at, s)
    ensures DoneE(c, e, at, s, n)
    decreases e, 1
  {
    hide Steps, CodeAt, PoolAt, Setup, ReadOp, Put;
    var i := IR(ASSIGN, VarOp(e.x), OpE(e.e, at), OpE(e, at));
    CodeSplit(c.p, at.pc, CodeE(e.e, at), [i]);
    n := SimExpr(c, e.e, at, s);
    var o1 := Eval(c.g, c.fuel, e.e, s.heap, s.frame.env);
    if o1.Norm? {
      AssignStep(c.p, Steps(c.p, s, n), i, e.x, o1.res, c.fuel, at.t);
      RunEThen(c.p, s, n, AfterE(e.e, at).pc, o1.h, 1, Put(o1.res, o1.h, s.frame.env, e.x),
               GoalE(c, e, at), at.t, OpE(e, at));
      n := n + 1;
    } else {
      RunElsewhere(c.p, s, n, o1, GoalE(c, e.e, at), GoalE(c, e, at));
    }
  }

  // ----- short circuits -----

  lemma SimShort(c: Ctx, e: Expr, at: Pos, s: State) returns (n: nat)
    requires e.Logic? || e.Boolean?
    requires EnterE(c, e, at, s)
    ensures RunE(c.p, s, n, EvalShort(c.g, c.fuel, e, s.heap, s.frame.env), GoalE(c, e, at), OpE(e, at))
    decreases e, 1
  {
    hide Steps, CodeAt, PoolAt, Setup, ReadOp, Eval, Decided, Settled;
    var l, r, at1 := e.l, e.r, SecondTest(e, at);
    var i1, i2 := TestCode(e, l, at, at), TestCode(e, r, at1, at);
    CodeSplit(c.p, at.pc, CodeE(l, at) + [i1] + CodeE(r, at1), [i2]);
    CodeSplit(c.p, at.pc, CodeE(l, at) + [i1], CodeE(r, at1));
    CodeSplit(c.p, at.pc, CodeE(l, at), [i1]);
    PoolSplit(c.p, at.k, PoolE(l), PoolE(r));
    n := SimDemand(c, l, at, s);
    var r1 := Demand(Eval(c.g, c.fuel, l, s.heap, s.frame.env), s.frame.env);
    if r1.Got? {
      TestStep(c.p, Steps(c.p, s, n), e, i1, r1.v, at.t);
      var next := if Decided(e, r1.v).Some? then at.pc + SizeE(e) else at1.pc;
      ArriveThen(c.p, s, n, AfterE(l, at).pc, r1.h, at.t, 1, next, r1.h, at.t);
      n := n + 1;
      if Decided(e, r1.v).None? {
        n := SimSecond(c, e, at, s, n, r1.h);
      }
    } else {
      RunElsewhere(c.p, s, n, r1.o, GoalE(c, l, at), GoalE(c, e, at));
    }
  }

  /** The second operand of a short circuit, `n` steps into the expression. */
  lemma SimSecond(c: Ctx, e: Expr, at: Pos, s: State, n: nat, h: Heap) returns (n': nat)
    requires e.Logic? || e.Boolean?
    requires Arrive(c.p, s, n, SecondTest(e, at).pc, h, at.t)
    requires EnterE(c, e.r, SecondTest(e, at), Steps(c.p, s, n))
    requires CodeAt(c.p, AfterE(e.r, SecondTest(e, at)).pc, [TestCode(e, e.r, SecondTest(e, at), at)])
    ensures RunE(c.p, s, n',
                 match Demand(Eval(c.g, c.fuel, e.r, h, s.frame.env), s.frame.env)
                 case Got(v, h2) => Norm(Settled(e, v), h2)
                 case Lost(o) => o,
                 GoalE(c, e, at), OpE(e, at))
    decreases e, 0
  {
    hide Steps, CodeAt, PoolAt, Setup, ReadOp, CodeE, Eval, Decided, Settled;
    var r, at1 := e.r, SecondTest(e, at);
    var m := SimDemand(c, r, at1, Steps(c.p, s, n));
    var r2 := Demand(Eval(c.g, c.fuel, r, h, s.frame.env), s.frame.env);
    if r2.Got? {
      ArriveThen(c.p, s, n, at1.pc, h, at.t, m, AfterE(r, at1).pc, r2.h, at1.t);
      TestStep(c.p, Steps(c.p, s, n + m), e, TestCode(e, r, at1, at), r2.v, at.t);
      ArriveThen(c.p, s, n + m, AfterE(r, at1).pc, r2.h, at.t, 1, at.pc + SizeE(e), r2.h, at.t);
      n' := n + m + 1;
    } else {
      RunElsewhere(c.p, Steps(c.p, s, n), m, r2.o, GoalE(c, r, at1), GoalE(c, e, at).(t := at1.t));
      RunThen(c.p, s, n, at1.pc, h, m, r2.o, GoalE(c, e, at), at1.t);
      n' := n + m;
    }
  }

  // ----- calls -----

  /** The evaluated arguments, each denoted by its own operand. */
  ghost predicate AllDenote(p: Program, s: State, ops: seq<Operand>, rs: seq<Res>) {
    |ops| == |rs| && forall i :: 0 <= i < |ops| ==> Denotes(p, s, ops[i], rs[i])
  }

  ghost predicate EnterA(c: Ctx, es: Exprs, at: Pos, s: State) {
    && Setup(c)
    && CodeAt(c.p, at.pc, CodeA(es, at)) && PoolAt(c.p, at.k, PoolA(es))
    && Ready(s, at.pc, at.t + TmpsA(es))
  }

  ghost predicate DoneA(c: Ctx, es: Exprs, at: Pos, s: State, n: nat) {
    match EvalArgs(c.g, c.fuel, es, s.heap, s.frame.env)
    case Args(rs, h) =>
      Arrive(c.p, s, n, AfterA(es, at).pc, h, at.t) && AllDenote(c.p, Steps(c.p, s, n), OpsA(es, at), rs)
    case ArgsFail(o) => Run(c.p, s, n, o, Goal(0, 0, 0, at.t, c.fuel))
  }

  lemma SimArgs(c: Ctx, es: Exprs, at: Pos, s: State) returns (n: nat)
    requires EnterA(c, es, at, s)
    ensures DoneA(c, es, at, s, n)
    decreases es, 0
  {
    hide Steps, CodeAt, PoolAt, Setup, ReadOp, Eval, OpE, CodeE, Denotes;
    match es
    case NoExpr => n := 0; StepsNone(c.p, s);
    case Exprs(e, rest) =>
      var at1 := AfterE(e, at);
      CodeSplit(c.p, at.pc, CodeE(e, at), CodeA(rest, at1));
      PoolSplit(c.p, at.k, PoolE(e), PoolA(rest));
      n := SimExpr(c, e, at, s);
      var o1 := Eval(c.g, c.fuel, e, s.heap, s.frame.env);
      if o1.Norm? {
        var s1 := Steps(c.p, s, n);
        var m := SimArgs(c, rest, at1, s1);
        var o2 := EvalArgs(c.g, c.fuel, rest, o1.h, s.frame.env);
        if o2.Args? {
          ArriveThen(c.p, s, n, at1.pc, o1.h, at.t, m, AfterA(rest, at1).pc, o2.h, at1.t);
          OpBound(e, at);
          DenotesKept(c.p, s1, Steps(c.p, s, n + m), OpE(e, at), o1.res, at1.t);
        } else {
          RunThen(c.p, s, n, at1.pc, o1.h, m, o2.o, Goal(0, 0, 0, at.t, c.fuel), at1.t);
        }
        n := n + m;
      } else {
        RunElsewhere(c.p, s, n, o1, GoalE(c, e, at), Goal(0, 0, 0, at.t, c.fuel));
      }
  }

  /** A value pushed as a cell pointer reads back as the value its operand denotes. */
  lemma SendStep(p: Program, s: State, o: Operand, r: Res, v: Val)
    requires Denotes(p, s, o, r) && Deref(r, s.heap, s.frame.env) == Some(v)
    ensures RefOf(p, s, o).Some? && Load(p, s, RefOf(p, s, o).value) == Some(v)
  {
  }

  lemma LoadAppend(p: Program, s: State, cs: seq<CellRef>, c: CellRef, vs: seq<Val>, v: Val)
    requires LoadAll(p, s, cs) == Some(vs) && Load(p, s, c) == Some(v)
    ensures LoadAll(p, s, cs + [c]) == Some(vs + [v])
    decreases |cs|
  {
    hide Load;
    if cs == [] {
      assert cs + [c] == [c];
      assert [c][1..] == [];
      assert LoadAll(p, s, []) == Some([]);
      assert [v] + [] == [] + [v];
    } else {
      assert (cs + [c])[1..] == cs[1..] + [c];
      LoadAppend(p, s, cs[1..], c, vs[1..], v);
      assert vs + [v] == [vs[0]] + (vs[1..] + [v]);
    }
  }

  lemma LoadSame(p: Program, s: State, s': State, cs: seq<CellRef>)
    requires s'.heap == s.heap && s'.frame == s.frame && s'.callers == s.callers
    ensures LoadAll(p, s', cs) == LoadAll(p, s, cs)
    decreases |cs|
  {
    if cs != [] {
      LoadSame(p, s, s', cs[1..]);
    }
  }

  /** One send appends one cell pointer. */
  lemma SendOne(p: Program, s: State, i: IR, r: Res, v: Val, vs: seq<Val>) returns (s': State)
    requires i == Ins1(SENDVAL, i.op1) && CodeAt(p, s.pc, [i])
    requires s.status.Running? && s.exc.None?
    requires Denotes(p, s, i.op1, r) && Deref(r, s.heap, s.frame.env) == Some(v)
    requires LoadAll(p, s, s.args) == Some(vs)
    ensures s' == Steps(p, s, 1) && s' == s.(pc := s.pc + 1, args := s'.args)
            && LoadAll(p, s', s'.args) == Some(vs + [v])
  {
    hide Denotes, Deref, LoadAll, Load, RefOf;
    SendStep(p, s, i.op1, r, v);
    var c := RefOf(p, s, i.op1).value;
    s' := Next(s.(args := s.args + [c]));
    assert Same(p.code[s.pc + 0], [i][0]);
    InertPatch(p, s, p.code[s.pc], i);
    assert Steps(p, s, 1) == Steps(p, Step(p, s), 0) == s';
    LoadAppend(p, s, s.args, c, vs, v);
    LoadSame(p, s, s', s'.args);
  }

  /** All the sends of a call, run on an argument list that already loads as `vs`. */
  lemma SimSends(p: Program, es: Exprs, at: Pos, s: State, rs: seq<Res>, vs: seq<Val>, ws: seq<Val>)
    returns (n: nat, s': State)
    requires CodeAt(p, s.pc, Sends(es, at))
    requires s.status.Running? && s.exc.None?
    requires AllDenote(p, s, OpsA(es, at), rs)
    requires DerefAll(rs, s.heap, s.frame.env) == Some(ws)
    requires LoadAll(p, s, s.args) == Some(vs)
    ensures s' == Steps(p, s, n)
    ensures s' == s.(pc := s.pc + CountA(es), args := s'.args) && LoadAll(p, s', s'.args) == Some(vs + ws)
    decreases es
  {
    hide Steps, CodeAt, LoadAll, Deref, OpE, Denotes;
    match es
    case NoExpr =>
      n, s' := 0, s;
      StepsNone(p, s);
      assert vs + ws == vs;
    case Exprs(e, rest) =>
      var i := Ins1(SENDVAL, OpE(e, at));
      CodeSplit(p, s.pc, [i], Sends(rest, AfterE(e, at)));
      assert Denotes(p, s, OpsA(es, at)[0], rs[0]);
      var s1 := SendOne(p, s, i, rs[0], ws[0], vs);
      TailDenote(p, s, s1, es, at, rs);
      var m;
      m, s' := SimSends(p, rest, AfterE(e, at), s1, rs[1..], vs + [ws[0]], ws[1..]);
      assert vs + [ws[0]] + ws[1..] == vs + ws;
      n := 1 + m;
      StepsAdd(p, s, 1, m);
  }

  lemma TailDenote(p: Program, s: State, s1: State, es: Exprs, at: Pos, rs: seq<Res>)
    requires es.Exprs? && AllDenote(p, s, OpsA(es, at), rs)
    requires s1.heap == s.heap && s1.frame == s.frame
    ensures AllDenote(p, s1, OpsA(es.rest, AfterE(es.head, at)), rs[1..])
  {
    hide OpE;
    var ops := OpsA(es.rest, AfterE(es.head, at));
    forall j | 0 <= j < |ops| ensures Denotes(p, s1, ops[j], rs[1..][j]) {
      assert Denotes(p, s, OpsA(es, at)[j + 1], rs[j + 1]);
      assert ReadOp(p, s, ops[j]) == ReadOp(p, s1, ops[j]);
    }
  }

  /** The state right after OP_FCALL has entered function `f`. */
  function Entered(s: State, info: FunInfo, h: Heap, tmp: nat): State {
    s.(heap := h, frame := Frame(|s.heap|, seq(info.temps, _ => Null), s.pc + 1, tmp),
       callers := s.callers + [s.frame], args := [], pc := info.addr)
  }

  /** OP_FCALL with the arguments sent. */
  lemma CallStep(p: Program, s: State, i: IR, fval: Val, vs: seq<Val>)
    requires i.op.FCALL? && i.result.kind.FetchTmp? && CodeAt(p, s.pc, [i])
    requires s.status.Running? && s.exc.None?
    requires ReadOp(p, s, i.op1) == Some(fval) && LoadAll(p, s, s.args) == Some(vs)
    ensures !fval.Func? ==> Steps(p, s, 1) == s.(status := Fatal)
    ensures fval.Func? && fval.id < |p.funs| ==>
              var info := p.funs[fval.id];
              if !ArityOk(info.header, |vs|) then Steps(p, s, 1) == s.(status := Fatal)
              else
                var h := Activate(s.heap, info.header, vs);
                h.Some? ==> Steps(p, s, 1) == Entered(s, info, h.value, i.result.off.idx)
  {
    hide ReadOp, LoadAll, Activate, ArityOk;
    assert Same(p.code[s.pc + 0], [i][0]);
    InertPatch(p, s, p.code[s.pc], i);
    assert Steps(p, s, 1) == Steps(p, Step(p, s), 0) == StepCall(p, s, i);
  }

  /** OP_LEAVE at the end of a callee's body pops its frame and leaves the result unwritten. */
  lemma FinishLeave(c: Ctx, f: nat, s: State, h1: Heap, tmp: nat, m: nat, ob: Out, t: nat)
    requires |c.p.funs| == |c.g| && Linked(c.p, c.g) && f < |c.g| && s.status.Running? && s.exc.None?
    requires t <= tmp < |s.frame.temps| && ob.Norm?
    requires Run(c.p, Entered(s, c.p.funs[f], h1, tmp), m, ob, BodyGoal(c.p, c.g[f], c.p.funs[f], 0))
    ensures var s3 := Steps(c.p, Steps(c.p, Entered(s, c.p.funs[f], h1, tmp), m), 1);
            At(s.(args := []), s3, s.pc + 1, ob.h, t) && Denotes(c.p, s3, TmpOp(tmp), Junk)
  {
    hide Linked;
    var s2 := Steps(c.p, Entered(s, c.p.funs[f], h1, tmp), m);
    assert Pop(s2).frame == s.frame && Pop(s2).callers == s.callers;
    LeaveAt(c, f);
    OneStep(c.p, s2, s2.pc, Ins0(LEAVE));
  }

  /** OP_RET copies its operand, if it has one, to the caller's temporary and pops the frame. */
  lemma FinishReturn(p: Program, s: State, s2: State, tmp: nat, r: Res, t: nat)
    requires s.status.Running? && s.exc.None? && s.heap != [] && t <= tmp < |s.frame.temps|
    requires s2.status.Running? && s2.exc.None? && s2.args == [] && s2.tries == s.tries && AtReturn(p, s2, r)
    requires s2.callers == s.callers + [s.frame]
    requires s2.frame.env == |s.heap| && s2.frame.retAddr == s.pc + 1 && s2.frame.retTmp == tmp
    requires !r.Junk? ==> Deref(r, s2.heap, |s.heap|).Some?
    ensures var r' := if r.Junk? then Junk else Held(Deref(r, s2.heap, |s.heap|).value);
            var s3 := Steps(p, s2, 1);
            At(s.(args := []), s3, s.pc + 1, s2.heap, t) && Denotes(p, s3, TmpOp(tmp), r')
  {
    hide Deref, ReadOp;
    var ret := p.code[s2.pc];
    var popped := Pop(s2);
    assert popped.frame == s.frame && popped.callers == s.callers;
    assert Steps(p, s2, 1) == Steps(p, Step(p, s2), 0) == StepReturn(p, s2, ret);
    hide Steps;
    if !ret.op1.kind.Unused? {
      if !r.Junk? {
        ReadDenoted(p, s2, ret.op1, r, Deref(r, s2.heap, |s.heap|).value);
      }
      var v := ReadOp(p, s2, ret.op1).value;
      KeptTmp(popped, tmp, v, t);
      ReadTmp(p, SetTmp(popped, tmp, v), tmp);
    } else {
      ReadTmp(p, popped, tmp);
    }
  }

  lemma ReadTmp(p: Program, s: State, i: nat)
    requires i < |s.frame.temps|
    ensures ReadOp(p, s, TmpOp(i)) == Some(s.frame.temps[i])
  {
  }

  lemma LeaveAt(c: Ctx, f: nat)
    requires Linked(c.p, c.g) && f < |c.g|
    ensures CodeAt(c.p, BodyGoal(c.p, c.g[f], c.p.funs[f], 0).end, [Ins0(LEAVE)])
  {
    hide CodeAt, CodeS;
    assert FunLinked(c.p, c.g[f], c.p.funs[f]);
    var at: Pos :| at.pc == c.p.funs[f].addr && FunAt(c.p, c.g[f], at);
    CodeSplit(c.p, at.pc, CodeS(c.g[f].prologue, at, 0, 0) + CodeS(c.g[f].body, AfterS(c.g[f].prologue, at), 0, 0),
              [Ins0(LEAVE)]);
  }

  /** FCALL: the callee runs in a new frame and control resumes after the call, with the result, if any,
      in the call's temporary. */
  lemma SimInvoke(c: Ctx, i: IR, s: State, fval: Val, vs: seq<Val>, t: nat) returns (n: nat)
    requires Setup(c) && CodeAt(c.p, s.pc, [i])
    requires i.op.FCALL? && i.result == TmpOp(i.result.off.idx) && t <= i.result.off.idx < |s.frame.temps|
    requires s.status.Running? && s.exc.None?
    requires ReadOp(c.p, s, i.op1) == Some(fval) && LoadAll(c.p, s, s.args) == Some(vs)
    ensures var o := Invoke(c.g, c.fuel, fval, vs, s.heap);
            var s' := Steps(c.p, s, n);
            Sim(c.p, s.(args := []), s', n, o, Goal(s.pc + 1, 0, 0, t, c.fuel))
            && (o.Norm? ==> Denotes(c.p, s', i.result, o.res))
  {
    hide Steps, CodeAt, ReadOp, LoadAll, Exec, Activate, ArityOk, FunLinked, CallsOk;
    var o := Invoke(c.g, c.fuel, fval, vs, s.heap);
    if o.Stuck? || (c.fuel == 0 && o.Timeout?) {
      n := 0;
      StepsNone(c.p, s);
    } else {
      CallStep(c.p, s, i, fval, vs);
      if !fval.Func? {
        n := 1;
      } else {
        HeaderOf(c, fval.id);
        if !ArityOk(c.g[fval.id].header, |vs|) {
          n := 1;
        } else {
          ActivateNonempty(s.heap, c.g[fval.id].header, vs);
          n := SimBody(c, fval.id, i, s, vs, t);
        }
      }
    }
  }

  lemma ActivateNonempty(h: Heap, f: Header, args: seq<Val>)
    ensures Activate(h, f, args).Some? ==> h != []
  {
  }

  lemma HeaderOf(c: Ctx, f: nat)
    requires Linked(c.p, c.g) && f < |c.g|
    ensures c.p.funs[f].header == c.g[f].header && c.p.funs[f].temps == TmpsS(c.g[f].prologue) + TmpsS(c.g[f].body)
  {
    assert FunLinked(c.p, c.g[f], c.p.funs[f]);
  }

  lemma SimBody(c: Ctx, f: nat, i: IR, s: State, vs: seq<Val>, t: nat) returns (n: nat)
    requires Setup(c) && f < |c.g| && c.fuel > 0 && s.heap != []
    requires i.result == TmpOp(i.result.off.idx) && t <= i.result.off.idx < |s.frame.temps|
    requires s.status.Running? && s.exc.None?
    requires Activate(s.heap, c.g[f].header, vs).Some? && ArityOk(c.g[f].header, |vs|)
    requires Steps(c.p, s, 1) == Entered(s, c.p.funs[f], Activate(s.heap, c.g[f].header, vs).value, i.result.off.idx)
    ensures var o := Invoke(c.g, c.fuel, Func(f), vs, s.heap);
            var s' := Steps(c.p, s, n);
            Sim(c.p, s.(args := []), s', n, o, Goal(s.pc + 1, 0, 0, t, c.fuel))
            && (o.Norm? ==> Denotes(c.p, s', i.result, o.res))
  {
    hide Steps, Activate, ArityOk, FunLinked, Exec, Denotes;
    HeaderOf(c, f);
    var info := c.p.funs[f];
    var h1 := Activate(s.heap, c.g[f].header, vs).value;
    var s1 := Entered(s, info, h1, i.result.off.idx);
    assert Ready(s1, info.addr, info.temps);
    assert BodyOk(c.p, c.g, c.fuel - 1, f, s1);
    hide CallsOk;
    var ob := Exec(c.g, c.fuel - 1, Ast.Seq(c.g[f].prologue, c.g[f].body), h1, |s.heap|);
    var m: nat :| Run(c.p, s1, m, ob, BodyGoal(c.p, c.g[f], info, c.fuel - 1));
    StepsAdd(c.p, s, 1, m);
    n := 1 + m;
    var s2 := Steps(c.p, s1, m);
    if ob.Norm? {
      FinishLeave(c, f, s, h1, i.result.off.idx, m, ob, t);
      StepsAdd(c.p, s, n, 1);
      n := n + 1;
    } else if ob.Ret? && (ob.res.Junk? || Deref(ob.res, ob.h, |s.heap|).Some?) {
      FinishReturn(c.p, s, s2, i.result.off.idx, ob.res, t);
      StepsAdd(c.p, s, n, 1);
      n := n + 1;
    } else if ob.Thr? {
      assert Pending(s.(args := []), s2, ob.ex, ob.dirty);
    }
  }

  lemma SimCall(c: Ctx, e: Expr, at: Pos, s: State) returns (n: nat)
    requires e.Call?
    requires EnterE(c, e, at, s)
    ensures RunE(c.p, s, n, EvalCall(c.g, c.fuel, e, s.heap, s.frame.env), GoalE(c, e, at), OpE(e, at))
    decreases e, 1
  {
    hide Steps, CodeAt, PoolAt, Setup, ReadOp, Eval, Invoke, Deref, AllDenote, Denotes, CodeE, CodeA, PoolE, PoolA,
      SizeE,
      SizeA, TmpsE, TmpsA, OpE, OpsA, Sends;
    CallParts(e, at);
    var f, args, at1 := e.callee, e.args, AfterE(e.callee, at);
    var i := IR(FCALL, OpE(f, at), NO_OPERAND, OpE(e, at));
    CodeSplit(c.p, at.pc, CodeE(f, at) + CodeA(args, at1) + Sends(args, at1), [i]);
    CodeSplit(c.p, at.pc, CodeE(f, at) + CodeA(args, at1), Sends(args, at1));
    CodeSplit(c.p, at.pc, CodeE(f, at), CodeA(args, at1));
    PoolSplit(c.p, at.k, PoolE(f), PoolA(args));
    n := SimExpr(c, f, at, s);
    var o1 := Eval(c.g, c.fuel, f, s.heap, s.frame.env);
    if o1.Norm? {
      var s1 := Steps(c.p, s, n);
      var m := SimArgs(c, args, at1, s1);
      var o2 := EvalArgs(c.g, c.fuel, args, o1.h, s.frame.env);
      if o2.ArgsFail? {
        RunElsewhere(c.p, s1, m, o2.o, Goal(0, 0, 0, at1.t, c.fuel), GoalE(c, e, at).(t := at1.t));
        RunThen(c.p, s, n, at1.pc, o1.h, m, o2.o, GoalE(c, e, at), at1.t);
        n := n + m;
      } else {
        ArriveThen(c.p, s, n, at1.pc, o1.h, at.t, m, AfterA(args, at1).pc, o2.h, at1.t);
        OpBound(f, at);
        DenotesKept(c.p, s1, Steps(c.p, s, n + m), OpE(f, at), o1.res, at1.t);
        var fval, vs := Deref(o1.res, o2.h, s.frame.env), DerefAll(o2.rs, o2.h, s.frame.env);
        n := n + m;
        if fval.Some? && vs.Some? {
          n := SimCallTail(c, e, at, s, n, o2.h, i, o1.res, fval.value, o2.rs, vs.value);
        }
      }
    } else {
      RunElsewhere(c.p, s, n, o1, GoalE(c, f, at), GoalE(c, e, at));
    }
  }

  /** The sends and the call itself, `n` steps into a call expression. */
  lemma SimCallTail(c: Ctx, e: Expr, at: Pos, s: State, n: nat, h: Heap, i: IR, rc: Res, fval: Val,
                    rs: seq<Res>, vs: seq<Val>) returns (n': nat)
    requires e.Call? && Setup(c)
    requires var at1 := AfterE(e.callee, at); var s2 := Steps(c.p, s, n);
             && Arrive(c.p, s, n, AfterA(e.args, at1).pc, h, at.t)
             && CodeAt(c.p, AfterA(e.args, at1).pc, Sends(e.args, at1))
             && CodeAt(c.p, AfterA(e.args, at1).pc + CountA(e.args), [i])
             && Denotes(c.p, s2, i.op1, rc) && AllDenote(c.p, s2, OpsA(e.args, at1), rs)
    requires i == IR(FCALL, OpE(e.callee, at), NO_OPERAND, OpE(e, at)) && OpE(e, at).off.idx < |s.frame.temps|
    requires Deref(rc, h, s.frame.env) == Some(fval) && DerefAll(rs, h, s.frame.env) == Some(vs)
    ensures RunE(c.p, s, n', Invoke(c.g, c.fuel, fval, vs, h), GoalE(c, e, at), OpE(e, at))
  {
    hide Steps, CodeAt, Setup, ReadOp, Invoke, Deref, AllDenote, Denotes, DerefAll, Sends, OpsA;
    var at1, s2 := AfterE(e.callee, at), Steps(c.p, s, n);
    assert LoadAll(c.p, s2, []) == Some([]);
    var q, s3 := SimSends(c.p, e.args, at1, s2, rs, [], vs);
    hide LoadAll;
    assert [] + vs == vs;
    ReadDenoted(c.p, s2, i.op1, rc, fval);
    ReadSame(c.p, s2, s3, i.op1);
    var r := SimInvoke(c, i, s3, fval, vs, at.t);
    StepsAdd(c.p, s, n, q);
    StepsAdd(c.p, s, n + q, r);
    n' := n + q + r;
    var o := Invoke(c.g, c.fuel, fval, vs, h);
    SimBack(c.p, s, s3.(args := []), Steps(c.p, s, n'), r, n', o, GoalE(c, e, at), s3.pc, h);
  }

  lemma ReadSame(p: Program, s: State, s': State, o: Operand)
    requires s'.heap == s.heap && s'.frame == s.frame
    ensures ReadOp(p, s', o) == ReadOp(p, s, o)
  {
  }

  lemma SimBack(p: Program, s: State, s1: State, s2: State, n: nat, n': nat, o: Out, to: Goal, pc: nat, h: Heap)
    requires At(s, s1, pc, h, to.t) && n <= n'
    requires Sim(p, s1, s2, n, o, Goal(to.end, 0, 0, to.t, to.fuel)) && !o.Brk? && !o.Cont?
    ensures Sim(p, s, s2, n', o, to)
  {
  }

  // ----- all expressions -----

  /** Every compiled expression leaves the evaluator's result in its operand, with the evaluator's store,
      and touches no temporary allocated before it. */
  lemma {:induction false} SimExpr(c: Ctx, e: Expr, at: Pos, s: State) returns (n: nat)
    requires EnterE(c, e, at, s)
    ensures DoneE(c, e, at, s, n)
    decreases e, 3
  {
    hide Steps, CodeAt, PoolAt, Setup, CodeE, PoolE, SizeE, TmpsE, OpE, Denotes, Run;
    match e
    case Literal(_) => n := SimLeaf(c, e, at, s);
    case Ident(_) => n := SimLeaf(c, e, at, s);
    case Binary(_, _, _) => n := SimBinary(c, e, at, s);
    case Comparison(_, _, _) => n := SimBinary(c, e, at, s);
    case Augmented(_, _, _) => n := SimAugmented(c, e, at, s);
    case Logic(_, _, _) => n := SimShort(c, e, at, s);
    case Boolean(_, _, _) => n := SimShort(c, e, at, s);
    case Negate(_) => n := SimUnary(c, e, at, s);
    case Complement(_) => n := SimUnary(c, e, at, s);
    case IncDec(_, _) => n := SimLeaf(c, e, at, s);
    case AssignTo(_, _) => n := SimAssignTo(c, e, at, s);
    case Call(_, _) => n := SimCall(c, e, at, s);
  }

  /** Expressions without expressions in them. */
  lemma SimLeaf(c: Ctx, e: Expr, at: Pos, s: State) returns (n: nat)
    requires e.Literal? || e.Ident? || e.IncDec?
    requires EnterE(c, e, at, s)
    ensures DoneE(c, e, at, s, n)
  {
    match e
    case Literal(l) =>
      n := 0;
      if l.IntLit? {
        assert c.p.consts[at.k] == c.p.consts[at.k..at.k + 1][0] == Int(l.n);
      }
    case Ident(_) => n := 0;
    case IncDec(step, x) =>
      IncDecStep(c.p, s, step, x, at.t, c.fuel, at.t);
      n := 1;
  }
}
