/** Compiled statements simulate the evaluator. */
module StatementProof {
  import opened Values
  import opened Store
  import opened Ast
  import opened Machine
  import opened Semantics
  import opened Layout
  import opened Simulation
  import opened ExpressionProof

  /** The targets of `break` and `continue` around a statement. */
  datatype Exits = Exits(brk: nat, cont: nat)

  ghost predicate EnterS(c: Ctx, s: Stmt, at: Pos, x: Exits, st: State) {
    && Setup(c)
    && CodeAt(c.p, at.pc, CodeS(s, at, x.brk, x.cont)) && PoolAt(c.p, at.k, PoolS(s))
    && Ready(st, at.pc, at.t + TmpsS(s))
  }

  function GoalS(c: Ctx, s: Stmt, at: Pos, x: Exits): Goal {
    Goal(at.pc + SizeS(s), x.brk, x.cont, at.t, c.fuel)
  }

  ghost predicate DoneS(c: Ctx, s: Stmt, at: Pos, x: Exits, st: State, n: nat) {
    Run(c.p, st, n, Exec(c.g, c.fuel, s, st.heap, st.frame.env), GoalS(c, s, at, x))
  }

  // ----- single instructions -----

  /** An instruction that only moves the program counter. */
  lemma JumpStep(p: Program, st: State, i: IR, to: nat)
    requires CodeAt(p, st.pc, [i]) && Ready(st, st.pc, 0)
    requires Execute(p, st, i) == st.(pc := to)
    ensures Arrive(p, st, 1, to, st.heap, |st.frame.temps|)
  {
    hide Execute;
    OneStep(p, st, st.pc, i);
  }

  lemma BranchStep(p: Program, st: State, o: Operand, v: Val, to: nat)
    requires CodeAt(p, st.pc, [Ins2(JMPZ, o, Addr(to))]) && Ready(st, st.pc, 0) && ReadOp(p, st, o) == Some(v)
    ensures Arrive(p, st, 1, if Truthy(v) then st.pc + 1 else to, st.heap, |st.frame.temps|)
  {
    JumpStep(p, st, Ins2(JMPZ, o, Addr(to)), if Truthy(v) then st.pc + 1 else to);
  }

  lemma RetStep(p: Program, st: State, i: IR, r: Res, to: Goal)
    requires CodeAt(p, st.pc, [i]) && Ready(st, st.pc, to.t) && i.op.RET?
    requires (i == Ins0(RET) && r.Junk?) || Denotes(p, st, i.op1, r)
    ensures Run(p, st, 0, Ret(r, st.heap), to)
  {
    assert Same(p.code[st.pc + 0], [i][0]);
    var o := p.code[st.pc].op1;
    assert ReadOp(p, st, o) == ReadOp(p, st, i.op1);
  }

  lemma ThrowStep(p: Program, st: State, o: Operand, v: Val, to: Goal)
    requires CodeAt(p, st.pc, [Ins1(THROW, o)]) && Ready(st, st.pc, to.t) && ReadOp(p, st, o) == Some(v)
    ensures Run(p, st, 1, Thr(v, false, st.heap), to)
  {
    OneStep(p, st, st.pc, Ins1(THROW, o));
  }

  /** A run continued by a jump. */
  lemma ThenJump(p: Program, st: State, n: nat, pc: nat, h: Heap, t: nat, i: IR, to: nat)
    requires Arrive(p, st, n, pc, h, t) && CodeAt(p, pc, [i]) && st.args == []
    requires i == Ins1(JMP, Addr(to)) || ((i == Ins0(BSCOPE) || i == Ins0(ESCOPE)) && to == pc + 1)
    ensures Arrive(p, st, n + 1, to, h, t)
  {
    hide Steps, CodeAt;
    var s1 := Steps(p, st, n);
    JumpStep(p, s1, i, to);
    ArriveThen(p, st, n, pc, h, t, 1, to, h, |s1.frame.temps|);
  }

  // ----- straight-line statements -----

  lemma SimSeq(c: Ctx, s: Stmt, at: Pos, x: Exits, st: State) returns (n: nat)
    requires s.Seq? && EnterS(c, s, at, x, st)
    ensures DoneS(c, s, at, x, st, n)
    decreases c.fuel, s, 3
  {
    hide Steps, CodeAt, PoolAt, Setup, CodeS, PoolS, SizeS, TmpsS;
    var at1 := AfterS(s.s1, at);
    SeqParts(s.s1, s.s2);
    SeqCodeParts(s.s1, s.s2, at, x.brk, x.cont);
    CodeSplit(c.p, at.pc, CodeS(s.s1, at, x.brk, x.cont), CodeS(s.s2, at1, x.brk, x.cont));
    PoolSplit(c.p, at.k, PoolS(s.s1), PoolS(s.s2));
    n := SimS(c, s.s1, at, x, st);
    var o1 := Exec(c.g, c.fuel, s.s1, st.heap, st.frame.env);
    if o1.Norm? {
      var m := SimS(c, s.s2, at1, x, Steps(c.p, st, n));
      RunThen(c.p, st, n, at1.pc, o1.h, m, Exec(c.g, c.fuel, s.s2, o1.h, st.frame.env), GoalS(c, s, at, x), at1.t);
      n := n + m;
    } else {
      RunElsewhere(c.p, st, n, o1, GoalS(c, s.s1, at, x), GoalS(c, s, at, x));
    }
  }

  lemma SimBlock(c: Ctx, s: Stmt, at: Pos, x: Exits, st: State) returns (n: nat)
    requires s.Block? && EnterS(c, s, at, x, st)
    ensures DoneS(c, s, at, x, st, n)
    decreases c.fuel, s, 3
  {
    hide Steps, CodeAt, PoolAt, Setup;
    var b, at1 := s.s, Past(at, 1);
    CodeSplit(c.p, at.pc, [Ins0(BSCOPE)] + CodeS(b, at1, x.brk, x.cont), [Ins0(ESCOPE)]);
    CodeSplit(c.p, at.pc, [Ins0(BSCOPE)], CodeS(b, at1, x.brk, x.cont));
    JumpStep(c.p, st, Ins0(BSCOPE), at.pc + 1);
    var m := SimS(c, b, at1, x, Steps(c.p, st, 1));
    var o := Exec(c.g, c.fuel, b, st.heap, st.frame.env);
    var goal := GoalS(c, b, at1, x);
    RunThen(c.p, st, 1, at1.pc, st.heap, m, o, goal, at.t);
    n := 1 + m;
    if o.Norm? {
      ThenJump(c.p, st, n, goal.end, o.h, at.t, Ins0(ESCOPE), goal.end + 1);
      n := n + 1;
    } else {
      RunElsewhere(c.p, st, n, o, goal, GoalS(c, s, at, x));
    }
  }

  /** The assignment at the end of an assignment statement, `n` steps into it. */
  lemma SimAssign(c: Ctx, x: Off, e: Expr, at: Pos, st: State, to: Goal) returns (n: nat)
    requires EnterE(c, e, at, st) && CodeAt(c.p, at.pc + SizeE(e), [Ins2(ASSIGN, VarOp(x), OpE(e, at))])
    requires to.end == at.pc + SizeE(e) + 1 && to.t == at.t && to.fuel == c.fuel
    ensures var o := Eval(c.g, c.fuel, e, st.heap, st.frame.env);
            Run(c.p, st, n, if o.Norm? then Discard(Put(o.res, o.h, st.frame.env, x)) else o, to)
  {
    hide Steps, CodeAt, PoolAt, Setup, ReadOp, Put, CodeE, Eval, OpE;
    n := SimExpr(c, e, at, st);
    var o1 := Eval(c.g, c.fuel, e, st.heap, st.frame.env);
    if o1.Norm? {
      var i := Ins2(ASSIGN, VarOp(x), OpE(e, at));
      AssignStep(c.p, Steps(c.p, st, n), i, x, o1.res, c.fuel, at.t);
      var o := Put(o1.res, o1.h, st.frame.env, x);
      PutOutcome(o1.res, o1.h, st.frame.env, x);
      RunThen(c.p, st, n, at.pc + SizeE(e), o1.h, 1, o, Goal(to.end, 0, 0, at.t, c.fuel), at.t);
      n := n + 1;
    } else {
      RunElsewhere(c.p, st, n, o1, GoalE(c, e, at), to);
    }
  }

  lemma PutOutcome(r: Res, h: Heap, env: nat, x: Off)
    ensures var o := Put(r, h, env, x); o.Norm? || o.Error? || o.Stuck?
  {
  }

  lemma SimAssignUnless(c: Ctx, s: Stmt, at: Pos, x: Exits, st: State) returns (n: nat)
    requires s.AssignUnless? && EnterS(c, s, at, x, st)
    ensures DoneS(c, s, at, x, st, n)
  {
    hide Steps, CodeAt, PoolAt, Setup, Put, Eval, Discard;
    var jump, assign := Ins2(JMPNZ, VarOp(s.x), Addr(at.pc + 2)), Ins2(ASSIGN, VarOp(s.x), OpE(s.e, at));
    var v := ReadVar(st.heap, st.frame.env, s.x);
    if v.Some? && Inline(s.e) {
      CodeSplit(c.p, at.pc, [jump] + CodeE(s.e, Past(at, 1)), [assign]);
      CodeSplit(c.p, at.pc, [jump], CodeE(s.e, Past(at, 1)));
      JumpStep(c.p, st, jump, if Truthy(v.value) then at.pc + 2 else at.pc + 1);
      n := 1;
      if !Truthy(v.value) {
        var m := SimAssign(c, s.x, s.e, Past(at, 1), Steps(c.p, st, 1), GoalS(c, s, at, x));
        var o := Eval(c.g, c.fuel, s.e, st.heap, st.frame.env);
        RunThen(c.p, st, 1, at.pc + 1, st.heap, m, if o.Norm? then Discard(Put(o.res, o.h, st.frame.env, s.x)) else o,
                GoalS(c, s, at, x), at.t);
        n := 1 + m;
      }
    } else {
      n := 0;
    }
  }

  lemma SimSimple(c: Ctx, s: Stmt, at: Pos, x: Exits, st: State) returns (n: nat)
    requires s.Do? || s.Assign? || s.ReturnVal? || s.Throw?
    requires EnterS(c, s, at, x, st)
    ensures DoneS(c, s, at, x, st, n)
  {
    hide Steps, CodeAt, PoolAt, Setup, ReadOp, Eval, Put, CodeE;
    var e := s.e;
    match s
    case Do(_) =>
      n := SimExpr(c, e, at, st);
      var o := Eval(c.g, c.fuel, e, st.heap, st.frame.env);
      if !o.Norm? {
        RunElsewhere(c.p, st, n, o, GoalE(c, e, at), GoalS(c, s, at, x));
      }
    case Assign(y, _) =>
      CodeSplit(c.p, at.pc, CodeE(e, at), [Ins2(ASSIGN, VarOp(y), OpE(e, at))]);
      n := SimAssign(c, y, e, at, st, GoalS(c, s, at, x));
    case ReturnVal(_) =>
      CodeSplit(c.p, at.pc, CodeE(e, at), [Ins1(RET, OpE(e, at))]);
      n := SimExpr(c, e, at, st);
      var o := Eval(c.g, c.fuel, e, st.heap, st.frame.env);
      if o.Norm? {
        RetStep(c.p, Steps(c.p, st, n), Ins1(RET, OpE(e, at)), o.res, GoalS(c, s, at, x));
        RunThen(c.p, st, n, at.pc + SizeE(e), o.h, 0, Ret(o.res, o.h), GoalS(c, s, at, x), at.t);
      } else {
        RunElsewhere(c.p, st, n, o, GoalE(c, e, at), GoalS(c, s, at, x));
      }
    case Throw(_) =>
      CodeSplit(c.p, at.pc, CodeE(e, at), [Ins1(THROW, OpE(e, at))]);
      n := SimDemand(c, e, at, st);
      var r := Demand(Eval(c.g, c.fuel, e, st.heap, st.frame.env), st.frame.env);
      if r.Got? {
        ThrowStep(c.p, Steps(c.p, st, n), OpE(e, at), r.v, GoalS(c, s, at, x));
        RunThen(c.p, st, n, at.pc + SizeE(e), r.h, 1, Thr(r.v, false, r.h), GoalS(c, s, at, x), at.t);
        n := n + 1;
      } else {
        RunElsewhere(c.p, st, n, r.o, GoalE(c, e, at), GoalS(c, s, at, x));
      }
  }

  // ----- conditionals -----

  ghost predicate EnterB(c: Ctx, bs: Branches, at: Pos, end: nat, x: Exits, st: State) {
    && Setup(c)
    && CodeAt(c.p, at.pc, CodeB(bs, at, Addr(end), x.brk, x.cont)) && PoolAt(c.p, at.k, PoolB(bs))
    && Ready(st, at.pc, at.t + TmpsB(bs))
    && end == at.pc + SizeB(bs)
  }

  lemma SimBranches(c: Ctx, bs: Branches, at: Pos, end: nat, x: Exits, st: State) returns (n: nat)
    requires EnterB(c, bs, at, end, x, st)
    ensures Run(c.p, st, n, ExecIf(c.g, c.fuel, bs, st.heap, st.frame.env), Goal(end, x.brk, x.cont, at.t, c.fuel))
    decreases c.fuel, bs, 0
  {
    hide Steps, CodeAt, PoolAt, Setup, ReadOp, Eval, CodeE, CodeS;
    match bs
    case Else(s) => n := SimS(c, s, at, x, st);
    case Branch(cond, block, rest) =>
      var to := Goal(end, x.brk, x.cont, at.t, c.fuel);
      var at1, at2 := Past(AfterE(cond, at), 1), RestAt(bs, at);
      var test, leave := Ins2(JMPZ, OpE(cond, at), Addr(at2.pc)), Ins1(JMP, Addr(end));
      var a, b := CodeE(cond, at), CodeS(block, at1, x.brk, x.cont);
      CodeSplit(c.p, at.pc, a + [test] + b + [leave], CodeB(rest, at2, Addr(end), x.brk, x.cont));
      CodeSplit(c.p, at.pc, a + [test] + b, [leave]);
      CodeSplit(c.p, at.pc, a + [test], b);
      CodeSplit(c.p, at.pc, a, [test]);
      PoolSplit(c.p, at.k, PoolE(cond) + PoolS(block), PoolB(rest));
      PoolSplit(c.p, at.k, PoolE(cond), PoolS(block));
      n := SimDemand(c, cond, at, st);
      var r := Demand(Eval(c.g, c.fuel, cond, st.heap, st.frame.env), st.frame.env);
      if r.Got? {
        var s1 := Steps(c.p, st, n);
        BranchStep(c.p, s1, OpE(cond, at), r.v, at2.pc);
        var pc := if Truthy(r.v) then at1.pc else at2.pc;
        ArriveThen(c.p, st, n, AfterE(cond, at).pc, r.h, at.t, 1, pc, r.h, |s1.frame.temps|);
        n := n + 1;
        if Truthy(r.v) {
          var m := SimS(c, block, at1, x, Steps(c.p, st, n));
          var o := Exec(c.g, c.fuel, block, r.h, st.frame.env);
          RunThen(c.p, st, n, pc, r.h, m, o, GoalS(c, block, at1, x).(t := at.t), at1.t);
          n := n + m;
          if o.Norm? {
            ThenJump(c.p, st, n, at1.pc + SizeS(block), o.h, at.t, leave, end);
            n := n + 1;
          } else {
            RunElsewhere(c.p, st, n, o, GoalS(c, block, at1, x).(t := at.t), to);
          }
        } else {
          var m := SimBranches(c, rest, at2, end, x, Steps(c.p, st, n));
          RunThen(c.p, st, n, pc, r.h, m, ExecIf(c.g, c.fuel, rest, r.h, st.frame.env), to, at2.t);
          n := n + m;
        }
      } else {
        RunElsewhere(c.p, st, n, r.o, GoalE(c, cond, at), to);
      }
  }

  // ----- loops -----

  /** The instruction at the start of an expression's code is never a jump through its first operand. */
  predicate Patchable(i: IR) {
    !i.op1.kind.JmpAddr? && !i.op.JMP? && !i.op.TRY?
  }

  lemma {:induction false} FirstInstruction(e: Expr, at: Pos)
    ensures SizeE(e) > 0 ==> Patchable(CodeE(e, at)[0])
    decreases e
  {
    OpBoundKind(e, at);
    match e
    case Binary(_, l, r) =>
      FirstInstruction(l, at);
      FirstInstruction(r, AfterE(l, at));
      OpBoundKind(l, at);
      assert SizeE(l) > 0 ==> CodeE(e, at)[0] == CodeE(l, at)[0];
    case Comparison(_, l, r) =>
      FirstInstruction(l, at);
      FirstInstruction(r, AfterE(l, at));
      OpBoundKind(l, at);
    case Augmented(_, _, r) => FirstInstruction(r, at);
    case Logic(_, l, _) => FirstInstruction(l, at); OpBoundKind(l, at);
    case Boolean(_, l, _) => FirstInstruction(l, at); OpBoundKind(l, at);
    case Negate(a) => FirstInstruction(a, at); OpBoundKind(a, at);
    case Complement(a) => FirstInstruction(a, at); OpBoundKind(a, at);
    case AssignTo(_, a) => FirstInstruction(a, at);
    case Call(f, args) =>
      FirstInstruction(f, at);
      FirstArgument(args, AfterE(f, at));
      OpBoundKind(f, at);
    case _ =>
  }

  lemma {:induction false} FirstArgument(es: Exprs, at: Pos)
    ensures SizeA(es) > 0 ==> Patchable(CodeA(es, at)[0])
    ensures CountA(es) > 0 ==> Patchable(Sends(es, at)[0])
    decreases es
  {
    if es.Exprs? {
      FirstInstruction(es.head, at);
      FirstArgument(es.rest, AfterE(es.head, at));
      OpBoundKind(es.head, at);
    }
  }

  lemma OpBoundKind(e: Expr, at: Pos)
    ensures !OpE(e, at).kind.JmpAddr?
  {
  }

  /** Patching the loop-start sentinel leaves the loop's code in place. */
  lemma SentinelInert(p: Program, pc: nat, code: seq<IR>, a: nat)
    requires CodeAt(p, pc, Sentinel(code, a)) && (code != [] ==> Patchable(code[0]))
    ensures CodeAt(p, pc, code)
  {
    forall i | 0 <= i < |code| ensures Same(p.code[pc + i], code[i]) {
      assert Same(p.code[pc + i], Sentinel(code, a)[i]);
    }
  }

  lemma LoopInert(c: Ctx, s: Stmt, at: Pos, x: Exits)
    requires s.Loop? && WellMade(s) && CodeAt(c.p, at.pc, CodeS(s, at, x.brk, x.cont))
    ensures CodeAt(c.p, at.pc, LoopCode(s, at))
  {
    hide CodeAt, CodeC, LoopCode, Sentinel;
    LoopStart(s, at);
    SentinelInert(c.p, at.pc, LoopCode(s, at), at.pc + SizeS(s));
  }

  /** A loop starts with its condition, or with the opening of its body. */
  lemma LoopStart(s: Stmt, at: Pos)
    requires s.Loop? && WellMade(s)
    ensures LoopCode(s, at) != [] && Patchable(LoopCode(s, at)[0])
  {
    hide CodeC, CodeS, Patchable;
    var end := at.pc + SizeS(s);
    var body := CodeS(s.body, AfterC(s.cond, at), end, ContinueAddr(s, at));
    CondStart(s.cond, at, end);
    BlockStart(s.body, AfterC(s.cond, at), end, ContinueAddr(s, at));
    assert LoopCode(s, at)[0] == (CodeC(s.cond, at, end) + body)[0];
  }

  lemma CondStart(c: Cond, at: Pos, end: nat)
    ensures if c.When? then CodeC(c, at, end) != [] && Patchable(CodeC(c, at, end)[0]) else CodeC(c, at, end) == []
  {
    hide CodeE, OpE;
    if c.When? {
      FirstInstruction(c.e, at);
      OpBoundKind(c.e, at);
    }
  }

  lemma BlockStart(s: Stmt, at: Pos, brk: nat, cont: nat)
    requires s.Block?
    ensures CodeS(s, at, brk, cont) != [] && Patchable(CodeS(s, at, brk, cont)[0])
  {
  }

  ghost predicate LoopParts(c: Ctx, s: Stmt, at: Pos)
    requires s.Loop?
  {
    var bodyAt := AfterC(s.cond, at);
    var updateAt := AfterS(s.body, bodyAt);
    && CodeAt(c.p, at.pc, CodeC(s.cond, at, at.pc + SizeS(s))) && PoolAt(c.p, at.k, PoolC(s.cond))
    && CodeAt(c.p, bodyAt.pc, CodeS(s.body, bodyAt, at.pc + SizeS(s), ContinueAddr(s, at)))
    && PoolAt(c.p, bodyAt.k, PoolS(s.body))
    && CodeAt(c.p, updateAt.pc, CodeS(s.update, updateAt, 0, 0)) && PoolAt(c.p, updateAt.k, PoolS(s.update))
    && CodeAt(c.p, AfterS(s.update, updateAt).pc, [Ins1(JMP, Addr(at.pc))])
  }

  lemma SplitLoop(c: Ctx, s: Stmt, at: Pos, x: Exits)
    requires s.Loop? && WellMade(s)
    requires CodeAt(c.p, at.pc, CodeS(s, at, x.brk, x.cont)) && PoolAt(c.p, at.k, PoolS(s))
    ensures LoopParts(c, s, at)
  {
    hide CodeAt, PoolAt, CodeS, CodeC;
    LoopInert(c, s, at, x);
    var bodyAt := AfterC(s.cond, at);
    var updateAt := AfterS(s.body, bodyAt);
    var cond := CodeC(s.cond, at, at.pc + SizeS(s));
    var body := CodeS(s.body, bodyAt, at.pc + SizeS(s), ContinueAddr(s, at));
    var update := CodeS(s.update, updateAt, 0, 0);
    CodeSplit(c.p, at.pc, cond + body + update, [Ins1(JMP, Addr(at.pc))]);
    CodeSplit(c.p, at.pc, cond + body, update);
    CodeSplit(c.p, at.pc, cond, body);
    PoolSplit(c.p, at.k, PoolC(s.cond) + PoolS(s.body), PoolS(s.update));
    PoolSplit(c.p, at.k, PoolC(s.cond), PoolS(s.body));
  }

  lemma SimLoop(c: Ctx, s: Stmt, at: Pos, x: Exits, st: State) returns (n: nat)
    requires s.Loop? && EnterS(c, s, at, x, st)
    ensures DoneS(c, s, at, x, st, n)
    decreases c.fuel, s, 3
  {
    hide Steps, CodeAt, PoolAt, Setup, ReadOp, Eval, CodeE, CodeS, Iterate;
    if !WellMade(s) || c.fuel == 0 {
      n := 0;
      StepsNone(c.p, st);
    } else {
      SplitLoop(c, s, at, x);
      var bodyAt := AfterC(s.cond, at);
      var to := GoalS(c, s, at, x);
      if s.cond.Always? {
        n := SimIterate(c, s, at, x, st);
      } else {
        var e := s.cond.e;
        var test := Ins2(JMPZ, OpE(e, at), Addr(at.pc + SizeS(s)));
        CodeSplit(c.p, at.pc, CodeE(e, at), [test]);
        n := SimDemand(c, e, at, st);
        var r := Demand(Eval(c.g, c.fuel, e, st.heap, st.frame.env), st.frame.env);
        if r.Got? {
          var s1 := Steps(c.p, st, n);
          BranchStep(c.p, s1, OpE(e, at), r.v, at.pc + SizeS(s));
          var pc := if Truthy(r.v) then bodyAt.pc else at.pc + SizeS(s);
          ArriveThen(c.p, st, n, AfterE(e, at).pc, r.h, at.t, 1, pc, r.h, |s1.frame.temps|);
          n := n + 1;
          if Truthy(r.v) {
            var m := SimIterate(c, s, at, x, Steps(c.p, st, n));
            RunThen(c.p, st, n, pc, r.h, m, Iterate(c.g, c.fuel, s, r.h, st.frame.env), to, at.t);
            n := n + m;
          }
        } else {
          RunElsewhere(c.p, st, n, r.o, GoalE(c, e, at), to);
        }
      }
    }
  }

  /** From the start of the body: one iteration, and the iterations after it. */
  lemma SimIterate(c: Ctx, s: Stmt, at: Pos, x: Exits, st: State) returns (n: nat)
    requires s.Loop? && WellMade(s) && c.fuel > 0 && Setup(c) && LoopParts(c, s, at)
    requires CodeAt(c.p, at.pc, CodeS(s, at, x.brk, x.cont)) && PoolAt(c.p, at.k, PoolS(s))
    requires Ready(st, AfterC(s.cond, at).pc, at.t + TmpsS(s))
    ensures Run(c.p, st, n, Iterate(c.g, c.fuel, s, st.heap, st.frame.env), GoalS(c, s, at, x))
    decreases c.fuel, s, 2
  {
    hide Steps, CodeAt, PoolAt, Setup, CodeS, CodeC, Exec;
    var bodyAt, to := AfterC(s.cond, at), GoalS(c, s, at, x);
    var updateAt := AfterS(s.body, bodyAt);
    var inner := Exits(at.pc + SizeS(s), ContinueAddr(s, at));
    n := SimS(c, s.body, bodyAt, inner, st);
    var o := Exec(c.g, c.fuel, s.body, st.heap, st.frame.env);
    if o.Norm? || o.Cont? {
      var pc := if o.Norm? then updateAt.pc else inner.cont;
      var m;
      if pc == updateAt.pc {
        m := SimRepeat(c, s, at, x, Steps(c.p, st, n));
      } else {
        m := SimAgain(c, s, at, x, Steps(c.p, st, n));
      }
      Moved(c.p, st, n, pc, o.h, at.t);
      RunLater(c.p, st, n, pc, o.h, m, Repeat(c.g, c.fuel, s, o.h, st.frame.env), to);
      n := n + m;
    } else if !o.Brk? {
      RunElsewhere(c.p, st, n, o, GoalS(c, s.body, bodyAt, inner), to);
    }
  }

  lemma LessFuel(c: Ctx)
    requires Setup(c) && c.fuel > 0
    ensures Setup(c.(fuel := c.fuel - 1))
  {
    hide Linked, BodyOk;
  }

  /** Control that moved took a step. */
  lemma Moved(p: Program, st: State, n: nat, pc: nat, h: Heap, t: nat)
    requires Arrive(p, st, n, pc, h, t) && pc != st.pc
    ensures n > 0
  {
  }

  /** After at least one step, a run that is good for one unit of fuel less will do. */
  lemma RunLater(p: Program, st: State, m: nat, pc: nat, h: Heap, n: nat, o: Out, to: Goal)
    requires Arrive(p, st, m, pc, h, to.t) && m > 0 && to.fuel > 0
    requires Run(p, Steps(p, st, m), n, o, to.(fuel := to.fuel - 1))
    ensures Run(p, st, m + n, o, to)
  {
    hide Steps, Kept;
    RunThen(p, st, m, pc, h, n, o, to.(fuel := to.fuel - 1), to.t);
  }

  /** A while loop's `continue` goes straight to the condition; its update is empty. */
  lemma SimAgain(c: Ctx, s: Stmt, at: Pos, x: Exits, st: State) returns (n: nat)
    requires s.Loop? && WellMade(s) && !s.isFor && c.fuel > 0 && Setup(c)
    requires CodeAt(c.p, at.pc, CodeS(s, at, x.brk, x.cont)) && PoolAt(c.p, at.k, PoolS(s))
    requires Ready(st, at.pc, at.t + TmpsS(s))
    ensures Run(c.p, st, n, Repeat(c.g, c.fuel, s, st.heap, st.frame.env), GoalS(c, s, at, x).(fuel := c.fuel - 1))
    decreases c.fuel, s, 0
  {
    hide Steps, CodeAt, PoolAt, Setup, CodeS, CodeC;
    LessFuel(c);
    n := SimS(c.(fuel := c.fuel - 1), s, at, x, st);
  }

  /** The update, the jump back, and the rest of the loop with one unit of fuel less. */
  lemma SimRepeat(c: Ctx, s: Stmt, at: Pos, x: Exits, st: State) returns (n: nat)
    requires s.Loop? && WellMade(s) && c.fuel > 0 && Setup(c) && LoopParts(c, s, at)
    requires CodeAt(c.p, at.pc, CodeS(s, at, x.brk, x.cont)) && PoolAt(c.p, at.k, PoolS(s))
    requires Ready(st, AfterS(s.body, AfterC(s.cond, at)).pc, at.t + TmpsS(s))
    ensures Run(c.p, st, n, Repeat(c.g, c.fuel, s, st.heap, st.frame.env), GoalS(c, s, at, x).(fuel := c.fuel - 1))
    decreases c.fuel, s, 1
  {
    hide Steps, CodeAt, PoolAt, Setup, CodeS, CodeC, Exec;
    var updateAt, to := AfterS(s.body, AfterC(s.cond, at)), GoalS(c, s, at, x);
    n := SimS(c, s.update, updateAt, Exits(0, 0), st);
    var o := Exec(c.g, c.fuel, s.update, st.heap, st.frame.env);
    if o.Norm? {
      ThenJump(c.p, st, n, AfterS(s.update, updateAt).pc, o.h, at.t, Ins1(JMP, Addr(at.pc)), at.pc);
      n := n + 1;
      LessFuel(c);
      var m := SimS(c.(fuel := c.fuel - 1), s, at, x, Steps(c.p, st, n));
      var o2 := Exec(c.g, c.fuel - 1, s, o.h, st.frame.env);
      RunThen(c.p, st, n, at.pc, o.h, m, o2, to.(fuel := c.fuel - 1), at.t);
      n := n + m;
    } else if !o.Brk? && !o.Cont? {
      RunElsewhere(c.p, st, n, o, GoalS(c, s.update, updateAt, Exits(0, 0)), to);
      assert o.Timeout? ==> n >= c.fuel - 1;
    }
  }

  // ----- exceptions -----

  /** The state inside a try statement: its entry, in phase 1 or 2, is on top of the try stack. */
  function Guarded(st: State, addr: nat, phase: nat): State {
    st.(tries := st.tries + [TryEntry(addr, phase)])
  }

  ghost predicate TryFront(p: Program, s: Stmt, at: Pos, x: Exits)
    requires s.Try?
  {
    && CodeAt(p, at.pc, [Ins1(TRY, Addr(HandlerAt(s, at).pc))])
    && CodeAt(p, at.pc + 1, CodeS(s.body, Past(at, 1), x.brk, x.cont))
    && CodeAt(p, at.pc + 1 + SizeS(s.body), [Ins1(JMP, Addr(FinallyAt(s, at).pc))])
  }

  ghost predicate TryMiddle(p: Program, s: Stmt, at: Pos, x: Exits)
    requires s.Try?
  {
    && CodeAt(p, HandlerAt(s, at).pc, [Ins1(CATCH, VarOp(s.x))])
    && CodeAt(p, HandlerAt(s, at).pc + 1, CodeS(s.handler, Past(HandlerAt(s, at), 1), x.brk, x.cont))
  }

  ghost predicate TryBack(p: Program, s: Stmt, at: Pos, x: Exits)
    requires s.Try?
  {
    && CodeAt(p, FinallyAt(s, at).pc, CodeS(s.finalizer, FinallyAt(s, at), x.brk, x.cont))
    && CodeAt(p, FinallyAt(s, at).pc + SizeS(s.finalizer), [Ins0(ETRY)])
  }

  ghost predicate TryCode(p: Program, s: Stmt, at: Pos, x: Exits)
    requires s.Try?
  {
    TryFront(p, s, at, x) && TryMiddle(p, s, at, x) && TryBack(p, s, at, x)
  }

  ghost predicate TryPool(p: Program, s: Stmt, at: Pos)
    requires s.Try?
  {
    && PoolAt(p, at.k, PoolS(s.body)) && PoolAt(p, HandlerAt(s, at).k, PoolS(s.handler))
    && PoolAt(p, FinallyAt(s, at).k, PoolS(s.finalizer))
  }

  lemma SplitLast(p: Program, pc: nat, a: seq<IR>, b: seq<IR>, pc': nat)
    requires CodeAt(p, pc, a + b) && pc' == pc + |a|
    ensures CodeAt(p, pc, a) && CodeAt(p, pc', b)
  {
    hide CodeAt;
    CodeSplit(p, pc, a, b);
  }

  lemma SplitTryCode(p: Program, s: Stmt, at: Pos, x: Exits)
    requires s.Try? && CodeAt(p, at.pc, CodeTry(s, at, x.brk, x.cont))
    ensures TryCode(p, s, at, x)
  {
    hide CodeAt, CodeS, CodeTry, SizeS, PoolS, TmpsS, HandlerAt, FinallyAt;
    TryParts(s, at, x.brk, x.cont);
    var handlerAt, finallyAt := HandlerAt(s, at), FinallyAt(s, at);
    SplitSeven(p, at.pc, [Ins1(TRY, Addr(handlerAt.pc))], CodeS(s.body, Past(at, 1), x.brk, x.cont),
               [Ins1(JMP, Addr(finallyAt.pc))], [Ins1(CATCH, VarOp(s.x))],
               CodeS(s.handler, Past(handlerAt, 1), x.brk, x.cont), CodeS(s.finalizer, finallyAt, x.brk, x.cont),
                 [Ins0(ETRY)]);
  }

  lemma SplitSeven(p: Program, pc: nat, c0: seq<IR>, c1: seq<IR>, c2: seq<IR>, c3: seq<IR>, c4: seq<IR>, c5: seq<IR>,
                   c6: seq<IR>)
    requires CodeAt(p, pc, c0 + c1 + c2 + c3 + c4 + c5 + c6)
    ensures CodeAt(p, pc, c0) && CodeAt(p, pc + |c0|, c1)
    ensures var q := pc + |c0| + |c1|;
            && CodeAt(p, q, c2) && CodeAt(p, q + |c2|, c3) && CodeAt(p, q + |c2| + |c3|, c4)
            && CodeAt(p, q + |c2| + |c3| + |c4|, c5) && CodeAt(p, q + |c2| + |c3| + |c4| + |c5|, c6)
  {
    hide CodeAt;
    CodeSplit(p, pc, c0 + c1 + c2 + c3 + c4 + c5, c6);
    CodeSplit(p, pc, c0 + c1 + c2 + c3 + c4, c5);
    CodeSplit(p, pc, c0 + c1 + c2 + c3, c4);
    CodeSplit(p, pc, c0 + c1 + c2, c3);
    CodeSplit(p, pc, c0 + c1, c2);
    CodeSplit(p, pc, c0, c1);
  }

  lemma SplitTryPool(p: Program, s: Stmt, at: Pos)
    requires s.Try? && PoolAt(p, at.k, PoolS(s))
    ensures TryPool(p, s, at)
  {
    hide PoolAt, PoolS, SizeS, TmpsS;
    TryPools(s);
    PoolSplit(p, at.k, PoolS(s.body) + PoolS(s.handler), PoolS(s.finalizer));
    PoolSplit(p, at.k, PoolS(s.body), PoolS(s.handler));
  }

  lemma TryPools(s: Stmt)
    requires s.Try?
    ensures PoolS(s) == PoolS(s.body) + PoolS(s.handler) + PoolS(s.finalizer)
  {
  }

  /** An exception pending inside the try body, its own entry in phase 1, whether or not an inner handler
      left its entry behind, or inside the handler with an inner one's entry left behind: two steps later the
      handler runs with the exception bound, in phase 2. */
  lemma CatchSteps(c: Ctx, base: State, s1: State, x: Off, addr: nat, phase: nat, ex: Val, dirty: bool, h: Heap,
                   h2: Heap,
                   t: nat)
    requires CodeAt(c.p, addr, [Ins1(CATCH, VarOp(x))]) && (phase == 1 || (phase == 2 && dirty))
    requires Pending(Guarded(base, addr, phase), s1, ex, dirty) && s1.heap == h && s1.args == [] && Kept(base, s1, t)
    requires WriteVar(h, base.frame.env, x, ex) == Some(h2)
    ensures At(Guarded(base, addr, 2), Steps(c.p, s1, 2), addr + 1, h2, t)
  {
    hide WriteVar, Kept, Locate;
    var left := base.tries + [TryEntry(addr, phase)];
    assert Same(c.p.code[addr + 0], [Ins1(CATCH, VarOp(x))][0]);
    InertPatch(c.p, s1, c.p.code[addr], Ins1(CATCH, VarOp(x)));
    assert dirty ==> Init(s1.tries) == left;
    var s2 := s1.(tries := left, exc := None, pc := addr, heap := h2);
    KeptEnv(base, s1, t);
    WriteSame(c.p, s1.(tries := left, exc := None, pc := addr), c.p.code[addr].op1, x, ex, h2);
    assert Dispatch(c.p, s1, ex) == s2;
    var s3 := StepCatch(s2);
    InertPatch(c.p, s2, c.p.code[addr], Ins1(CATCH, VarOp(x)));
    assert Step(c.p, s2) == s3;
    assert Steps(c.p, s1, 2) == Steps(c.p, s2, 1) == Steps(c.p, s3, 0) == s3;
    assert Init(left) == base.tries;
    KeptHeap(base, s1, s3, t);
    KeptBase(Guarded(base, addr, 2), base, s3, t);
  }

  lemma KeptEnv(a: State, b: State, t: nat)
    requires Kept(a, b, t)
    ensures b.frame.env == a.frame.env
  {
  }

  lemma KeptHeap(a: State, b: State, b': State, t: nat)
    requires Kept(a, b, t) && b'.frame == b.frame && b'.callers == b.callers
    ensures Kept(a, b', t)
  {
  }

  lemma WriteSame(p: Program, s: State, o: Operand, x: Off, v: Val, h: Heap)
    requires o.kind.FetchVar? && o.off == x && WriteVar(s.heap, s.frame.env, x, v) == Some(h)
    ensures WriteOp(s, o, v) == s.(heap := h)
  {
  }

  /** OP_ETRY pops the statement's own entry. */
  lemma EndTry(p: Program, base: State, s1: State, pc: nat, h: Heap, t: nat, addr: nat, phase: nat)
    requires At(Guarded(base, addr, phase), s1, pc, h, t) && CodeAt(p, pc, [Ins0(ETRY)])
    ensures At(base, Steps(p, s1, 1), pc + 1, h, t)
  {
    OneStep(p, s1, pc, Ins0(ETRY));
    hide Steps, Kept;
    assert Init(base.tries + [TryEntry(addr, phase)]) == base.tries;
    KeptHeap(Guarded(base, addr, phase), s1, Steps(p, s1, 1), t);
    KeptBase(base, Guarded(base, addr, phase), Steps(p, s1, 1), t);
  }

  lemma KeptBase(a: State, a': State, b: State, t: nat)
    requires Kept(a', b, t) && a'.frame == a.frame && a'.callers == a.callers
    ensures Kept(a, b, t)
  {
  }

  /** A state inside the statement keeps what the guarded start state has. */
  lemma AtBase(a: State, a': State, b: State, pc: nat, h: Heap, t: nat, t': nat)
    requires At(a', b, pc, h, t') && a'.tries == a.tries && Kept(a, a', t) && t <= t'
    ensures At(a, b, pc, h, t)
  {
    hide Kept;
    KeptTrans(a, a', b, t, t');
  }

  /** How a fragment run inside a try statement in phase 2, or one that cannot throw, looks from outside. */
  lemma Leaving(p: Program, st: State, s1: State, s2: State, addr: nat, phase: nat, m: nat, o: Out, from: Goal,
                to: Goal)
    requires Sim(p, s1, s2, m, o, from) && !o.Norm?
    requires s1.tries == Guarded(st, addr, phase).tries && Kept(st, s1, to.t) && to.t <= from.t && to.fuel == from.fuel
    requires phase == 2 || !o.Thr?
    ensures Sim(p, st, s2, m, if phase == 2 then Rethrown(o) else Confined(o), to)
  {
    if o.Thr? && !o.dirty {
      assert Init(s2.tries) == st.tries;
      KeptTrans(st, s1, s2, to.t, from.t);
    }
  }

  lemma SimMore(p: Program, s: State, s': State, n: nat, n': nat, o: Out, to: Goal)
    requires Sim(p, s, s', n, o, to) && n <= n'
    ensures Sim(p, s, s', n', o, to)
  {
  }

  /** The finally block, and OP_ETRY when it completes, with the statement's entry in phase 1 (the body
      completed) or in phase 2 (the handler completed). */
  lemma SimFinally(c: Ctx, s: Stmt, at: Pos, x: Exits, st: State, s1: State, h: Heap, phase: nat) returns (m: nat)
    requires s.Try? && Setup(c) && TryBack(c.p, s, at, x) && PoolAt(c.p, FinallyAt(s, at).k, PoolS(s.finalizer))
    requires At(Guarded(st, HandlerAt(s, at).pc, phase), s1, FinallyAt(s, at).pc, h, at.t)
    requires at.t + TmpsS(s) <= |st.frame.temps|
    ensures var o := Exec(c.g, c.fuel, s.finalizer, h, st.frame.env);
            var s2 := Steps(c.p, s1, m);
            if o.Norm? then At(st, s2, at.pc + SizeS(s), o.h, at.t)
            else Sim(c.p, Guarded(st, HandlerAt(s, at).pc, phase), s2, m, o, GoalS(c, s, at, x))
    decreases c.fuel, s, 1
  {
    hide Steps, CodeAt, PoolAt, Setup, CodeS, Exec;
    var at1, addr := FinallyAt(s, at), HandlerAt(s, at).pc;
    m := SimS(c, s.finalizer, at1, x, s1);
    var o := Exec(c.g, c.fuel, s.finalizer, h, st.frame.env);
    var s2 := Steps(c.p, s1, m);
    if o.Norm? {
      AtBase(Guarded(st, addr, phase), s1, s2, at1.pc + SizeS(s.finalizer), o.h, at.t, at1.t);
      EndTry(c.p, st, s2, at1.pc + SizeS(s.finalizer), o.h, at.t, addr, phase);
      StepsAdd(c.p, s1, m, 1);
      m := m + 1;
    } else {
      SimFrom(c.p, Guarded(st, addr, phase), s1, s2, m, o, GoalS(c, s.finalizer, at1, x), GoalS(c, s, at, x));
    }
  }

  /** A run of a part of a fragment, seen from where the fragment started. */
  lemma SimFrom(p: Program, a: State, b: State, s': State, n: nat, o: Out, from: Goal, to: Goal)
    requires Sim(p, b, s', n, o, from) && !o.Norm? && b.tries == a.tries && Kept(a, b, to.t)
    requires to.t <= from.t && to.fuel == from.fuel && to.brk == from.brk && to.cont == from.cont
    ensures Sim(p, a, s', n, o, to)
  {
    if Kept(b, s', from.t) {
      KeptTrans(a, b, s', to.t, from.t);
    }
  }

  /** What is left of a try statement once its handler is entered: it ends, or is left with its entry in phase 2. */
  ghost predicate DoneHandler(c: Ctx, s: Stmt, at: Pos, x: Exits, st: State, s1: State, m: nat, o: Out)
    requires s.Try?
  {
    var s2 := Steps(c.p, s1, m);
    if o.Norm? then At(st, s2, at.pc + SizeS(s), o.h, at.t)
    else Sim(c.p, Guarded(st, HandlerAt(s, at).pc, 2), s2, m, o, GoalS(c, s, at, x))
  }

  /** The handler, entered in phase 2 with the exception bound. */
  lemma SimHandler(c: Ctx, s: Stmt, at: Pos, x: Exits, st: State, s1: State, h: Heap) returns (m: nat)
    requires s.Try? && Setup(c) && TryCode(c.p, s, at, x) && TryPool(c.p, s, at)
    requires At(Guarded(st, HandlerAt(s, at).pc, 2), s1, HandlerAt(s, at).pc + 1, h, at.t)
    requires at.t + TmpsS(s) <= |st.frame.temps|
    ensures DoneHandler(c, s, at, x, st, s1, m,
                        match ExecClauses(c.g, c.fuel, s.handler, h, st.frame.env)
                        case Norm(_, h2) => Discard(Exec(c.g, c.fuel, s.finalizer, h2, st.frame.env))
                        case o => o)
    decreases c.fuel, s, 2
  {
    hide Steps, CodeAt, PoolAt, Setup, CodeS, Exec, ExecClauses;
    var at1, to, addr := Past(HandlerAt(s, at), 1), GoalS(c, s, at, x), HandlerAt(s, at).pc;
    m := SimClauses(c, s.handler, at1, x, s1);
    var o := ExecClauses(c.g, c.fuel, s.handler, h, st.frame.env);
    var s2 := Steps(c.p, s1, m);
    KeptBase(st, Guarded(st, addr, 2), s1, at.t);
    if o.Norm? {
      AtBase(Guarded(st, addr, 2), s1, s2, FinallyAt(s, at).pc, o.h, at.t, at1.t);
      var m2 := SimFinally(c, s, at, x, st, s2, o.h, 2);
      StepsAdd(c.p, s1, m, m2);
      var o2 := Exec(c.g, c.fuel, s.finalizer, o.h, st.frame.env);
      if !o2.Norm? {
        SimMore(c.p, Guarded(st, addr, 2), Steps(c.p, s2, m2), m2, m + m2, o2, to);
      }
      m := m + m2;
    } else {
      SimFrom(c.p, Guarded(st, addr, 2), s1, s2, m, o, GoalS(c, s.handler, at1, x), to);
    }
  }

  /** All clauses one after the other: the OP_CATCH of a further one finds the entry in phase 2 already. */
  lemma {:induction false} SimClauses(c: Ctx, s: Stmt, at: Pos, x: Exits, st: State) returns (n: nat)
    requires EnterS(c, s, at, x, st) && st.tries != [] && Last(st.tries).phase == 2
    ensures Run(c.p, st, n, ExecClauses(c.g, c.fuel, s, st.heap, st.frame.env), GoalS(c, s, at, x))
    decreases c.fuel, s, 7
  {
    hide Steps, CodeAt, PoolAt, Setup, Exec;
    if s.Catches? {
      n := SimFirst(c, s, at, x, st);
      var o := Exec(c.g, c.fuel, s.first, st.heap, st.frame.env);
      if o.Norm? {
        var at2 := Past(AfterS(s.first, at), 1);
        CatchesParts(c.p, s, at, x);
        var m := SimClauses(c, s.rest, at2, x, Steps(c.p, st, n));
        RunThen(c.p, st, n, at2.pc, o.h, m, ExecClauses(c.g, c.fuel, s.rest, o.h, st.frame.env), GoalS(c, s, at, x),
                at2.t);
        n := n + m;
      }
    } else {
      n := SimS(c, s, at, x, st);
    }
  }

  lemma CatchesParts(p: Program, s: Stmt, at: Pos, x: Exits)
    requires s.Catches? && CodeAt(p, at.pc, CodeS(s, at, x.brk, x.cont)) && PoolAt(p, at.k, PoolS(s))
    ensures var at2 := Past(AfterS(s.first, at), 1);
            && CodeAt(p, at.pc, CodeS(s.first, at, x.brk, x.cont)) && PoolAt(p, at.k, PoolS(s.first))
            && CodeAt(p, at2.pc - 1, [Ins1(CATCH, VarOp(s.y))])
            && CodeAt(p, at2.pc, CodeS(s.rest, at2, x.brk, x.cont)) && PoolAt(p, at2.k, PoolS(s.rest))
  {
    hide CodeAt, PoolAt;
    var at2, catcher := Past(AfterS(s.first, at), 1), [Ins1(CATCH, VarOp(s.y))];
    CodeSplit(p, at.pc, CodeS(s.first, at, x.brk, x.cont) + catcher, CodeS(s.rest, at2, x.brk, x.cont));
    CodeSplit(p, at.pc, CodeS(s.first, at, x.brk, x.cont), catcher);
    PoolSplit(p, at.k, PoolS(s.first), PoolS(s.rest));
  }

  /** One clause, and the OP_CATCH of the next. */
  lemma SimFirst(c: Ctx, s: Stmt, at: Pos, x: Exits, st: State) returns (n: nat)
    requires s.Catches? && EnterS(c, s, at, x, st) && st.tries != [] && Last(st.tries).phase == 2
    ensures var o := Exec(c.g, c.fuel, s.first, st.heap, st.frame.env);
            if o.Norm? then Arrive(c.p, st, n, AfterS(s.first, at).pc + 1, o.h, at.t)
            else Run(c.p, st, n, o, GoalS(c, s, at, x))
    decreases c.fuel, s, 6
  {
    hide Steps, CodeAt, PoolAt, Setup, Exec, CodeS;
    CatchesParts(c.p, s, at, x);
    n := SimS(c, s.first, at, x, st);
    var o := Exec(c.g, c.fuel, s.first, st.heap, st.frame.env);
    if o.Norm? {
      var pc := AfterS(s.first, at).pc;
      OneStep(c.p, Steps(c.p, st, n), pc, Ins1(CATCH, VarOp(s.y)));
      CatchAgain(Steps(c.p, st, n));
      ArriveThen(c.p, st, n, pc, o.h, at.t, 1, pc + 1, o.h, at.t);
      n := n + 1;
    } else {
      RunElsewhere(c.p, st, n, o, GoalS(c, s.first, at, x), GoalS(c, s, at, x));
    }
  }

  lemma CatchAgain(s: State)
    requires s.tries != [] && Last(s.tries).phase == 2
    ensures StepCatch(s) == Next(s)
  {
    assert Init(s.tries) + [Last(s.tries)] == s.tries;
  }

  lemma KeptGuarded(st: State, addr: nat, phase: nat, t: nat)
    requires t <= |st.frame.temps|
    ensures Kept(st, Guarded(st, addr, phase), t)
  {
  }

  /** An exception pending that the statement's own handler will get. */
  ghost predicate ToCatch(s: Stmt, at: Pos, st: State, s1: State, phase: nat, ex: Val, dirty: bool)
    requires s.Try?
  {
    && (phase == 1 || (phase == 2 && dirty)) && Pending(Guarded(st, HandlerAt(s, at).pc, phase), s1, ex, dirty)
    && s1.args == [] && Kept(st, s1, at.t) && at.t + TmpsS(s) <= |st.frame.temps|
  }

  /** The handler with the exception bound, once. */
  lemma SimCaughtOnce(c: Ctx, s: Stmt, at: Pos, x: Exits, st: State, s1: State, phase: nat, ex: Val, dirty: bool)
      returns (m: nat)
    requires s.Try? && Setup(c) && TryCode(c.p, s, at, x) && TryPool(c.p, s, at)
             && ToCatch(s, at, st, s1, phase, ex, dirty)
    ensures DoneHandler(c, s, at, x, st, s1, m, ExecCaught(c.g, c.fuel, s, ex, s1.heap, st.frame.env))
    ensures ExecCaught(c.g, c.fuel, s, ex, s1.heap, st.frame.env).Stuck? || m > 0
    decreases c.fuel, s, 3
  {
    hide Steps, CodeAt, PoolAt, Setup, CodeS, Exec, ExecClauses;
    m := 0;
    var w := WriteVar(s1.heap, st.frame.env, s.x, ex);
    if w.Some? {
      CatchSteps(c, st, s1, s.x, HandlerAt(s, at).pc, phase, ex, dirty, s1.heap, w.value, at.t);
      var s3 := Steps(c.p, s1, 2);
      var m2 := SimHandler(c, s, at, x, st, s3, w.value);
      StepsAdd(c.p, s1, 2, m2);
      m := 2 + m2;
      var o := ExecCaught(c.g, c.fuel, s, ex, s1.heap, st.frame.env);
      if !o.Norm? {
        SimMore(c.p, Guarded(st, HandlerAt(s, at).pc, 2), Steps(c.p, s3, m2), m2, m, o, GoalS(c, s, at, x));
      }
    }
  }

  /** From an exception pending that the statement's own handler will get: the handler, again and again as long
      as exceptions come back to it. */
  lemma {:induction false} SimCaught(c: Ctx, s: Stmt, at: Pos, x: Exits, st: State, s1: State, phase: nat, ex: Val,
                                     dirty: bool) returns (m: nat)
    requires s.Try? && Setup(c) && TryCode(c.p, s, at, x) && TryPool(c.p, s, at)
             && ToCatch(s, at, st, s1, phase, ex, dirty)
    ensures Sim(c.p, st, Steps(c.p, s1, m), m, ExecHandler(c.g, c.fuel, s, ex, s1.heap, st.frame.env),
                GoalS(c, s, at, x))
    decreases c.fuel, s, 4
  {
    hide Steps, CodeAt, PoolAt, Setup, CodeS, Exec, ExecCaught, TryCode, TryPool;
    m := SimCaughtOnce(c, s, at, x, st, s1, phase, ex, dirty);
    var addr, to := HandlerAt(s, at).pc, GoalS(c, s, at, x);
    var o, s2 := ExecCaught(c.g, c.fuel, s, ex, s1.heap, st.frame.env), Steps(c.p, s1, m);
    if o.Thr? && o.dirty {
      KeptBase(st, Guarded(st, addr, 2), s2, at.t);
      if c.fuel > 0 {
        LessFuel(c);
        var m2 := SimCaught(c.(fuel := c.fuel - 1), s, at, x, st, s2, 2, o.ex, true);
        StepsAdd(c.p, s1, m, m2);
        m := m + m2;
      }
    } else if !o.Norm? {
      KeptGuarded(st, addr, 2, at.t);
      Leaving(c.p, st, Guarded(st, addr, 2), s2, addr, 2, m, o, to, to);
    }
  }

  /** The body, and the finally block if it completes: the statement ends, or it is left with its entry still
      in phase 1. */
  lemma SimGuarded(c: Ctx, s: Stmt, at: Pos, x: Exits, st: State) returns (n: nat)
    requires s.Try? && EnterS(c, s, at, x, st) && TryCode(c.p, s, at, x) && TryPool(c.p, s, at)
    ensures var o := ExecGuarded(c.g, c.fuel, s, st.heap, st.frame.env);
            if o.Norm? then Run(c.p, st, n, o, GoalS(c, s, at, x))
            else Sim(c.p, Guarded(st, HandlerAt(s, at).pc, 1), Steps(c.p, st, n), n, o, GoalS(c, s, at, x))
    decreases c.fuel, s, 2
  {
    hide Steps, CodeAt, PoolAt, Setup, Exec, CodeS;
    var addr, to := HandlerAt(s, at).pc, GoalS(c, s, at, x);
    OneStep(c.p, st, at.pc, Ins1(TRY, Addr(addr)));
    var s1 := Steps(c.p, st, 1);
    assert s1 == Next(Guarded(st, addr, 1));
    var m := SimS(c, s.body, Past(at, 1), x, s1);
    var o := Exec(c.g, c.fuel, s.body, st.heap, st.frame.env);
    var s2 := Steps(c.p, s1, m);
    StepsAdd(c.p, st, 1, m);
    n := 1 + m;
    if o.Norm? {
      AtBase(Guarded(st, addr, 1), s1, s2, at.pc + 1 + SizeS(s.body), o.h, at.t, at.t);
      JumpStep(c.p, s2, Ins1(JMP, Addr(FinallyAt(s, at).pc)), FinallyAt(s, at).pc);
      var s3 := Steps(c.p, s2, 1);
      AtBase(Guarded(st, addr, 1), s2, s3, FinallyAt(s, at).pc, o.h, at.t, |s2.frame.temps|);
      StepsAdd(c.p, st, n, 1);
      n := n + 1;
      var m2 := SimFinally(c, s, at, x, st, s3, o.h, 1);
      StepsAdd(c.p, st, n, m2);
      var o2 := Exec(c.g, c.fuel, s.finalizer, o.h, st.frame.env);
      if !o2.Norm? {
        SimMore(c.p, Guarded(st, addr, 1), Steps(c.p, s3, m2), m2, n + m2, o2, to);
      }
      n := n + m2;
    } else {
      SimFrom(c.p, Guarded(st, addr, 1), s1, s2, m, o, GoalS(c, s.body, Past(at, 1), x), to);
      SimMore(c.p, Guarded(st, addr, 1), s2, m, n, o, to);
    }
  }

  lemma SimTry(c: Ctx, s: Stmt, at: Pos, x: Exits, st: State) returns (n: nat)
    requires s.Try? && EnterS(c, s, at, x, st)
    ensures Run(c.p, st, n, ExecTry(c.g, c.fuel, s, st.heap, st.frame.env), GoalS(c, s, at, x))
    decreases c.fuel, s, 5
  {
    hide Steps, CodeAt, PoolAt, Setup, Exec, ExecGuarded, ExecHandler;
    var addr, to := HandlerAt(s, at).pc, GoalS(c, s, at, x);
    assert CodeS(s, at, x.brk, x.cont) == CodeTry(s, at, x.brk, x.cont);
    hide CodeS;
    SplitTryCode(c.p, s, at, x);
    SplitTryPool(c.p, s, at);
    n := SimGuarded(c, s, at, x, st);
    var o := ExecGuarded(c.g, c.fuel, s, st.heap, st.frame.env);
    var s1 := Steps(c.p, st, n);
    if o.Thr? {
      KeptBase(st, Guarded(st, addr, 1), s1, at.t);
      var m := SimCaught(c, s, at, x, st, s1, 1, o.ex, o.dirty);
      StepsAdd(c.p, st, n, m);
      SimMore(c.p, st, Steps(c.p, s1, m), m, n + m, ExecTry(c.g, c.fuel, s, st.heap, st.frame.env), to);
      n := n + m;
    } else if !o.Norm? {
      KeptGuarded(st, addr, 1, at.t);
      Leaving(c.p, st, Guarded(st, addr, 1), s1, addr, 1, n, o, to, to);
    }
  }

  // ----- switch -----

  /** The body of the case after `skip` others, or the end of the switch. */
  function BodyPc(cs: Cases, at: Pos, skip: nat): nat {
    match cs
    case NoCase => at.pc
    case _ => if skip == 0 then BodyAt(cs, at, false).pc else BodyPc(cs.rest, LaterAt(cs, at), skip - 1)
  }

  /** Where the tests go when no label is equal: the default's body, or the end. */
  function MissPc(w: SwitchEnv): nat {
    if w.dflt.Some? then w.dflt.value else w.end
  }

  lemma {:induction false} DefaultTarget(cs: Cases, at: Pos)
    ensures var d := DefaultAddr(cs, at.pc, false);
            BodyPc(cs, at, DefaultIndex(cs)) == if d.Some? then d.value else at.pc + SizeK(cs, false)
    decreases cs
  {
    if cs.Case? {
      DefaultTarget(cs.rest, LaterAt(cs, at));
    }
  }

  ghost predicate CaseHead(p: Program, cs: Cases, at: Pos, w: SwitchEnv)
    requires cs.Case?
  {
    && CodeAt(p, at.pc, CodeE(cs.lbl, at)) && PoolAt(p, at.k, PoolE(cs.lbl))
    && CodeAt(p, AfterE(cs.lbl, at).pc, [LabelTest(cs, at, w)[0]])
    && CodeAt(p, AfterE(cs.lbl, at).pc + 1, [LabelTest(cs, at, w)[1]])
  }

  ghost predicate CaseTail(p: Program, cs: Cases, at: Pos, w: SwitchEnv, cont: nat)
    requires !cs.NoCase?
  {
    var bodyAt := BodyAt(cs, at, false);
    && CodeAt(p, bodyAt.pc, CodeS(cs.body, bodyAt, w.end, cont)) && PoolAt(p, bodyAt.k, PoolS(cs.body))
    && CodeAt(p, bodyAt.pc + SizeS(cs.body), [Ins1(JMP, Addr(NextBody(cs.rest, LaterAt(cs, at).pc)))])
    && CodeAt(p, LaterAt(cs, at).pc, CodeK(cs.rest, LaterAt(cs, at), w, cont))
    && PoolAt(p, LaterAt(cs, at).k, PoolK(cs.rest))
  }

  /** The code of a case list in place. */
  ghost predicate CasesAt(p: Program, cs: Cases, at: Pos, w: SwitchEnv, cont: nat) {
    && CodeAt(p, at.pc, CodeK(cs, at, w, cont)) && PoolAt(p, at.k, PoolK(cs))
    && !w.lone && w.end == at.pc + SizeK(cs, false)
  }

  lemma SplitCase(p: Program, cs: Cases, at: Pos, w: SwitchEnv, cont: nat)
    requires cs.Case? && CasesAt(p, cs, at, w, cont)
    ensures CaseHead(p, cs, at, w) && CaseTail(p, cs, at, w, cont)
    ensures CasesAt(p, cs.rest, LaterAt(cs, at), w, cont)
  {
    hide CodeAt, PoolAt, CodeE, CodeS, PoolE, PoolS, TmpsE, TmpsS, CaseHead, CaseTail, LabelTest, NextBody;
    var rest, bodyAt, laterAt := cs.rest, BodyAt(cs, at, false), LaterAt(cs, at);
    var lbl, test := CodeE(cs.lbl, at), LabelTest(cs, at, w);
    var body := CodeS(cs.body, bodyAt, w.end, cont);
    var jump := [Ins1(JMP, Addr(NextBody(rest, laterAt.pc)))];
    SplitLast(p, at.pc, lbl + test + body + jump, CodeK(rest, laterAt, w, cont), laterAt.pc);
    SplitLast(p, at.pc, lbl + test + body, jump, bodyAt.pc + SizeS(cs.body));
    SplitLast(p, at.pc, lbl + test, body, bodyAt.pc);
    SplitLast(p, at.pc, lbl, test, AfterE(cs.lbl, at).pc);
    SplitPair(p, AfterE(cs.lbl, at).pc, test);
    PoolSplit(p, at.k, PoolE(cs.lbl) + PoolS(cs.body), PoolK(rest));
    PoolSplit(p, at.k, PoolE(cs.lbl), PoolS(cs.body));
    HeadPieces(p, cs, at, w);
    TailPieces(p, cs, at, w, cont);
  }

  lemma SplitPair(p: Program, pc: nat, c: seq<IR>)
    requires |c| == 2 && CodeAt(p, pc, c)
    ensures CodeAt(p, pc, [c[0]]) && CodeAt(p, pc + 1, [c[1]])
  {
    assert c == [c[0]] + [c[1]];
    CodeSplit(p, pc, [c[0]], [c[1]]);
  }

  lemma HeadPieces(p: Program, cs: Cases, at: Pos, w: SwitchEnv)
    requires cs.Case?
    requires CodeAt(p, at.pc, CodeE(cs.lbl, at)) && PoolAt(p, at.k, PoolE(cs.lbl))
    requires CodeAt(p, AfterE(cs.lbl, at).pc, [LabelTest(cs, at, w)[0]])
    requires CodeAt(p, AfterE(cs.lbl, at).pc + 1, [LabelTest(cs, at, w)[1]])
    ensures CaseHead(p, cs, at, w)
  {
    hide CodeAt, PoolAt, CodeE, PoolE, SizeE, TmpsE, LabelTest;
  }

  lemma TailPieces(p: Program, cs: Cases, at: Pos, w: SwitchEnv, cont: nat)
    requires !cs.NoCase?
    requires var bodyAt := BodyAt(cs, at, false);
             && CodeAt(p, bodyAt.pc, CodeS(cs.body, bodyAt, w.end, cont)) && PoolAt(p, bodyAt.k, PoolS(cs.body))
             && CodeAt(p, bodyAt.pc + SizeS(cs.body), [Ins1(JMP, Addr(NextBody(cs.rest, LaterAt(cs, at).pc)))])
    requires CodeAt(p, LaterAt(cs, at).pc, CodeK(cs.rest, LaterAt(cs, at), w, cont))
    requires PoolAt(p, LaterAt(cs, at).k, PoolK(cs.rest))
    ensures CaseTail(p, cs, at, w, cont)
  {
    hide CodeAt, PoolAt, CodeS, CodeK, PoolS, PoolK, SizeS, TmpsS, NextBody, BodyAt, LaterAt;
  }

  lemma SplitDefault(p: Program, cs: Cases, at: Pos, w: SwitchEnv, cont: nat)
    requires cs.DefaultCase? && CasesAt(p, cs, at, w, cont)
    ensures CodeAt(p, at.pc, [Ins1(JMP, Addr(LaterAt(cs, at).pc))]) && CaseTail(p, cs, at, w, cont)
    ensures CasesAt(p, cs.rest, LaterAt(cs, at), w, cont)
  {
    hide CodeAt, PoolAt, CodeS, PoolS, TmpsS, CaseTail, NextBody;
    var rest, bodyAt, laterAt := cs.rest, BodyAt(cs, at, false), LaterAt(cs, at);
    var over, body := [Ins1(JMP, Addr(laterAt.pc))], CodeS(cs.body, bodyAt, w.end, cont);
    var jump := [Ins1(JMP, Addr(NextBody(rest, laterAt.pc)))];
    SplitLast(p, at.pc, over + body + jump, CodeK(rest, laterAt, w, cont), laterAt.pc);
    SplitLast(p, at.pc, over + body, jump, bodyAt.pc + SizeS(cs.body));
    SplitLast(p, at.pc, over, body, bodyAt.pc);
    PoolSplit(p, at.k, PoolS(cs.body), PoolK(rest));
    TailPieces(p, cs, at, w, cont);
  }

  /** The bodies from the one after `skip` others on: each falls through into the next. */
  lemma {:induction false} SimCases(c: Ctx, cs: Cases, at: Pos, w: SwitchEnv, x: Exits, st: State, skip: nat)
      returns (n: nat)
    requires Setup(c) && CasesAt(c.p, cs, at, w, x.cont) && Ready(st, BodyPc(cs, at, skip), at.t + TmpsK(cs))
    ensures Run(c.p, st, n, ExecCases(c.g, c.fuel, cs, skip, st.heap, st.frame.env),
                Goal(w.end, w.end, x.cont, at.t, c.fuel))
    decreases c.fuel, cs, 1
  {
    hide Steps, CodeAt, PoolAt, Setup, CodeS, CodeE, CodeK, Exec, CaseHead, CaseTail;
    if cs.NoCase? {
      n := 0;
      StepsNone(c.p, st);
    } else {
      if cs.Case? {
        SplitCase(c.p, cs, at, w, x.cont);
      } else {
        SplitDefault(c.p, cs, at, w, x.cont);
      }
      if skip > 0 {
        n := SimCases(c, cs.rest, LaterAt(cs, at), w, x, st, skip - 1);
        RunBelow(c.p, st, n, ExecCases(c.g, c.fuel, cs.rest, skip - 1, st.heap, st.frame.env),
                 Goal(w.end, w.end, x.cont, LaterAt(cs, at).t, c.fuel), at.t);
      } else {
        n := SimCaseBody(c, cs, at, w, x, st);
      }
    }
  }

  lemma RunBelow(p: Program, s: State, n: nat, o: Out, to: Goal, t: nat)
    requires Run(p, s, n, o, to) && t <= to.t
    ensures Run(p, s, n, o, to.(t := t))
  {
    hide Steps;
  }

  lemma SimCaseBody(c: Ctx, cs: Cases, at: Pos, w: SwitchEnv, x: Exits, st: State) returns (n: nat)
    requires !cs.NoCase? && Setup(c) && CaseTail(c.p, cs, at, w, x.cont)
             && CasesAt(c.p, cs.rest, LaterAt(cs, at), w, x.cont)
    requires Ready(st, BodyAt(cs, at, false).pc, at.t + TmpsK(cs))
    ensures Run(c.p, st, n, ExecCases(c.g, c.fuel, cs, 0, st.heap, st.frame.env),
                Goal(w.end, w.end, x.cont, at.t, c.fuel))
    decreases c.fuel, cs, 0
  {
    hide Steps, CodeAt, PoolAt, Setup, CodeS, CodeE, CodeK, Exec;
    var bodyAt, laterAt, to := BodyAt(cs, at, false), LaterAt(cs, at), Goal(w.end, w.end, x.cont, at.t, c.fuel);
    n := SimS(c, cs.body, bodyAt, Exits(w.end, x.cont), st);
    var o := Exec(c.g, c.fuel, cs.body, st.heap, st.frame.env);
    var goal := GoalS(c, cs.body, bodyAt, Exits(w.end, x.cont));
    RunBelow(c.p, st, n, o, goal, at.t);
    if o.Norm? {
      var next := BodyPc(cs.rest, laterAt, 0);
      ThenJump(c.p, st, n, goal.end, o.h, at.t, Ins1(JMP, Addr(NextBody(cs.rest, laterAt.pc))), next);
      n := n + 1;
      var m := SimCases(c, cs.rest, laterAt, w, x, Steps(c.p, st, n), 0);
      RunThen(c.p, st, n, next, o.h, m, ExecCases(c.g, c.fuel, cs.rest, 0, o.h, st.frame.env), to, laterAt.t);
      n := n + m;
    } else {
      RunElsewhere(c.p, st, n, o, goal, to);
    }
  }

  // ----- selecting a case -----

  ghost predicate DoneK(c: Ctx, cs: Cases, at: Pos, w: SwitchEnv, st: State, n: nat, r: Choice) {
    match r
    case Chosen(i, h) => Arrive(c.p, st, n, BodyPc(cs, at, i), h, at.t)
    case NoMatch(h) => Arrive(c.p, st, n, MissPc(w), h, at.t)
    case ChoiceFail(o) => !o.Norm? && !o.Brk? && !o.Cont? && Run(c.p, st, n, o, Goal(0, 0, 0, at.t, c.fuel))
  }

  /** The subject stays readable: it is a variable, a constant or an earlier temporary. */
  ghost predicate SubjectOk(p: Program, st: State, w: SwitchEnv, r: Res, t: nat) {
    Denotes(p, st, w.subject, r) && (w.subject.kind.FetchTmp? ==> w.subject.off.idx < t)
  }

  lemma NoLabels(g: seq<FunDef>, fuel: nat, cs: Cases, r: Res, h: Heap, env: nat)
    requires !HasLabel(cs)
    ensures Select(g, fuel, cs, r, h, env) == NoMatch(h)
    decreases cs
  {
    if cs.DefaultCase? {
      NoLabels(g, fuel, cs.rest, r, h, env);
    }
  }

  lemma {:induction false} SimSelect(c: Ctx, cs: Cases, at: Pos, w: SwitchEnv, cont: nat, st: State, r: Res)
      returns (n: nat)
    requires Setup(c) && HasLabel(cs) && CasesAt(c.p, cs, at, w, cont) && (w.dflt.None? ==> Defaults(cs) == 0)
    requires Ready(st, at.pc, at.t + TmpsK(cs)) && SubjectOk(c.p, st, w, r, at.t)
    ensures DoneK(c, cs, at, w, st, n, Select(c.g, c.fuel, cs, r, st.heap, st.frame.env))
    decreases c.fuel, cs, 0
  {
    hide Steps, CodeAt, PoolAt, Setup, CodeS, CodeE, CodeK, Eval, Denotes;
    if cs.DefaultCase? {
      SplitDefault(c.p, cs, at, w, cont);
      JumpStep(c.p, st, Ins1(JMP, Addr(LaterAt(cs, at).pc)), LaterAt(cs, at).pc);
      n := SimLater(c, cs, at, w, cont, st, 1, st.heap, r);
    } else {
      SplitCase(c.p, cs, at, w, cont);
      var hit;
      n, hit := SimLabel(c, cs, at, w, st, r);
      var o := Eval(c.g, c.fuel, cs.lbl, st.heap, st.frame.env);
      if hit == Some(false) {
        if HasLabel(cs.rest) {
          n := SimLater(c, cs, at, w, cont, st, n, o.h, r);
        } else {
          NoLabels(c.g, c.fuel, cs.rest, r, o.h, st.frame.env);
          if w.dflt.None? {
            NoDefaultEnd(cs.rest);
          }
        }
      }
    }
  }

  lemma NoDefaultEnd(cs: Cases)
    requires !HasLabel(cs) && Defaults(cs) == 0
    ensures cs.NoCase?
  {
  }

  /** The tests of the cases after the first, `m` steps in. */
  lemma SimLater(c: Ctx, cs: Cases, at: Pos, w: SwitchEnv, cont: nat, st: State, m: nat, h: Heap, r: Res)
      returns (n: nat)
    requires !cs.NoCase? && Setup(c) && HasLabel(cs.rest)
    requires CasesAt(c.p, cs.rest, LaterAt(cs, at), w, cont) && (w.dflt.None? ==> Defaults(cs.rest) == 0)
    requires Arrive(c.p, st, m, LaterAt(cs, at).pc, h, at.t) && at.t + TmpsK(cs) <= |st.frame.temps|
    requires SubjectOk(c.p, st, w, r, at.t)
    ensures DoneK(c, cs, at, w, st, n, Later(Select(c.g, c.fuel, cs.rest, r, h, st.frame.env)))
    decreases c.fuel, cs.rest, 1
  {
    hide Steps, CodeAt, PoolAt, Setup, CodeS, CodeE, CodeK, Eval, Denotes;
    var laterAt, s1 := LaterAt(cs, at), Steps(c.p, st, m);
    DenotesKept(c.p, st, s1, w.subject, r, at.t);
    var q := SimSelect(c, cs.rest, laterAt, w, cont, s1, r);
    n := m + q;
    var o := Select(c.g, c.fuel, cs.rest, r, h, st.frame.env);
    match o
    case Chosen(i, h2) => ArriveThen(c.p, st, m, laterAt.pc, h, at.t, q, BodyPc(cs.rest, laterAt, i), h2, laterAt.t);
    case NoMatch(h2) => ArriveThen(c.p, st, m, laterAt.pc, h, at.t, q, MissPc(w), h2, laterAt.t);
    case ChoiceFail(f) => RunThen(c.p, st, m, laterAt.pc, h, q, f, Goal(0, 0, 0, at.t, c.fuel), laterAt.t);
  }

  /** One label: evaluate it, compare it with the subject, and branch. */
  lemma SimLabel(c: Ctx, cs: Cases, at: Pos, w: SwitchEnv, st: State, r: Res) returns (n: nat, hit: Option<bool>)
    requires cs.Case? && Setup(c) && CaseHead(c.p, cs, at, w)
    requires Ready(st, at.pc, at.t + TmpsK(cs)) && SubjectOk(c.p, st, w, r, at.t)
    ensures var o := Eval(c.g, c.fuel, cs.lbl, st.heap, st.frame.env);
            var sel := Select(c.g, c.fuel, cs, r, st.heap, st.frame.env);
            match hit
            case Some(true) => o.Norm? && sel == Chosen(0, o.h)
              && Arrive(c.p, st, n, BodyAt(cs, at, false).pc, o.h, at.t)
            case Some(false) =>
              && o.Norm? && sel == Later(Select(c.g, c.fuel, cs.rest, r, o.h, st.frame.env))
              && Arrive(c.p, st, n, LabelTest(cs, at, w)[1].op2.addr, o.h, at.t)
            case None => sel.ChoiceFail? && DoneK(c, cs, at, w, st, n, sel)
  {
    hide Steps, CodeAt, PoolAt, Setup, CodeE, Eval, Deref, Denotes, ReadOp;
    var at1, tmp := AfterE(cs.lbl, at), at.t + TmpsE(cs.lbl);
    var i := LabelTest(cs, at, w)[0];
    n := SimExpr(c, cs.lbl, at, st);
    hit := None;
    var o := Eval(c.g, c.fuel, cs.lbl, st.heap, st.frame.env);
    if !o.Norm? {
      RunElsewhere(c.p, st, n, o, GoalE(c, cs.lbl, at), Goal(0, 0, 0, at.t, c.fuel));
    } else {
      var s1 := Steps(c.p, st, n);
      DenotesKept(c.p, st, s1, w.subject, r, at.t);
      var a, b := Deref(r, o.h, st.frame.env), Deref(o.res, o.h, st.frame.env);
      if a.Some? && b.Some? {
        ReadDenoted(c.p, s1, w.subject, r, a.value);
        ReadDenoted(c.p, s1, i.op2, o.res, b.value);
        BinaryStep(c.p, s1, i, a.value, b.value, c.fuel, at.t);
        var eff := Compare(Eq, a.value, b.value);
        if eff.Write? {
          ArriveThen(c.p, st, n, at1.pc, o.h, at.t, 1, at1.pc + 1, o.h, at.t);
          n := n + 1;
          var s2 := Steps(c.p, st, n);
          ReadHeld(c.p, s2, TmpOp(tmp), eff.v);
          var miss := LabelTest(cs, at, w)[1].op2.addr;
          BranchStep(c.p, s2, TmpOp(tmp), eff.v, miss);
          ArriveThen(c.p, st, n, at1.pc + 1, o.h, at.t, 1, if Truthy(eff.v) then at1.pc + 2 else miss, o.h,
                     |s2.frame.temps|);
          n := n + 1;
          hit := Some(Truthy(eff.v));
        }
      }
    }
  }

  lemma ReadHeld(p: Program, s: State, o: Operand, v: Val)
    requires Denotes(p, s, o, Held(v))
    ensures ReadOp(p, s, o) == Some(v)
  {
  }

  // ----- the switch statement -----

  lemma SimSwitch(c: Ctx, s: Stmt, at: Pos, x: Exits, st: State) returns (n: nat)
    requires s.Switch? && EnterS(c, s, at, x, st)
    ensures DoneS(c, s, at, x, st, n)
    decreases c.fuel, s, 3
  {
    hide Steps, CodeAt, PoolAt, Setup, ReadOp, Eval, CodeE, Select, ExecCases, Denotes;
    var cs, at1, w := s.cases, AfterE(s.e, at), SwitchInfo(s, at);
    if Defaults(cs) > 1 {
      n := 0;
    } else {
      CodeSplit(c.p, at.pc, CodeE(s.e, at), CodeK(cs, at1, w, x.cont));
      PoolSplit(c.p, at.k, PoolE(s.e), PoolK(cs));
      n := SimExpr(c, s.e, at, st);
      var o := Eval(c.g, c.fuel, s.e, st.heap, st.frame.env);
      if o.Norm? {
        var s1 := Steps(c.p, st, n);
        OpBound(s.e, at);
        var m := SimChoice(c, s, at, x, s1, o.res);
        var o2 := Choose(c, s, o.res, o.h, st.frame.env);
        RunThen(c.p, st, n, at1.pc, o.h, m, o2, GoalS(c, s, at, x), at.t);
        n := n + m;
      } else {
        RunElsewhere(c.p, st, n, o, GoalE(c, s.e, at), GoalS(c, s, at, x));
      }
    }
  }

  /** What a switch does once its subject is known. */
  function Choose(c: Ctx, s: Stmt, r: Res, h: Heap, env: nat): Out
    requires s.Switch?
  {
    match Select(c.g, c.fuel, s.cases, r, h, env)
    case Chosen(i, h2) => LeaveSwitch(ExecCases(c.g, c.fuel, s.cases, i, h2, env))
    case NoMatch(h2) => LeaveSwitch(ExecCases(c.g, c.fuel, s.cases, DefaultIndex(s.cases), h2, env))
    case ChoiceFail(o2) => o2
  }

  lemma SimChoice(c: Ctx, s: Stmt, at: Pos, x: Exits, st: State, r: Res) returns (n: nat)
    requires s.Switch? && Setup(c) && Defaults(s.cases) <= 1
    requires CodeAt(c.p, AfterE(s.e, at).pc, CodeK(s.cases, AfterE(s.e, at), SwitchInfo(s, at), x.cont))
    requires PoolAt(c.p, AfterE(s.e, at).k, PoolK(s.cases))
    requires Ready(st, AfterE(s.e, at).pc, at.t + TmpsS(s))
             && SubjectOk(c.p, st, SwitchInfo(s, at), r, AfterE(s.e, at).t)
    ensures Run(c.p, st, n, Choose(c, s, r, st.heap, st.frame.env), GoalS(c, s, at, x))
    decreases c.fuel, s, 2
  {
    hide Steps, CodeAt, PoolAt, Setup, CodeS, CodeE, CodeK, Exec, Select, ExecCases, LeaveSwitch, Denotes, SubjectOk;
    var cs, at1, w, to := s.cases, AfterE(s.e, at), SwitchInfo(s, at), GoalS(c, s, at, x);
    var env := st.frame.env;
    if !HasLabel(cs) {
      NoLabels(c.g, c.fuel, cs, r, st.heap, env);
      n := SimUnlabelled(c, s, at, x, st);
    } else {
      DefaultTarget(cs, at1);
      if w.dflt.None? {
        NoDefault(cs, at1.pc);
      }
      n := SimSelect(c, cs, at1, w, x.cont, st, r);
      var sel := Select(c.g, c.fuel, cs, r, st.heap, env);
      if sel.ChoiceFail? {
        RunElsewhere(c.p, st, n, sel.o, Goal(0, 0, 0, at1.t, c.fuel), to);
      } else {
        var skip := if sel.Chosen? then sel.skip else DefaultIndex(cs);
        var pc := if sel.Chosen? then BodyPc(cs, at1, skip) else MissPc(w);
        var m := SimCases(c, cs, at1, w, x, Steps(c.p, st, n), skip);
        var goal := Goal(w.end, w.end, x.cont, at1.t, c.fuel);
        var o := ExecCases(c.g, c.fuel, cs, skip, sel.h, env);
        RunThen(c.p, st, n, pc, sel.h, m, o, goal, at1.t);
        n := n + m;
        RunLeave(c.p, st, n, o, goal, to);
      }
    }
  }

  lemma NoDefault(cs: Cases, pc: nat)
    requires DefaultAddr(cs, pc, false).None?
    ensures Defaults(cs) == 0
    decreases cs
  {
    if cs.Case? {
      NoDefault(cs.rest, pc + SizeE(cs.lbl) + 2 + SizeS(cs.body) + 1);
    }
  }

  lemma RunLeave(p: Program, st: State, n: nat, o: Out, goal: Goal, to: Goal)
    requires Run(p, st, n, o, goal) && goal.brk == goal.end == to.end && to.t <= goal.t && goal.fuel == to.fuel
    ensures Run(p, st, n, LeaveSwitch(o), to)
  {
    hide Steps;
  }

  /** A switch without labels: nothing, or the body of its only default. */
  lemma SimUnlabelled(c: Ctx, s: Stmt, at: Pos, x: Exits, st: State) returns (n: nat)
    requires s.Switch? && Setup(c) && !HasLabel(s.cases) && Defaults(s.cases) <= 1
    requires CodeAt(c.p, AfterE(s.e, at).pc, CodeK(s.cases, AfterE(s.e, at), SwitchInfo(s, at), x.cont))
    requires PoolAt(c.p, AfterE(s.e, at).k, PoolK(s.cases))
    requires Ready(st, AfterE(s.e, at).pc, at.t + TmpsS(s))
    ensures Run(c.p, st, n, LeaveSwitch(ExecCases(c.g, c.fuel, s.cases, DefaultIndex(s.cases), st.heap, st.frame.env)),
                GoalS(c, s, at, x))
    decreases c.fuel, s, 1
  {
    hide Steps, CodeAt, Setup, CodeS, CodeE, Exec;
    var cs, at1, to := s.cases, AfterE(s.e, at), GoalS(c, s, at, x);
    if cs.NoCase? {
      n := 0;
      StepsNone(c.p, st);
    } else {
      NoDefaultEnd(cs.rest);
      assert PoolK(cs) == PoolS(cs.body);
      var inner := Exits(to.end, x.cont);
      n := SimS(c, cs.body, at1, inner, st);
      var o := Exec(c.g, c.fuel, cs.body, st.heap, st.frame.env);
      RunLeave(c.p, st, n, o, GoalS(c, cs.body, at1, inner), to);
    }
  }

  // ----- all statements -----

  /** Every compiled statement ends, jumps, returns, throws or fails as the evaluator says, with the
      evaluator's store; a run the evaluator cannot finish keeps going. */
  lemma {:induction false} SimS(c: Ctx, s: Stmt, at: Pos, x: Exits, st: State) returns (n: nat)
    requires EnterS(c, s, at, x, st)
    ensures DoneS(c, s, at, x, st, n)
    decreases c.fuel, s, 6
  {
    hide Steps, CodeAt, PoolAt, Setup, CodeS, PoolS, SizeS, TmpsS, Run, ExecTry, ExecIf;
    match s
    case Skip => n := SimJump(c, s, at, x, st);
    case Seq(_, _) => n := SimSeq(c, s, at, x, st);
    case Block(_) => n := SimBlock(c, s, at, x, st);
    case Do(_) => n := SimSimple(c, s, at, x, st);
    case Assign(_, _) => n := SimSimple(c, s, at, x, st);
    case AssignUnless(_, _) => n := SimAssignUnless(c, s, at, x, st);
    case If(_) => n := SimIf(c, s, at, x, st);
    case Loop(_, _, _, _) => n := SimLoop(c, s, at, x, st);
    case Switch(_, _) => n := SimSwitch(c, s, at, x, st);
    case Break => n := SimJump(c, s, at, x, st);
    case Continue => n := SimJump(c, s, at, x, st);
    case Return => n := SimJump(c, s, at, x, st);
    case ReturnVal(_) => n := SimSimple(c, s, at, x, st);
    case Throw(_) => n := SimSimple(c, s, at, x, st);
    case Try(_, _, _, _) => n := SimTry(c, s, at, x, st);
    case Catches(_, _, _) => n := SimJump(c, s, at, x, st);
    case FunDecl(_, _, _) =>
      n := SimFunDecl(c, s, at, x, st);
  }

  lemma SimJump(c: Ctx, s: Stmt, at: Pos, x: Exits, st: State) returns (n: nat)
    requires s.Skip? || s.Break? || s.Continue? || s.Return? || s.Catches?
    requires EnterS(c, s, at, x, st)
    ensures DoneS(c, s, at, x, st, n)
  {
    hide Steps, CodeAt, PoolAt, Setup;
    n := 0;
    match s
    case Skip => StepsNone(c.p, st);
    case Break => JumpStep(c.p, st, Ins1(JMP, Addr(x.brk)), x.brk); n := 1;
    case Continue => JumpStep(c.p, st, Ins1(JMP, Addr(x.cont)), x.cont); n := 1;
    case Return => RetStep(c.p, st, Ins0(RET), Junk, GoalS(c, s, at, x));
    case Catches(_, _, _) =>
  }

  lemma SimIf(c: Ctx, s: Stmt, at: Pos, x: Exits, st: State) returns (n: nat)
    requires s.If? && EnterS(c, s, at, x, st)
    ensures DoneS(c, s, at, x, st, n)
    decreases c.fuel, s, 4
  {
    hide Steps, CodeAt, PoolAt, Setup, ExecIf, CodeB;
    n := SimBranches(c, s.branches, at, at.pc + SizeB(s.branches), x, st);
  }

  /** Straight-line execution jumps over a function's body. */
  lemma SimFunDecl(c: Ctx, s: Stmt, at: Pos, x: Exits, st: State) returns (n: nat)
    requires s.FunDecl? && EnterS(c, s, at, x, st)
    ensures DoneS(c, s, at, x, st, n)
  {
    hide Steps, CodeAt, PoolAt, Setup;
    var i := Ins1(JMP, Addr(at.pc + SizeS(s)));
    var a, b := CodeS(s.prologue, FunEntry(at), 0, 0), CodeS(s.body, AfterS(s.prologue, FunEntry(at)), 0, 0);
    assert CodeS(s, at, x.brk, x.cont) == CodeFun(s, at);
    CodeSplit(c.p, at.pc, [i] + a + b, [Ins0(LEAVE)]);
    CodeSplit(c.p, at.pc, [i] + a, b);
    CodeSplit(c.p, at.pc, [i], a);
    JumpStep(c.p, st, i, at.pc + SizeS(s));
    n := 1;
  }
}
