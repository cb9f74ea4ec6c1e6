/** The whole-program theorems: a loaded program halts, fails, ends with an uncaught exception or runs on
    exactly as the evaluator says. */
module Correctness {
  import opened Values
  import opened Store
  import opened Ast
  import opened Machine
  import opened Semantics
  import opened Layout
  import opened Simulation
  import opened ExpressionProof
  import opened StatementProof
  import opened Context

  /** Calls with any amount of fuel simulate the evaluator. */
  lemma {:induction false} AllCalls(p: Program, g: seq<FunDef>, fuel: nat)
    requires Linked(p, g)
    ensures CallsOk(Ctx(p, g, fuel))
    decreases fuel
  {
    hide Linked, BodyOk, Ready;
    if fuel > 0 {
      AllCalls(p, g, fuel - 1);
      assert |p.funs| == |g| by { CountLinked(p, g); }
      forall b: nat, f: nat, s: State {:trigger BodyOk(p, g, b, f, s)}
        | b < fuel && f < |g| && Ready(s, p.funs[f].addr, p.funs[f].temps)
        ensures BodyOk(p, g, b, f, s)
      {
        if b == fuel - 1 {
          OneBody(p, g, b, f, s);
        }
      }
    }
  }

  lemma CountLinked(p: Program, g: seq<FunDef>)
    requires Linked(p, g)
    ensures |p.funs| == |g|
  {
  }

  lemma OneBody(p: Program, g: seq<FunDef>, b: nat, f: nat, s: State)
    requires Linked(p, g) && f < |g| && CallsOk(Ctx(p, g, b)) && Ready(s, p.funs[f].addr, p.funs[f].temps)
    ensures BodyOk(p, g, b, f, s)
  {
    hide Steps, CodeAt, PoolAt, CodeS, CallsOk;
    assert FunLinked(p, g[f], p.funs[f]);
    var at: Pos :| at.pc == p.funs[f].addr && FunAt(p, g[f], at);
    var both := Ast.Seq(g[f].prologue, g[f].body);
    FunBody(p, g[f], at);
    var c := Ctx(p, g, b);
    assert EnterS(c, both, at, Exits(0, 0), s);
    var n := SimS(c, both, at, Exits(0, 0), s);
    assert Run(p, s, n, Exec(g, b, both, s.heap, s.frame.env), BodyGoal(p, g[f], p.funs[f], b));
  }

  lemma FunBody(p: Program, f: FunDef, at: Pos)
    requires FunAt(p, f, at)
    ensures CodeAt(p, at.pc, CodeS(Ast.Seq(f.prologue, f.body), at, 0, 0))
    ensures PoolAt(p, at.k, PoolS(Ast.Seq(f.prologue, f.body)))
  {
    hide CodeAt, PoolAt;
    CodeSplit(p, at.pc, CodeS(f.prologue, at, 0, 0) + CodeS(f.body, AfterS(f.prologue, at), 0, 0), [Ins0(LEAVE)]);
  }

  // ----- fragments -----

  /** Temporaries of the current frame outside a range are as before. */
  ghost predicate Untouched(s: State, s': State, lo: nat, hi: nat) {
    && |s'.frame.temps| == |s.frame.temps|
    && forall i :: 0 <= i < |s.frame.temps| && (i < lo || hi <= i) ==> s'.frame.temps[i] == s.frame.temps[i]
  }

  /** The outcome is one of the frame that the fragment started in. */
  predicate InFrame(o: Out) { o.Norm? || o.Brk? || o.Cont? || o.Ret? || o.Thr? }

  /** `n` steps realise the outcome, and of the temporaries of the frame only those from `to.t` up to `top` have
      changed. */
  ghost predicate RunInside(p: Program, s: State, n: nat, o: Out, to: Goal, top: nat) {
    Run(p, s, n, o, to) && (InFrame(o) ==> Untouched(s, Steps(p, s, n), to.t, top))
  }

  ghost predicate Realised(p: Program, s: State, o: Out, to: Goal, top: nat) {
    exists n: nat :: RunInside(p, s, n, o, to, top)
  }

  /** The same for an expression, whose operand denotes its result. */
  ghost predicate Computed(p: Program, s: State, o: Out, to: Goal, top: nat, op: Operand) {
    exists n: nat :: RunInside(p, s, n, o, to, top) && (o.Norm? ==> Denotes(p, Steps(p, s, n), op, o.res))
  }

  /** A run of a fragment with its own temporaries alone is a run in any frame that has more of them, on any
      call stack, and leaves all that alone. */
  lemma InContext(p: Program, s: State, top: nat, n: nat, o: Out, to: Goal)
    requires top <= |s.frame.temps| && s.args == [] && Run(p, Alone(s, top), n, o, to) && !o.Stuck?
    ensures Steps(p, s, n) == Embed(Steps(p, Alone(s, top), n), s.callers, s.frame.temps[top..])
    ensures RunInside(p, s, n, o, to, top)
  {
    hide Steps, Denotes, Embed;
    var a, extra := Alone(s, top), s.frame.temps[top..];
    AloneEmbeds(s, top);
    EmbedSteps(p, a, n, s.callers, extra);
    var a' := Steps(p, a, n);
    EnvSame(a', s.callers, extra);
    if InFrame(o) {
      SameFrame(s, top, a', to.t);
      if o.Ret? && Denotes(p, a', p.code[a'.pc].op1, o.res) {
        EmbedDenotes(p, a', p.code[a'.pc].op1, o.res, s.callers, extra);
      }
    } else if o.Abort? {
      DeeperInside(s, top, a');
    }
  }

  lemma SameFrame(s: State, top: nat, a': State, t: nat)
    requires top <= |s.frame.temps| && Kept(Alone(s, top), a', t)
    ensures var s' := Embed(a', s.callers, s.frame.temps[top..]);
            && Kept(s, s', t) && Untouched(s, s', t, top) && (a'.args == [] ==> s'.args == [])
  {
    var extra := s.frame.temps[top..];
    var s' := Embed(a', s.callers, extra);
    assert a'.callers == [];
    forall i | 0 <= i < |s.frame.temps| && (i < t || top <= i) ensures s'.frame.temps[i] == s.frame.temps[i] {
      if i < top {
        assert a'.frame.temps[i] == s.frame.temps[..top][i];
      }
    }
  }

  lemma EmbedDenotes(p: Program, s: State, o: Operand, r: Res, below: seq<Frame>, extra: seq<Val>)
    requires Denotes(p, s, o, r)
    ensures Denotes(p, Embed(s, below, extra), o, r)
  {
    if !r.Ref? {
      EmbedRead(p, s, o, below, extra);
    }
  }

  lemma DeeperInside(s: State, top: nat, a': State)
    requires top <= |s.frame.temps| && Deeper(Alone(s, top), a')
    ensures Deeper(s, Embed(a', s.callers, s.frame.temps[top..]))
  {
    var extra := s.frame.temps[top..];
    var s' := Embed(a', s.callers, extra);
    assert s'.callers == s.callers + [Wider(a'.callers[0], extra)] + a'.callers[1..];
    assert s'.callers[..|s.callers|] == s.callers;
  }

  /** Every compiled expression, wherever it is in a linked program, does what the evaluator says: if it has a
      result, the machine arrives right after its code with the result in its operand, and only temporaries
      allocated for the expression have changed.  For a call this means that its RET or LEAVE resumed after
      the FCALL with the caller's frame and all frames below it intact. */
  lemma ExpressionCorrect(p: Program, g: seq<FunDef>, fuel: nat, e: Expr, at: Pos, s: State)
    requires Linked(p, g) && CodeAt(p, at.pc, CodeE(e, at)) && PoolAt(p, at.k, PoolE(e))
    requires Ready(s, at.pc, at.t + TmpsE(e))
    ensures Computed(p, s, Eval(g, fuel, e, s.heap, s.frame.env), Goal(at.pc + SizeE(e), 0, 0, at.t, fuel),
                     at.t + TmpsE(e), OpE(e, at))
  {
    hide Steps, CodeAt, PoolAt, CodeE, Linked, Eval, CallsOk, Run, Denotes, OpE, Embed;
    AllCalls(p, g, fuel);
    var c, top := Ctx(p, g, fuel), at.t + TmpsE(e);
    var a := Alone(s, top);
    var n := SimExpr(c, e, at, a);
    var o := Eval(g, fuel, e, s.heap, s.frame.env);
    if o.Stuck? {
      StuckRun(p, s, n, o, GoalE(c, e, at));
    } else {
      InContext(p, s, top, n, o, GoalE(c, e, at));
      if o.Norm? {
        EmbedDenotes(p, Steps(p, a, n), OpE(e, at), o.res, s.callers, s.frame.temps[top..]);
      }
    }
    assert RunInside(p, s, n, o, GoalE(c, e, at), top);
  }

  lemma StuckRun(p: Program, s: State, n: nat, o: Out, to: Goal)
    requires o.Stuck?
    ensures Run(p, s, n, o, to)
  {
  }

  /** Every compiled statement does what the evaluator says: it arrives at its end, at the target of `break` or
      of `continue`, stops at a return, leaves an exception pending in its own frame or in a frame above it,
      or stops with a fatal error, each time with the evaluator's variables.  As long as its frame is the
      current one, only temporaries allocated for the statement have changed in it. */
  lemma StatementCorrect(p: Program, g: seq<FunDef>, fuel: nat, st: Stmt, at: Pos, brk: nat, cont: nat, s: State)
    requires Linked(p, g) && CodeAt(p, at.pc, CodeS(st, at, brk, cont)) && PoolAt(p, at.k, PoolS(st))
    requires Ready(s, at.pc, at.t + TmpsS(st))
    ensures Realised(p, s, Exec(g, fuel, st, s.heap, s.frame.env), Goal(at.pc + SizeS(st), brk, cont, at.t, fuel),
                     at.t + TmpsS(st))
  {
    hide Steps, CodeAt, PoolAt, CodeS, Linked, Exec, CallsOk, Run;
    AllCalls(p, g, fuel);
    var c, top, x := Ctx(p, g, fuel), at.t + TmpsS(st), Exits(brk, cont);
    var n := SimS(c, st, at, x, Alone(s, top));
    var o := Exec(g, fuel, st, s.heap, s.frame.env);
    if o.Stuck? {
      StuckRun(p, s, n, o, GoalS(c, st, at, x));
    } else {
      InContext(p, s, top, n, o, GoalS(c, st, at, x));
    }
    assert RunInside(p, s, n, o, GoalS(c, st, at, x), top);
  }

  // ----- programs -----

  /** The position before the program: no code, the three fixed constants, no temporaries. */
  const START := Pos(0, 3, 0)

  /** The program's code is loaded at address 0 and followed by OP_HALT. */
  ghost predicate Loaded(p: Program, g: seq<FunDef>, main: Stmt) {
    && Linked(p, g)
    && CodeAt(p, 0, CodeS(main, START, 0, 0) + [Ins0(HALT)])
    && PoolAt(p, 3, PoolS(main))
  }

  /** The machine before its first step: the global environment is environment 0. */
  function Boot(h: Heap, temps: seq<Val>): State {
    State(Running, 0, h, Frame(0, temps, 0, 0), [], [], [], None)
  }

  ghost predicate StopsWith(p: Program, s: State, status: Status, h: Heap) {
    exists n: nat :: Steps(p, s, n).status == status && Steps(p, s, n).heap == h
  }

  /** A finished source program, or one that returns at top level, halts the machine; an exception nobody
      catches and a fatal error end it the same way; each time the store is the evaluator's.  When `fuel` is
      not enough for the evaluator, the machine is still running after `fuel` steps. */
  ghost predicate Agrees(p: Program, s: State, o: Out, fuel: nat) {
    match o
    case Norm(_, h) => StopsWith(p, s, Halted, h)
    case Ret(_, h) => StopsWith(p, s, Halted, h)
    case Thr(ex, _, h) => StopsWith(p, s, Uncaught(ex), h)
    case Abort(ex, _, h, _) => StopsWith(p, s, Uncaught(ex), h)
    case Error(h) => StopsWith(p, s, Fatal, h)
    case Timeout => Steps(p, s, fuel).status.Running?
    case _ => true
  }

  /** Compiler correctness, for every program, every initial store and every amount of fuel. */
  lemma ProgramCorrect(p: Program, g: seq<FunDef>, main: Stmt, h: Heap, temps: seq<Val>, fuel: nat)
    requires Loaded(p, g, main) && TmpsS(main) <= |temps|
    ensures Agrees(p, Boot(h, temps), Exec(g, fuel, main, h, 0), fuel)
  {
    hide Steps, CodeAt, PoolAt, CodeS, Linked, Exec, CallsOk, Run, Agrees;
    AllCalls(p, g, fuel);
    CodeSplit(p, 0, CodeS(main, START, 0, 0), [Ins0(HALT)]);
    var c := Ctx(p, g, fuel);
    var n := SimS(c, main, START, Exits(0, 0), Boot(h, temps));
    Finish(p, Boot(h, temps), n, Exec(g, fuel, main, h, 0), GoalS(c, main, START, Exits(0, 0)));
  }

  /** The last step of a program: OP_HALT, a top-level OP_RET, or an exception without a handler. */
  lemma Finish(p: Program, s: State, n: nat, o: Out, to: Goal)
    requires Run(p, s, n, o, to) && CodeAt(p, to.end, [Ins0(HALT)]) && s.frame.env == 0 && s.tries == []
    ensures Agrees(p, s, o, to.fuel)
  {
    hide Steps, CodeAt, Denotes;
    var s1 := Steps(p, s, n);
    if o.Norm? {
      OneStep(p, s1, to.end, Ins0(HALT));
      StepsAdd(p, s, n, 1);
      Witness(p, s, n + 1, Halted, o.h);
    } else if o.Ret? {
      TopReturn(p, s1);
      StepsAdd(p, s, n, 1);
      Witness(p, s, n + 1, Halted, o.h);
    } else if o.Thr? {
      TopThrow(p, s, s1, o.ex, o.dirty);
      StepsAdd(p, s, n, 1);
      Witness(p, s, n + 1, Uncaught(o.ex), o.h);
    } else if o.Abort? {
      TopThrow(p, s, s1, o.ex, o.dirty);
      StepsAdd(p, s, n, 1);
      Witness(p, s, n + 1, Uncaught(o.ex), o.h);
    } else if o.Error? {
      Witness(p, s, n, Fatal, o.h);
    } else if o.Timeout? {
      RunningBefore(p, s, to.fuel, n);
    }
  }

  lemma Witness(p: Program, s: State, n: nat, status: Status, h: Heap)
    requires Steps(p, s, n).status == status && Steps(p, s, n).heap == h
    ensures StopsWith(p, s, status, h)
  {
  }

  lemma TopReturn(p: Program, s: State)
    requires s.status.Running? && s.exc.None? && s.frame.env == 0 && s.pc < |p.code| && p.code[s.pc].op.RET?
    ensures Steps(p, s, 1) == s.(status := Halted)
  {
    assert Steps(p, s, 1) == Steps(p, Step(p, s), 0);
  }

  lemma TopThrow(p: Program, base: State, s: State, ex: Val, dirty: bool)
    requires base.tries == [] && Pending(base, s, ex, dirty)
    ensures Steps(p, s, 1).status == Uncaught(ex) && Steps(p, s, 1).heap == s.heap
  {
    assert Steps(p, s, 1) == Steps(p, Step(p, s), 0);
    assert dirty ==> Init(s.tries) == [];
  }

  lemma RunningBefore(p: Program, s: State, m: nat, n: nat)
    requires m <= n && Steps(p, s, n).status.Running?
    ensures Steps(p, s, m).status.Running?
  {
    hide Steps;
    StepsAdd(p, s, m, n - m);
    if !Steps(p, s, m).status.Running? {
      StoppedStays(p, Steps(p, s, m), n - m);
    }
  }

  /** A program inside the modelled fragment: no amount of fuel makes the evaluator stuck. */
  ghost predicate InFragment(g: seq<FunDef>, main: Stmt, h: Heap) {
    forall fuel: nat ::
      var o := Exec(g, fuel, main, h, 0);
      !o.Stuck? && !o.Brk? && !o.Cont?
  }

  /** The machine stops if and only if the evaluator finishes with some amount of fuel. */
  lemma TerminationAgrees(p: Program, g: seq<FunDef>, main: Stmt, h: Heap, temps: seq<Val>)
    requires Loaded(p, g, main) && TmpsS(main) <= |temps| && InFragment(g, main, h)
    ensures (exists n: nat :: !Steps(p, Boot(h, temps), n).status.Running?)
            <==> (exists fuel: nat :: !Exec(g, fuel, main, h, 0).Timeout?)
  {
    hide Steps, Exec, Loaded;
    var s := Boot(h, temps);
    if n: nat :| !Steps(p, s, n).status.Running? {
      ProgramCorrect(p, g, main, h, temps, n);
      assert !Exec(g, n, main, h, 0).Timeout?;
    }
    if fuel: nat :| !Exec(g, fuel, main, h, 0).Timeout? {
      ProgramCorrect(p, g, main, h, temps, fuel);
      var o := Exec(g, fuel, main, h, 0);
      assert !o.Stuck? && !o.Brk? && !o.Cont?;
      assert exists n: nat :: !Steps(p, s, n).status.Running?;
    }
  }
}
