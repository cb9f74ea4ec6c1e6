/** The relation between an outcome of the evaluator and a run of the machine, and how runs compose. */
module Simulation {
  import opened Values
  import opened Store
  import opened Ast
  import opened Machine
  import opened Semantics
  import opened Layout

  // ----- where code and constants are -----

  ghost predicate CodeAt(p: Program, pc: nat, c: seq<IR>) {
    pc + |c| <= |p.code| && forall i :: 0 <= i < |c| ==> Same(p.code[pc + i], c[i])
  }

  ghost predicate PoolAt(p: Program, k: nat, vs: seq<Val>) {
    k + |vs| <= |p.consts| && p.consts[k..k + |vs|] == vs
  }

  lemma CodeSplit(p: Program, pc: nat, a: seq<IR>, b: seq<IR>)
    requires CodeAt(p, pc, a + b)
    ensures CodeAt(p, pc, a) && CodeAt(p, pc + |a|, b)
  {
    forall i | 0 <= i < |a| ensures Same(p.code[pc + i], a[i]) {
      assert (a + b)[i] == a[i];
    }
    forall i | 0 <= i < |b| ensures Same(p.code[pc + |a| + i], b[i]) {
      assert (a + b)[|a| + i] == b[i];
    }
  }

  lemma PoolSplit(p: Program, k: nat, a: seq<Val>, b: seq<Val>)
    requires PoolAt(p, k, a + b)
    ensures PoolAt(p, k, a) && PoolAt(p, k + |a|, b)
  {
    var all := p.consts[k..k + |a + b|];
    assert p.consts[k..k + |a|] == all[..|a|] == a;
    assert p.consts[k + |a|..k + |a| + |b|] == all[|a|..] == b;
  }

  ghost predicate FunAt(p: Program, f: FunDef, at: Pos) {
    && at.t == 0
    && CodeAt(p, at.pc, FunCode(f.prologue, f.body, at))
    && PoolAt(p, at.k, PoolS(f.prologue) + PoolS(f.body))
  }

  ghost predicate FunLinked(p: Program, f: FunDef, info: FunInfo) {
    && info.header == f.header
    && info.temps == TmpsS(f.prologue) + TmpsS(f.body)
    && exists at: Pos :: at.pc == info.addr && FunAt(p, f, at)
  }

  /** The machine's constants start with null, true and false, and its function table points at the
      compiled bodies of the source functions. */
  ghost predicate Linked(p: Program, g: seq<FunDef>) {
    && |p.consts| >= 3 && p.consts[0] == Null && p.consts[1] == Bool(true) && p.consts[2] == Bool(false)
    && |p.funs| == |g|
    && forall f :: 0 <= f < |g| ==> FunLinked(p, g[f], p.funs[f])
  }

  // ----- states -----

  /** About to execute a fragment at `pc` that may use temporaries below `top`. */
  ghost predicate Ready(s: State, pc: nat, top: nat) {
    && s.status.Running? && s.exc.None? && s.pc == pc && s.args == []
    && top <= |s.frame.temps|
  }

  ghost predicate SamePrefix(a: seq<Val>, b: seq<Val>, t: nat) {
    |a| == |b| && t <= |a| && forall i :: 0 <= i < t ==> b[i] == a[i]
  }

  /** The call stack is as before, except for temporaries from `t` on in the current frame. */
  ghost predicate Kept(s: State, s': State, t: nat) {
    && s'.callers == s.callers
    && s'.frame.env == s.frame.env && s'.frame.retAddr == s.frame.retAddr && s'.frame.retTmp == s.frame.retTmp
    && |s'.frame.temps| == |s.frame.temps|
    && SamePrefix(s.frame.temps, s'.frame.temps, t)
  }

  /** Control arrived at `pc` with the heap `h`, the argument list empty and the try stack unchanged. */
  ghost predicate At(s: State, s': State, pc: nat, h: Heap, t: nat) {
    && s'.status.Running? && s'.exc.None? && s'.pc == pc && s'.heap == h && s'.args == []
    && s'.tries == s.tries && Kept(s, s', t)
  }

  /** The operand holds the result: a variable is named, a value is stored. */
  ghost predicate Denotes(p: Program, s: State, o: Operand, r: Res) {
    match r
    case Ref(x) => o.kind.FetchVar? && o.off == x
    case Held(v) => (o.kind.FetchTmp? || o.kind.FetchConst?) && ReadOp(p, s, o) == Some(v)
    case Junk => o.kind.FetchTmp? && ReadOp(p, s, o).Some?
  }

  /** An exception is pending; a dirty one left its handler's own entry on the try stack. */
  ghost predicate Pending(s: State, s': State, ex: Val, dirty: bool) {
    && s'.status.Running? && s'.exc == Some(ex)
    && if dirty then s'.tries != [] && Init(s'.tries) == s.tries && Last(s'.tries).phase == 2
       else s'.tries == s.tries
  }

  /** Inside at least one call made from the frame of `s`: that frame is waiting on the call stack. */
  ghost predicate Deeper(s: State, s': State) {
    && |s.callers| < |s'.callers|
    && s'.callers[..|s.callers|] == s.callers
    && s'.callers[|s.callers|].env == s.frame.env
  }

  /** Stopped at an OP_RET whose operand holds the result. */
  ghost predicate AtReturn(p: Program, s: State, r: Res) {
    && s.pc < |p.code| && p.code[s.pc].op.RET?
    && ((p.code[s.pc].op1.kind.Unused? && r.Junk?) || Denotes(p, s, p.code[s.pc].op1, r))
  }

  /** Where a fragment may end, and the temporaries and fuel it starts with. */
  datatype Goal = Goal(end: nat, brk: nat, cont: nat, t: nat, fuel: nat)

  /** What `n` steps from `s` to `s'` have to do with the outcome `o`.  A run that times out has taken at
      least as many steps as there was fuel. */
  ghost predicate Sim(p: Program, s: State, s': State, n: nat, o: Out, to: Goal) {
    match o
    case Norm(_, h) => At(s, s', to.end, h, to.t)
    case Brk(h) => At(s, s', to.brk, h, to.t)
    case Cont(h) => At(s, s', to.cont, h, to.t)
    case Ret(r, h) => At(s, s', s'.pc, h, to.t) && AtReturn(p, s', r)
    case Thr(ex, dirty, h) => Pending(s, s', ex, dirty) && s'.heap == h && s'.args == [] && Kept(s, s', to.t)
    case Abort(ex, dirty, h, thrower) =>
      Deeper(s, s') && s'.frame.env == thrower && s'.heap == h && Pending(s, s', ex, dirty)
    case Error(h) => s'.status.Fatal? && s'.heap == h
    case Stuck => true
    case Timeout => s'.status.Running? && n >= to.fuel
  }

  /** `n` steps from `s` realise the outcome `o`. */
  ghost predicate Run(p: Program, s: State, n: nat, o: Out, to: Goal) {
    Sim(p, s, Steps(p, s, n), n, o, to)
  }

  /** The same for an expression, which also leaves its result in its operand. */
  ghost predicate RunE(p: Program, s: State, n: nat, o: Out, to: Goal, op: Operand) {
    Run(p, s, n, o, to) && (o.Norm? ==> Denotes(p, Steps(p, s, n), op, o.res))
  }

  /** `n` steps from `s` arrive at `pc`. */
  ghost predicate Arrive(p: Program, s: State, n: nat, pc: nat, h: Heap, t: nat) {
    At(s, Steps(p, s, n), pc, h, t)
  }

  // ----- composition -----

  lemma StepsNone(p: Program, s: State)
    ensures Steps(p, s, 0) == s
  {
  }

  lemma KeptTrans(s: State, s1: State, s2: State, t: nat, t1: nat)
    requires Kept(s, s1, t) && Kept(s1, s2, t1) && t <= t1
    ensures Kept(s, s2, t)
  {
  }

  lemma ArriveThen(p: Program, s: State, m: nat, pc: nat, h: Heap, t: nat, n: nat, pc': nat, h': Heap, t1: nat)
    requires Arrive(p, s, m, pc, h, t) && t <= t1
    requires Arrive(p, Steps(p, s, m), n, pc', h', t1)
    ensures Arrive(p, s, m + n, pc', h', t)
    ensures Steps(p, s, m + n) == Steps(p, Steps(p, s, m), n)
  {
    StepsAdd(p, s, m, n);
    KeptTrans(s, Steps(p, s, m), Steps(p, s, m + n), t, t1);
  }

  /** A run that first arrives somewhere, followed by a simulated fragment. */
  lemma RunThen(p: Program, s: State, m: nat, pc: nat, h: Heap, n: nat, o: Out, to: Goal, t1: nat)
    requires Arrive(p, s, m, pc, h, to.t) && to.t <= t1
    requires Run(p, Steps(p, s, m), n, o, to.(t := t1))
    ensures Run(p, s, m + n, o, to)
    ensures Steps(p, s, m + n) == Steps(p, Steps(p, s, m), n)
  {
    hide Steps;
    StepsAdd(p, s, m, n);
    var s1, s2 := Steps(p, s, m), Steps(p, s, m + n);
    if Kept(s1, s2, t1) {
      KeptTrans(s, s1, s2, to.t, t1);
    }
  }

  lemma RunEThen(p: Program, s: State, m: nat, pc: nat, h: Heap, n: nat, o: Out, to: Goal, t1: nat, op: Operand)
    requires Arrive(p, s, m, pc, h, to.t) && to.t <= t1
    requires RunE(p, Steps(p, s, m), n, o, to.(t := t1), op)
    ensures RunE(p, s, m + n, o, to, op)
  {
    hide Steps;
    RunThen(p, s, m, pc, h, n, o, to, t1);
  }

  /** Where a fragment ends matters only to outcomes that end it normally or by a jump. */
  lemma RunElsewhere(p: Program, s: State, n: nat, o: Out, to: Goal, to': Goal)
    requires Run(p, s, n, o, to) && !o.Norm? && to'.t <= to.t && to'.fuel == to.fuel
    requires o.Brk? ==> to'.brk == to.brk
    requires o.Cont? ==> to'.cont == to.cont
    ensures Run(p, s, n, o, to')
  {
    hide Steps;
  }

  /** One step of straight-line code. */
  lemma OneStep(p: Program, s: State, pc: nat, i: IR)
    requires CodeAt(p, pc, [i]) && Ready(s, pc, 0)
    ensures Steps(p, s, 1) == Execute(p, s, i)
  {
    assert Same(p.code[pc + 0], [i][0]);
    InertPatch(p, s, p.code[pc], i);
    assert Steps(p, s, 1) == Steps(p, Step(p, s), 0);
  }

  /** An operand stays good while a later fragment runs with temporaries above it. */
  lemma DenotesKept(p: Program, s: State, s': State, o: Operand, r: Res, t: nat)
    requires Denotes(p, s, o, r) && Kept(s, s', t)
    requires o.kind.FetchTmp? ==> o.off.idx < t
    ensures Denotes(p, s', o, r)
  {
  }

  /** Reading an operand is dereferencing the result it denotes. */
  lemma ReadDenoted(p: Program, s: State, o: Operand, r: Res, v: Val)
    requires Denotes(p, s, o, r) && Deref(r, s.heap, s.frame.env) == Some(v)
    ensures ReadOp(p, s, o) == Some(v)
  {
  }

  /** Temporaries are allocated in order: the result of an expression lies below those of the next. */
  lemma OpBound(e: Expr, at: Pos)
    ensures OpE(e, at).kind.FetchTmp? ==> at.t <= OpE(e, at).off.idx < AfterE(e, at).t
  {
  }

  /** Writing a temporary from `t` on. */
  lemma KeptTmp(s: State, i: nat, v: Val, t: nat)
    requires t <= i < |s.frame.temps|
    ensures var s' := SetTmp(s, i, v); Kept(s, s', t) && s'.frame.temps[i] == v
  {
  }
}
