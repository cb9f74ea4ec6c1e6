/** Where the code does not do what a reader of the language would expect, with the exact condition under
    which it does. */
module Findings {
  import opened Values
  import opened Store
  import opened Ast
  import opened Machine
  import opened Semantics
  import opened Layout
  import opened Simulation
  import opened ExpressionProof
  import opened StatementProof
  import opened Correctness
  import opened Backpatch
  import opened Compiler
  import opened Samples
  import opened Operators

  // ----- default arguments -----

  /** The conditional assignment at the start of a function keeps the argument that was passed if and only if
      it is truthy, or happens to equal the default. */
  lemma ArgumentKept(g: seq<FunDef>, fuel: nat, x: Off, e: Expr, h: Heap, env: nat, passed: Val, default: Val)
    requires Inline(e) && ReadVar(h, env, x) == Some(passed) && Assignable(h, env, x) == Some(true)
    requires Eval(g, fuel, e, h, env).Norm? && Deref(Eval(g, fuel, e, h, env).res, h, env) == Some(default)
    ensures var o := Exec(g, fuel, AssignUnless(x, e), h, env);
            o.Norm? && (ReadVar(o.h, env, x) == Some(passed) <==> (Truthy(passed) || passed == default))
  {
    var at := Locate(h, env, x).value;
    WalkAfterSet(h, at, default, env, x.hops);
    assert Eval(g, fuel, e, h, env).h == h;
  }

  const ONE := [Cell(Null, false)]

  /** `function f(p = e) { x = p; }`, where x is global. */
  function Defaulting(e: Expr): FunDef {
    FunDef(Header(1, 0, 1, false), AssignUnless(Off(0, 0), e), Assign(Off(1, 1), Ident(Off(0, 0))))
  }

  /** `f(a);` */
  function Passing(a: Lit): Stmt { CallIt(Exprs(Literal(a), NoExpr)) }

  /** The store after the call, with the parameter's last value. */
  function AfterCall(v: Val): Heap { WithFunction(v, ONE) + [Env(Some(0), [Cell(v, false)])] }

  /** Compiled and run, for every default and every argument that are literals: what f sees is the argument if and
      only if that is truthy, or happens to be the default. */
  lemma DefaultCall(d: Lit, a: Lit, x: Val)
    ensures Compilable(OneFunction(Defaulting(Literal(d)), Passing(a)), [Defaulting(Literal(d))])
    ensures var f, seen := Defaulting(Literal(d)), if Truthy(LitVal(a)) then LitVal(a) else LitVal(d);
            && StopsWith(Compiled(OneFunction(f, Passing(a)), [f]),
                         Started(OneFunction(f, Passing(a)), WithFunction(x, ONE)),
                         Halted, AfterCall(seen))
            && (seen == LitVal(a) <==> (Truthy(LitVal(a)) || LitVal(a) == LitVal(d)))
  {
    hide Exec, Compiled, Compilable, Started, StopsWith, SelfContained, FunAt;
    var f := Defaulting(Literal(d));
    DefaultContained(Literal(d), a);
    OneFunctionStarts(f, Passing(a), WithFunction(x, ONE));
    DefaultMeaning(d, a, x);
    CompilerCorrect(OneFunction(f, Passing(a)), [f], WithFunction(x, ONE), 1);
  }

  /** `f(false)` with a parameter declared `p = true` sees true. */
  lemma FalseArgumentLost(x: Val)
    ensures var f := Defaulting(Literal(TrueLit));
            && Compilable(OneFunction(f, Passing(FalseLit)), [f])
            && StopsWith(Compiled(OneFunction(f, Passing(FalseLit)), [f]),
                         Started(OneFunction(f, Passing(FalseLit)), WithFunction(x, ONE)), Halted,
                           AfterCall(Bool(true)))
  {
    hide Compiled, Compilable, Started, StopsWith;
    DefaultCall(TrueLit, FalseLit, x);
  }

  lemma DefaultContained(e: Expr, a: Lit)
    ensures SelfContained(Defaulting(e), Passing(a))
  {
  }

  lemma DefaultMeaning(d: Lit, a: Lit, x: Val)
    ensures var f := Defaulting(Literal(d));
            Exec([f], 1, OneFunction(f, Passing(a)), WithFunction(x, ONE), 0)
            == Norm(Junk, AfterCall(if Truthy(LitVal(a)) then LitVal(a) else LitVal(d)))
  {
    hide EvalArgs, DerefAll, BindCells, WithFunction, AfterCall, ONE, Eval, EvalCall, Invoke, ReadVar;
    var f, h, v := Defaulting(Literal(d)), WithFunction(x, ONE), LitVal(a);
    OneArgument([f], 1, a, h);
    FunctionStore(x);
    BodyMeaning(d, v, x);
    CallMeaning(f, 0, Exprs(Literal(a), NoExpr), [v], h, [Cell(v, false)]);
    assert Exec([f], 1, FunDecl(0, f.prologue, f.body), h, 0) == Norm(Junk, h);
  }

  lemma FunctionStore(x: Val)
    ensures var h := WithFunction(x, ONE);
            |h| == 2 && h[0].cells != [] && h[0].cells[0].v == Func(0) && h[1] == Env(Some(0), ONE)
  {
  }

  lemma OneArgument(g: seq<FunDef>, fuel: nat, a: Lit, h: Heap)
    ensures EvalArgs(g, fuel, Exprs(Literal(a), NoExpr), h, 0) == Args([Held(LitVal(a))], h)
    ensures DerefAll([Held(LitVal(a))], h, 0) == Some([LitVal(a)])
    ensures BindCells(ONE, Header(1, 0, 1, false), [LitVal(a)]) == Some([Cell(LitVal(a), false)])
  {
    assert EvalArgs(g, fuel, NoExpr, h, 0) == Args([], h);
    var rs := [Held(LitVal(a))];
    assert DerefAll(rs[1..], h, 0) == Some([]) && [LitVal(a)] + [] == [LitVal(a)];
    assert BindCells(ONE, Header(1, 0, 1, false), [LitVal(a)]).value == [Cell(LitVal(a), false)];
  }

  lemma BodyMeaning(d: Lit, v: Val, x: Val)
    ensures var f := Defaulting(Literal(d));
            Exec([f], 0, Ast.Seq(f.prologue, f.body), WithFunction(x, ONE) + [Env(Some(0), [Cell(v, false)])], 2)
            == Norm(Junk, AfterCall(if Truthy(v) then v else LitVal(d)))
  {
    hide WriteVar, ReadVar, Assignable, WithFunction;
    var f, h := Defaulting(Literal(d)), WithFunction(x, ONE) + [Env(Some(0), [Cell(v, false)])];
    var w := if Truthy(v) then v else LitVal(d);
    var h1 := WithFunction(x, ONE) + [Env(Some(0), [Cell(w, false)])];
    ReadLocal(x, v);
    ReadLocal(x, w);
    FunctionStore(x);
    WriteLocal(WithFunction(x, ONE), Some(0), [Cell(v, false)], 0, LitVal(d));
    assert [Cell(v, false)][0 := Cell(LitVal(d), false)] == [Cell(LitVal(d), false)];
    WriteX(x, ONE, [Env(Some(0), [Cell(w, false)])], w);
    assert Exec([f], 0, f.prologue, h, 2) == Norm(Junk, h1);
    assert Exec([f], 0, f.body, h1, 2) == Norm(Junk, AfterCall(w));
  }

  /** What f sees in environment 2. */
  lemma ReadLocal(x: Val, v: Val)
    ensures var h := WithFunction(x, ONE) + [Env(Some(0), [Cell(v, false)])];
            && ReadVar(h, 2, Off(0, 0)) == Some(v)
            && Assignable(h, 2, Off(0, 0)) == Some(true) && Assignable(h, 2, Off(1, 1)) == Some(true)
  {
    var h := WithFunction(x, ONE) + [Env(Some(0), [Cell(v, false)])];
    assert Walk(h, 0, 0) == Some(0);
    assert Walk(h, 2, 0) == Some(2) && Walk(h, 2, 1) == Walk(h, 0, 0);
  }

  /** The conditional assignment jumps over two instructions: with an argument it goes to the end of the
      assignment if and only if the default emits no code. */
  lemma DefaultLands(p: Program, s: Stmt, at: Pos, brk: nat, cont: nat, st: State, passed: Val)
    requires s.AssignUnless? && CodeAt(p, at.pc, CodeS(s, at, brk, cont)) && Ready(st, at.pc, 0)
    requires ReadVar(st.heap, st.frame.env, s.x) == Some(passed) && Truthy(passed)
    ensures Steps(p, st, 1) == st.(pc := at.pc + 2)
    ensures Steps(p, st, 1).pc == at.pc + SizeS(s) <==> Inline(s.e)
  {
    hide Steps, CodeAt;
    var jump, assign := Ins2(JMPNZ, VarOp(s.x), Addr(at.pc + 2)), Ins2(ASSIGN, VarOp(s.x), OpE(s.e, at));
    CodeSplit(p, at.pc, [jump] + CodeE(s.e, Past(at, 1)), [assign]);
    CodeSplit(p, at.pc, [jump], CodeE(s.e, Past(at, 1)));
    OneStep(p, st, at.pc, jump);
    InlineSize(s.e);
  }

  lemma InlineSize(e: Expr)
    ensures Inline(e) <==> SizeE(e) == 0
  {
    if e.Call? {
      assert SizeE(e) > 0;
    }
  }

  /** `function f(p = (x = k)) { x = p; }  f(n);`, compiled and run: the jump lands on the assignment of the default,
      which stores a temporary never written, and so f sees null. */
  lemma DefaultOverwrites(n: int, k: int, x: Val)
    ensures var f := Defaulting(AssignTo(Off(1, 1), Literal(IntLit(k))));
            && Compilable(OneFunction(f, Passing(IntLit(n))), [f])
            && StopsWith(Compiled(OneFunction(f, Passing(IntLit(n))), [f]),
                         Started(OneFunction(f, Passing(IntLit(n))), WithFunction(x, ONE)), Halted, AfterCall(Null))
  {
    hide Steps, Compiled, Compilable, Started, SelfContained, FunAt, AtStatement, CodeAt, StatementAt, WithFunction,
      AfterCall;
    var f, s, h := Defaulting(AssignTo(Off(1, 1), Literal(IntLit(k)))), Passing(IntLit(n)), WithFunction(x, ONE);
    DefaultContained(AssignTo(Off(1, 1), Literal(IntLit(k))), IntLit(n));
    OneFunctionStarts(f, s, h);
    var p, start := Compiled(OneFunction(f, s), [f]), Started(OneFunction(f, s), h);
    StartsAt(OneFunction(f, s), h);
    var st := Steps(p, start, 1);
    Overwritten(p, f, s, StatementAt(f), st, n, k, x);
    StepsAdd(p, start, 1, 7);
    Witness(p, start, 8, Halted, AfterCall(Null));
  }

  lemma StartsAt(main: Stmt, h: Heap)
    ensures Started(main, h).heap == h && Started(main, h).frame.env == 0 && Started(main, h).callers == []
  {
  }

  lemma Overwritten(p: Program, f: FunDef, s: Stmt, at: Pos, st: State, n: int, k: int, x: Val)
    requires f == Defaulting(AssignTo(Off(1, 1), Literal(IntLit(k)))) && s == Passing(IntLit(n))
    requires AtStatement(p, [f], s, at, st) && CodeAt(p, at.pc + SizeS(s), [Ins0(HALT)]) && FunAt(p, f, FunEntry(START))
    requires p.funs == [FunInfo(f.header, 1, TmpsS(f.prologue) + TmpsS(f.body))]
    requires st.heap == WithFunction(x, ONE) && st.frame.env == 0
    ensures Steps(p, st, 7).status == Halted && Steps(p, st, 7).heap == AfterCall(Null)
  {
    hide Steps, CodeAt, AtStatement, FunAt, WithFunction, AfterCall;
    PassedCall(p, f, s, at, st, n, k, x);
    var st1 := Steps(p, st, 2);
    BodyRun(p, f, st1, n, k, x);
    StepsAdd(p, st, 2, 4);
    var st2 := Steps(p, st, 6);
    OneStep(p, st2, at.pc + SizeS(s), Ins0(HALT));
    StepsAdd(p, st, 6, 1);
  }

  /** The argument is sent and f is entered. */
  lemma PassedCall(p: Program, f: FunDef, s: Stmt, at: Pos, st: State, n: int, k: int, x: Val)
    requires f == Defaulting(AssignTo(Off(1, 1), Literal(IntLit(k)))) && s == Passing(IntLit(n))
    requires AtStatement(p, [f], s, at, st) && p.funs == [FunInfo(f.header, 1, TmpsS(f.prologue) + TmpsS(f.body))]
    requires st.heap == WithFunction(x, ONE) && st.frame.env == 0
    ensures var s1 := Steps(p, st, 2);
            && Ready(s1, 1, 1) && s1.heap == WithFunction(x, ONE) + [Env(Some(0), [Cell(Int(n), false)])]
            && s1.frame == Frame(2, [Null], at.pc + SizeS(s), s1.frame.retTmp) && s1.callers == st.callers + [st.frame]
            && s1.tries == st.tries
  {
    hide Steps, CodeAt, PoolAt, Linked, WithFunction, ONE, TmpsS, SizeS, CodeS, PoolS;
    var send, fcall := Ins1(SENDVAL, ConstOp(at.k)), IR(FCALL, VarOp(Off(0, 0)), NO_OPERAND, TmpOp(at.t));
    PassingCode(at, n, 0, 0);
    DefaultingTemps(k);
    CodeSplit(p, at.pc, [send], [fcall]);
    OneStep(p, st, at.pc, send);
    var s1 := Steps(p, st, 1);
    ConstantAt(p, at.k, Int(n));
    assert s1 == st.(pc := at.pc + 1, args := [ConstRef(at.k)]);
    CallStepOf(p, f, s1, fcall, n, k, x);
    StepsAdd(p, st, 1, 1);
  }

  lemma CallStepOf(p: Program, f: FunDef, s: State, i: IR, n: int, k: int, x: Val)
    requires f == Defaulting(AssignTo(Off(1, 1), Literal(IntLit(k)))) && p.funs == [FunInfo(f.header, 1, 1)]
    requires i == IR(FCALL, VarOp(Off(0, 0)), NO_OPERAND, i.result) && i.result.kind.FetchTmp? && CodeAt(p, s.pc, [i])
    requires s.status.Running? && s.exc.None? && s.heap == WithFunction(x, ONE) && s.frame.env == 0
    requires exists c :: s.args == [c] && Load(p, s, c) == Some(Int(n))
    ensures Steps(p, s, 1)
            == s.(heap := WithFunction(x, ONE) + [Env(Some(0), [Cell(Int(n), false)])],
                  callers := s.callers + [s.frame],
                  frame := Frame(2, [Null], s.pc + 1, i.result.off.idx), args := [], pc := 1)
  {
    hide Steps, CodeAt, WithFunction, ONE, BindCells, LoadAll, Walk, Execute;
    var c :| s.args == [c] && Load(p, s, c) == Some(Int(n));
    OneSent(p, s, c, Int(n));
    OneArgument([f], 0, IntLit(n), s.heap);
    FunctionStore(x);
    FunctionRead(s.heap);
    CallStep(p, s, i, Func(0), [Int(n)]);
    assert seq(1, _ => Null) == [Null];
  }

  lemma ConstantAt(p: Program, k: nat, v: Val)
    requires PoolAt(p, k, [v])
    ensures k < |p.consts| && p.consts[k] == v
  {
    assert p.consts[k] == p.consts[k..k + 1][0];
  }

  lemma OneSent(p: Program, s: State, c: CellRef, v: Val)
    requires s.args == [c] && Load(p, s, c) == Some(v)
    ensures LoadAll(p, s, s.args) == Some([v])
  {
    assert LoadAll(p, s, s.args[1..]) == Some([]) && [v] + [] == [v];
  }

  lemma FunctionRead(h: Heap)
    requires h != [] && h[0].cells != [] && h[0].cells[0].v == Func(0)
    ensures ReadVar(h, 0, Off(0, 0)) == Some(Func(0))
  {
    assert Walk(h, 0, 0) == Some(0);
  }

  lemma PassingCode(at: Pos, n: int, brk: nat, cont: nat)
    ensures var s := Passing(IntLit(n));
            && CodeS(s, at, brk, cont)
               == [Ins1(SENDVAL, ConstOp(at.k))] + [IR(FCALL, VarOp(Off(0, 0)), NO_OPERAND, TmpOp(at.t))]
            && PoolS(s) == [Int(n)] && SizeS(s) == 2 && TmpsS(s) == 1
  {
    var a := Literal(IntLit(n));
    var args := Exprs(a, NoExpr);
    assert SizeE(a) == 0 && TmpsE(a) == 0 && PoolE(a) == [Int(n)] && CodeE(a, at) == [] && OpE(a, at) == ConstOp(at.k);
    assert SizeA(args) == 0 && CountA(args) == 1 && TmpsA(args) == 0 && PoolA(args) == [Int(n)];
    var f := Ident(Off(0, 0));
    assert AfterE(f, at) == at;
    assert CodeA(args, at) == [] && Sends(args, at) == [Ins1(SENDVAL, ConstOp(at.k))];
    CallParts(Call(f, args), at);
  }

  lemma DefaultingTemps(k: int)
    ensures var f := Defaulting(AssignTo(Off(1, 1), Literal(IntLit(k)))); TmpsS(f.prologue) == 1 && TmpsS(f.body) == 0
  {
    var e := AssignTo(Off(1, 1), Literal(IntLit(k)));
    assert TmpsE(e.e) == 0 && TmpsE(e) == 1;
  }

  /** The body of f: the jump, the assignment it lands on, the body's own assignment, and OP_LEAVE. */
  lemma BodyRun(p: Program, f: FunDef, s: State, n: int, k: int, x: Val)
    requires f == Defaulting(AssignTo(Off(1, 1), Literal(IntLit(k)))) && FunAt(p, f, FunEntry(START))
    requires Ready(s, 1, 1) && s.heap == WithFunction(x, ONE) + [Env(Some(0), [Cell(Int(n), false)])]
    requires s.frame.env == 2 && s.frame.temps == [Null] && s.callers != []
    ensures var s' := Steps(p, s, 4);
            && s'.status.Running? && s'.exc.None? && s'.args == [] && s'.pc == s.frame.retAddr
               && s'.heap == AfterCall(Null)
  {
    hide Steps, CodeAt, WithFunction, WriteVar, ReadVar, Assignable, ONE;
    var e := AssignTo(Off(1, 1), Literal(IntLit(k)));
    var at := FunEntry(START);
    var store, copy := Ins2(ASSIGN, VarOp(Off(0, 0)), TmpOp(0)), Ins2(ASSIGN, VarOp(Off(1, 1)), VarOp(Off(0, 0)));
    BodyCode(p, f, k);
    ReadLocal(x, Int(n));
    DefaultLands(p, f.prologue, at, 0, 0, s, Int(n));
    var h0, h1 := WithFunction(x, ONE), WithFunction(x, ONE) + [Env(Some(0), [Cell(Null, false)])];
    var s1 := s.(pc := 3);
    FunctionStore(x);
    WriteLocal(h0, Some(0), [Cell(Int(n), false)], 0, Null);
    assert [Cell(Int(n), false)][0 := Cell(Null, false)] == [Cell(Null, false)];
    OneStep(p, s1, 3, store);
    var s2 := s1.(pc := 4, heap := h1);
    assert Execute(p, s1, store) == s2;
    ReadLocal(x, Null);
    WriteX(x, ONE, [Env(Some(0), [Cell(Null, false)])], Null);
    OneStep(p, s2, 4, copy);
    var s3 := s2.(pc := 5, heap := AfterCall(Null));
    assert Execute(p, s2, copy) == s3;
    OneStep(p, s3, 5, Ins0(LEAVE));
    StepsAdd(p, s, 1, 1);
    StepsAdd(p, s, 2, 1);
    StepsAdd(p, s, 3, 1);
  }

  lemma BodyCode(p: Program, f: FunDef, k: int)
    requires f == Defaulting(AssignTo(Off(1, 1), Literal(IntLit(k)))) && FunAt(p, f, FunEntry(START))
    ensures CodeAt(p, 1, CodeS(f.prologue, FunEntry(START), 0, 0))
            && CodeAt(p, 3, [Ins2(ASSIGN, VarOp(Off(0, 0)), TmpOp(0))])
    ensures CodeAt(p, 4, [Ins2(ASSIGN, VarOp(Off(1, 1)), VarOp(Off(0, 0)))]) && CodeAt(p, 5, [Ins0(LEAVE)])
  {
    hide CodeAt;
    var at, e := FunEntry(START), AssignTo(Off(1, 1), Literal(IntLit(k)));
    var c1, c2 := CodeS(f.prologue, at, 0, 0), CodeS(f.body, AfterS(f.prologue, at), 0, 0);
    var x := Ident(Off(0, 0));
    assert SizeE(x) == 0 && CodeE(x, AfterS(f.prologue, at)) == []
           && OpE(x, AfterS(f.prologue, at)) == VarOp(Off(0, 0));
    assert c2 == [Ins2(ASSIGN, VarOp(Off(1, 1)), VarOp(Off(0, 0)))];
    CodeSplit(p, 1, c1 + c2, [Ins0(LEAVE)]);
    CodeSplit(p, 1, c1, c2);
    assert SizeE(e.e) == 0 && SizeE(e) == 1 && TmpsE(e.e) == 0 && OpE(e, at) == TmpOp(0);
    CodeSplit(p, 1, [Ins2(JMPNZ, VarOp(Off(0, 0)), Addr(3))] + CodeE(e, Past(at, 1)),
              [Ins2(ASSIGN, VarOp(Off(0, 0)), OpE(e, at))]);
  }

  // ----- or -----

  /** An `or` whose operands are both falsy leaves its result's temporary as it was before the whole expression;
      every other short-circuit expression that completes writes it. */
  lemma OrKeepsOldValue(p: Program, g: seq<FunDef>, fuel: nat, e: Expr, at: Pos, s: State)
    requires e.Logic? || e.Boolean?
    requires Linked(p, g) && CodeAt(p, at.pc, CodeE(e, at)) && PoolAt(p, at.k, PoolE(e))
             && Ready(s, at.pc, at.t + TmpsE(e))
    requires Eval(g, fuel, e, s.heap, s.frame.env).Norm?
    ensures var o := Eval(g, fuel, e, s.heap, s.frame.env);
            && (o.res.Junk? <==> BothFalsy(g, fuel, e, s.heap, s.frame.env))
            && exists n: nat ::
                 && Arrive(p, s, n, at.pc + SizeE(e), o.h, at.t)
                 && ReadOp(p, Steps(p, s, n), OpE(e, at))
                    == if o.res.Junk? then Some(s.frame.temps[OpE(e, at).off.idx]) else Deref(o.res, o.h, s.frame.env)
  {
    hide Steps, CodeAt, PoolAt, Linked, CodeE, Eval, EvalShort, Denotes;
    JunkIsBothFalsy(g, fuel, e, s.heap, s.frame.env);
    var o := Eval(g, fuel, e, s.heap, s.frame.env);
    if o.res.Junk? {
      OrRun(p, g, fuel, e, at, s);
    } else {
      ExpressionCorrect(p, g, fuel, e, at, s);
      WrittenRun(p, s, o, Goal(at.pc + SizeE(e), 0, 0, at.t, fuel), at.t + TmpsE(e), OpE(e, at));
    }
  }

  ghost predicate BothFalsy(g: seq<FunDef>, fuel: nat, e: Expr, h: Heap, env: nat)
    requires e.Logic? || e.Boolean?
  {
    var l := Demand(Eval(g, fuel, e.l, h, env), env);
    && e.Logic? && !e.isAnd && l.Got? && !Truthy(l.v)
    && (var r := Demand(Eval(g, fuel, e.r, l.h, env), env); r.Got? && !Truthy(r.v))
  }

  lemma JunkIsBothFalsy(g: seq<FunDef>, fuel: nat, e: Expr, h: Heap, env: nat)
    requires (e.Logic? || e.Boolean?) && Eval(g, fuel, e, h, env).Norm?
    ensures Eval(g, fuel, e, h, env).res.Junk? <==> BothFalsy(g, fuel, e, h, env)
    ensures !Eval(g, fuel, e, h, env).res.Ref?
    ensures BothFalsy(g, fuel, e, h, env) ==>
              var l := Demand(Eval(g, fuel, e.l, h, env), env);
              Eval(g, fuel, e, h, env).h == Demand(Eval(g, fuel, e.r, l.h, env), env).h
  {
    assert Eval(g, fuel, e, h, env) == EvalShort(g, fuel, e, h, env);
  }

  lemma WrittenRun(p: Program, s: State, o: Out, to: Goal, top: nat, op: Operand)
    requires Computed(p, s, o, to, top, op) && o.Norm? && o.res.Held?
    ensures exists n: nat :: Arrive(p, s, n, to.end, o.h, to.t) && ReadOp(p, Steps(p, s, n), op) == Some(o.res.v)
  {
    hide Steps;
    var n: nat :| RunInside(p, s, n, o, to, top) && Denotes(p, Steps(p, s, n), op, o.res);
    assert Arrive(p, s, n, to.end, o.h, to.t);
  }

  /** One operand of an `or`, falsy: its code and the test after it change no temporary but the operand's own. */
  lemma FalsyOperand(p: Program, g: seq<FunDef>, fuel: nat, e: Expr, at: Pos, s: State, i: IR) returns (n: nat)
    requires Linked(p, g) && CodeAt(p, at.pc, CodeE(e, at)) && PoolAt(p, at.k, PoolE(e))
             && Ready(s, at.pc, at.t + TmpsE(e))
    requires CodeAt(p, at.pc + SizeE(e), [i]) && i.op.OR? && i.op1 == OpE(e, at)
    requires var r := Demand(Eval(g, fuel, e, s.heap, s.frame.env), s.frame.env); r.Got? && !Truthy(r.v)
    ensures var h := Demand(Eval(g, fuel, e, s.heap, s.frame.env), s.frame.env).h;
            Arrive(p, s, n, at.pc + SizeE(e) + 1, h, at.t) && Untouched(s, Steps(p, s, n), at.t, at.t + TmpsE(e))
  {
    hide Steps, CodeAt, PoolAt, Linked, CodeE, Eval, Denotes, ReadOp, OpE, SizeE, TmpsE;
    ExpressionCorrect(p, g, fuel, e, at, s);
    var o, to, top := Eval(g, fuel, e, s.heap, s.frame.env), Goal(at.pc + SizeE(e), 0, 0, at.t, fuel), at.t + TmpsE(e);
    var m: nat :| RunInside(p, s, m, o, to, top) && (o.Norm? ==> Denotes(p, Steps(p, s, m), OpE(e, at), o.res));
    var s1, v := Steps(p, s, m), Demand(o, s.frame.env).v;
    ReadDenoted(p, s1, OpE(e, at), o.res, v);
    OneStep(p, s1, to.end, i);
    var s2 := Steps(p, s1, 1);
    assert s2 == Next(s1);
    StepsAdd(p, s, m, 1);
    n := m + 1;
    KeptHeap(s, s1, s2, at.t);
  }

  lemma OrRun(p: Program, g: seq<FunDef>, fuel: nat, e: Expr, at: Pos, s: State)
    requires e.Logic? && BothFalsy(g, fuel, e, s.heap, s.frame.env) && Eval(g, fuel, e, s.heap, s.frame.env).Norm?
    requires Linked(p, g) && CodeAt(p, at.pc, CodeE(e, at)) && PoolAt(p, at.k, PoolE(e))
             && Ready(s, at.pc, at.t + TmpsE(e))
    ensures exists n: nat ::
              && Arrive(p, s, n, at.pc + SizeE(e), Eval(g, fuel, e, s.heap, s.frame.env).h, at.t)
              && ReadOp(p, Steps(p, s, n), OpE(e, at)) == Some(s.frame.temps[OpE(e, at).off.idx])
  {
    hide Steps, CodeAt, PoolAt, Linked, CodeE, Eval, SecondTest, OpE, PoolE, TmpsE, SizeE;
    JunkIsBothFalsy(g, fuel, e, s.heap, s.frame.env);
    ShortParts(e, at);
    var l, r, at1 := e.l, e.r, SecondTest(e, at);
    var i1, i2 := TestCode(e, l, at, at), TestCode(e, r, at1, at);
    CodeSplit(p, at.pc, CodeE(l, at) + [i1] + CodeE(r, at1), [i2]);
    CodeSplit(p, at.pc, CodeE(l, at) + [i1], CodeE(r, at1));
    CodeSplit(p, at.pc, CodeE(l, at), [i1]);
    PoolSplit(p, at.k, PoolE(l), PoolE(r));
    var n := FalsyOperand(p, g, fuel, l, at, s, i1);
    var s1, h1 := Steps(p, s, n), Demand(Eval(g, fuel, l, s.heap, s.frame.env), s.frame.env).h;
    var m := FalsyOperand(p, g, fuel, r, at1, s1, i2);
    var h2 := Demand(Eval(g, fuel, r, h1, s.frame.env), s.frame.env).h;
    ArriveThen(p, s, n, at1.pc, h1, at.t, m, at1.pc + SizeE(r) + 1, h2, at1.t);
    var s2, j := Steps(p, s, n + m), at.t + TmpsE(l);
    assert s2.frame.temps[j] == s1.frame.temps[j] == s.frame.temps[j];
    ReadTmp(p, s2, j);
  }
}
