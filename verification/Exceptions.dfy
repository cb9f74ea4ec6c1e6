/** Where exceptions go: which handler gets a throw, in which frame it runs, and when the finally block does. */
module Exceptions {
  import opened Values
  import opened Store
  import opened Ast
  import opened Machine
  import opened Semantics
  import opened Layout
  import opened Simulation
  import opened ExpressionProof
  import opened StatementProof
  import opened Correctness
  import opened Backpatch
  import opened Jumps
  import opened Compiler
  import opened Footprint
  import opened CleanCode
  import opened Samples

  /** A compiled try statement about to start. */
  ghost predicate AtTry(p: Program, g: seq<FunDef>, s: Stmt, at: Pos, brk: nat, cont: nat, st: State) {
    && s.Try? && Linked(p, g) && CodeAt(p, at.pc, CodeS(s, at, brk, cont)) && PoolAt(p, at.k, PoolS(s))
    && Ready(st, at.pc, at.t + TmpsS(s))
  }

  lemma TryUnfolded(s: Stmt, at: Pos, x: Exits)
    requires s.Try?
    ensures CodeS(s, at, x.brk, x.cont) == CodeTry(s, at, x.brk, x.cont)
  {
  }

  /** What the label throw_exception makes of a pending exception once it has chosen among the entries: those in
      `tries` are left, and the exception goes to the last of them, or ends the program if there is none. */
  predicate GoesTo(p: Program, s: State, s': State, tries: seq<TryEntry>, ex: Val) {
    if tries == [] then s' == s.(status := Uncaught(ex), tries := [])
    else
      && Last(tries).addr < |p.code|
      && s' == WriteOp(s.(tries := tries, exc := None, pc := Last(tries).addr), p.code[Last(tries).addr].op1, ex)
  }

  /** The state keeps the frame of the start state, or runs in that of a call made from it. */
  ghost predicate FrameOf(st: State, s: State, o: Out)
    requires o.Thr? || o.Abort?
  {
    if o.Thr? then s.callers == st.callers && s.frame.env == st.frame.env
    else Deeper(st, s) && s.frame.env == o.thrower
  }

  lemma GoesOneWay(p: Program, s: State, s': State, a: seq<TryEntry>, b: seq<TryEntry>, ex: Val)
    requires GoesTo(p, s, s', a, ex) && a != b
    ensures !GoesTo(p, s, s', b, ex)
  {
    KeepsTries(p, s, s', a, ex);
    if GoesTo(p, s, s', b, ex) {
      KeepsTries(p, s, s', b, ex);
    }
  }

  lemma KeepsTries(p: Program, s: State, s': State, a: seq<TryEntry>, ex: Val)
    requires GoesTo(p, s, s', a, ex)
    ensures s'.tries == a
  {
  }

  // ----- entering a handler -----

  /** When the guarded part of a try statement throws, the exception goes to the statement's own handler; that runs
      in the frame of the statement if and only if the exception did not leave a call.  After one that did, the call
      stack is still the deeper one, and `x` is looked up in the environment of the thrower. */
  lemma HandlerEntry(p: Program, g: seq<FunDef>, fuel: nat, s: Stmt, at: Pos, brk: nat, cont: nat, st: State)
      returns (n: nat)
    requires AtTry(p, g, s, at, brk, cont, st)
    requires var o := ExecGuarded(g, fuel, s, st.heap, st.frame.env); o.Thr? || o.Abort?
    ensures var o, addr := ExecGuarded(g, fuel, s, st.heap, st.frame.env), HandlerAt(s, at).pc;
            var s1, s2 := Steps(p, st, n), Steps(p, st, n + 1);
            && GoesTo(p, s1, s2, st.tries + [TryEntry(addr, 1)], o.ex)
            && FrameOf(st, s2, o) && (s2.callers == st.callers && s2.frame.env == st.frame.env <==> o.Thr?)
            && (var bound := WriteVar(o.h, s2.frame.env, s.x, o.ex);
                bound.Some? ==> s2.status.Running? && s2.exc.None? && s2.pc == addr && s2.heap == bound.value)
  {
    hide Steps, CodeAt, PoolAt, Linked, CodeS, ExecGuarded, CallsOk, WriteVar;
    AllCalls(p, g, fuel);
    var c, x := Ctx(p, g, fuel), Exits(brk, cont);
    TryUnfolded(s, at, x);
    SplitTryCode(p, s, at, x);
    SplitTryPool(p, s, at);
    n := SimGuarded(c, s, at, x, st);
    var o, s1 := ExecGuarded(g, fuel, s, st.heap, st.frame.env), Steps(p, st, n);
    CatchOperand(p, HandlerAt(s, at).pc, s.x);
    DispatchStep(p, st, s1, HandlerAt(s, at).pc, 1, o.ex, o.dirty);
    StepsAdd(p, st, n, 1);
  }

  /** One step with an exception pending above an entry: a dirty exception takes the entry on top away, and an entry
      in phase 2 that is then on top goes too unless the exception was dirty. */
  lemma DispatchStep(p: Program, st: State, s: State, addr: nat, phase: nat, ex: Val, dirty: bool)
    requires Pending(Guarded(st, addr, phase), s, ex, dirty) && addr < |p.code| && (phase == 1 || phase == 2)
    requires phase == 2 && !dirty && st.tries != [] ==> Last(st.tries).addr < |p.code|
    ensures var left := if phase == 2 && !dirty then st.tries else st.tries + [TryEntry(addr, phase)];
            GoesTo(p, s, Steps(p, s, 1), left, ex)
  {
    assert Init(st.tries + [TryEntry(addr, phase)]) == st.tries;
    assert Steps(p, s, 1) == Steps(p, Dispatch(p, s, ex), 0);
  }

  lemma CatchOperand(p: Program, addr: nat, x: Off)
    requires CodeAt(p, addr, [Ins1(CATCH, VarOp(x))])
    ensures addr < |p.code| && p.code[addr].op1.kind.FetchVar? && p.code[addr].op1.off == x
  {
    assert Same(p.code[addr + 0], [Ins1(CATCH, VarOp(x))][0]);
  }

  /** Without a call in it the guarded part throws in its own frame, so the handler runs there. */
  lemma CallFreeCaught(g: seq<FunDef>, fuel: nat, s: Stmt, h: Heap, env: nat)
    requires s.Try? && CallFree(s.body) && CallFree(s.finalizer)
    ensures !ExecGuarded(g, fuel, s, h, env).Abort?
  {
    hide Exec, CallFree, Targets;
    FootS(g, fuel, s.body, h, env, Targets(s.body));
    var o := Exec(g, fuel, s.body, h, env);
    if o.Norm? {
      FootS(g, fuel, s.finalizer, o.h, env, Targets(s.finalizer));
    }
  }

  /** When the guarded part completes or jumps, the try stack is as before if and only if it completes: after a
      break, a continue or a return the statement's own entry is still armed, with control already elsewhere. */
  lemma EntryAfterJump(p: Program, g: seq<FunDef>, fuel: nat, s: Stmt, at: Pos, brk: nat, cont: nat, st: State)
      returns (n: nat)
    requires AtTry(p, g, s, at, brk, cont, st)
    requires var o := ExecGuarded(g, fuel, s, st.heap, st.frame.env); o.Norm? || o.Brk? || o.Cont? || o.Ret?
    ensures var o, s1 := ExecGuarded(g, fuel, s, st.heap, st.frame.env), Steps(p, st, n);
            && s1.status.Running? && s1.exc.None? && s1.heap == o.h && Kept(st, s1, at.t)
            && (o.Norm? ==> s1.pc == at.pc + SizeS(s)) && (o.Brk? ==> s1.pc == brk) && (o.Cont? ==> s1.pc == cont)
            && (o.Ret? ==> AtReturn(p, s1, o.res))
            && (s1.tries == st.tries <==> o.Norm?)
            && (s1.tries == st.tries + [TryEntry(HandlerAt(s, at).pc, 1)] <==> !o.Norm?)
  {
    hide Steps, CodeAt, PoolAt, Linked, CodeS, ExecGuarded, CallsOk, AtReturn;
    AllCalls(p, g, fuel);
    var c, x := Ctx(p, g, fuel), Exits(brk, cont);
    TryUnfolded(s, at, x);
    SplitTryCode(p, s, at, x);
    SplitTryPool(p, s, at);
    n := SimGuarded(c, s, at, x, st);
    if !ExecGuarded(g, fuel, s, st.heap, st.frame.env).Norm? {
      KeptBase(st, Guarded(st, HandlerAt(s, at).pc, 1), Steps(p, st, n), at.t);
    }
    assert st.tries != st.tries + [TryEntry(HandlerAt(s, at).pc, 1)];
  }

  // ----- leaving a handler -----

  /** A handler that was entered in the statement's own frame and ends by an exception, or whose finally block does:
      the exception reaches the nearest enclosing entry, or ends the program if there is none, if and only if it is
      not dirty.  A dirty one, thrown by another handler inside this one, a called function's too, goes back to
      this handler, which it was leaving. */
  lemma HandlerLeft(p: Program, g: seq<FunDef>, fuel: nat, s: Stmt, at: Pos, brk: nat, cont: nat, st: State)
      returns (n: nat)
    requires AtTry(p, g, s, at, brk, cont, st) && EntriesOk(p, st)
    requires var o := ExecGuarded(g, fuel, s, st.heap, st.frame.env);
             o.Thr? && (var r := ExecCaught(g, fuel, s, o.ex, o.h, st.frame.env); r.Thr? || r.Abort?)
    ensures var o, addr := ExecGuarded(g, fuel, s, st.heap, st.frame.env), HandlerAt(s, at).pc;
            var r := ExecCaught(g, fuel, s, o.ex, o.h, st.frame.env);
            var s1, s2 := Steps(p, st, n), Steps(p, st, n + 1);
            && s1.status.Running? && s1.exc == Some(r.ex) && s1.heap == r.h && FrameOf(st, s1, r)
            && (GoesTo(p, s1, s2, st.tries, r.ex) <==> !r.dirty)
            && (GoesTo(p, s1, s2, st.tries + [TryEntry(addr, 2)], r.ex) <==> r.dirty)
  {
    hide Steps, CodeAt, PoolAt, Linked, CodeS, ExecGuarded, ExecCaught, CallsOk, GoesTo;
    AllCalls(p, g, fuel);
    var c, x, addr := Ctx(p, g, fuel), Exits(brk, cont), HandlerAt(s, at).pc;
    TryUnfolded(s, at, x);
    SplitTryCode(p, s, at, x);
    SplitTryPool(p, s, at);
    var m := SimGuarded(c, s, at, x, st);
    var o, s0 := ExecGuarded(g, fuel, s, st.heap, st.frame.env), Steps(p, st, m);
    KeptBase(st, Guarded(st, addr, 1), s0, at.t);
    var q := SimCaughtOnce(c, s, at, x, st, s0, 1, o.ex, o.dirty);
    StepsAdd(p, st, m, q);
    n := m + q;
    var r, s1 := ExecCaught(g, fuel, s, o.ex, o.h, st.frame.env), Steps(p, st, n);
    CatchOperand(p, addr, s.x);
    DispatchStep(p, st, s1, addr, 2, r.ex, r.dirty);
    StepsAdd(p, st, n, 1);
    var own := st.tries + [TryEntry(addr, 2)];
    if r.dirty {
      GoesOneWay(p, s1, Steps(p, s1, 1), own, st.tries, r.ex);
    } else {
      GoesOneWay(p, s1, Steps(p, s1, 1), st.tries, own, r.ex);
    }
  }

  /** Without a try statement in the handler, in the finally block or in any function, every exception that leaves
      the handler reaches the nearest enclosing entry. */
  lemma TryFreeLeft(g: seq<FunDef>, fuel: nat, s: Stmt, ex: Val, h: Heap, env: nat)
    requires s.Try? && TryFree(s.handler) && TryFree(s.finalizer) && AllTryFree(g)
    ensures Clean(ExecCaught(g, fuel, s, ex, h, env))
  {
    hide Exec, ExecClauses, TryFree, AllTryFree;
    var h2 := WriteVar(h, env, s.x, ex);
    if h2.Some? {
      CleanClauses(g, fuel, s.handler, h2.value, env);
      var o := ExecClauses(g, fuel, s.handler, h2.value, env);
      if o.Norm? {
        CleanS(g, fuel, s.finalizer, o.h, env);
      }
    }
  }

  /** After the handler, the finally block is run if and only if the handler completes: otherwise the handler's
      exception is pending with the variables that the handler left, to go where `HandlerLeft` says.  This is so
      whether the body threw or, after it had completed, the finally block. */
  lemma AfterHandler(p: Program, g: seq<FunDef>, fuel: nat, s: Stmt, at: Pos, brk: nat, cont: nat, st: State, h2: Heap)
      returns (n: nat)
    requires AtTry(p, g, s, at, brk, cont, st)
    requires var o := ExecGuarded(g, fuel, s, st.heap, st.frame.env);
             o.Thr? && WriteVar(o.h, st.frame.env, s.x, o.ex) == Some(h2)
    requires var c := ExecClauses(g, fuel, s.handler, h2, st.frame.env); c.Norm? || c.Thr? || c.Abort?
    ensures var c, inside := ExecClauses(g, fuel, s.handler, h2, st.frame.env), Guarded(st, HandlerAt(s, at).pc, 2);
            var s1 := Steps(p, st, n);
            && (At(inside, s1, FinallyAt(s, at).pc, c.h, at.t) <==> c.Norm?)
            && (c.Norm? || (Pending(inside, s1, c.ex, c.dirty) && s1.heap == c.h))
  {
    hide Steps, CodeAt, PoolAt, Linked, CodeS, ExecGuarded, ExecClauses, CallsOk;
    AllCalls(p, g, fuel);
    var c, x, addr := Ctx(p, g, fuel), Exits(brk, cont), HandlerAt(s, at).pc;
    TryUnfolded(s, at, x);
    SplitTryCode(p, s, at, x);
    SplitTryPool(p, s, at);
    var m := SimGuarded(c, s, at, x, st);
    var o, s0 := ExecGuarded(g, fuel, s, st.heap, st.frame.env), Steps(p, st, m);
    KeptBase(st, Guarded(st, addr, 1), s0, at.t);
    CatchSteps(c, st, s0, s.x, addr, 1, o.ex, o.dirty, o.h, h2, at.t);
    StepsAdd(p, st, m, 2);
    var s1 := Steps(p, st, m + 2);
    var at1 := Past(HandlerAt(s, at), 1);
    var q := SimClauses(c, s.handler, at1, x, s1);
    StepsAdd(p, st, m + 2, q);
    n := m + 2 + q;
    var r := ExecClauses(g, fuel, s.handler, h2, st.frame.env);
    if r.Norm? {
      AtBase(Guarded(st, addr, 2), s1, Steps(p, st, n), FinallyAt(s, at).pc, r.h, at.t, at1.t);
    }
  }

  // ----- the try stack of a whole run -----

  /** Every entry is a handler in the program, armed or running. */
  predicate EntriesOk(p: Program, s: State) {
    forall e :: e in s.tries ==> e.addr < |p.code| && (e.phase == 1 || e.phase == 2)
  }

  predicate HandlersInside(p: Program) {
    forall k :: 0 <= k < |p.code| && p.code[k].op.TRY? ==> p.code[k].op1.addr < |p.code|
  }

  lemma EntriesStep(p: Program, s: State)
    requires HandlersInside(p) && EntriesOk(p, s)
    ensures EntriesOk(p, Step(p, s))
  {
    hide Execute, Dispatch;
    if s.status.Running? && s.exc.Some? {
      TriesAfterThrow(p, s, s.exc.value);
    } else if s.status.Running? && s.pc < |p.code| {
      TriesAfter(p, s, p.code[s.pc]);
    }
  }

  /** Only three opcodes touch the try stack. */
  lemma TriesAfter(p: Program, s: State, i: IR)
    ensures Execute(p, s, i).tries ==
            match i.op
            case TRY => s.tries + [TryEntry(i.op1.addr, 1)]
            case CATCH => if s.tries == [] then [] else Init(s.tries) + [Last(s.tries).(phase := 2)]
            case ETRY => if s.tries == [] then [] else Init(s.tries)
            case _ => s.tries
  {
    hide ReadOp, WriteVar, Arith, Compare, Stepped, LoadAll, RefOf, Activate, Assignable;
  }

  lemma TriesAfterThrow(p: Program, s: State, v: Val)
    ensures forall e :: e in Dispatch(p, s, v).tries ==> e in s.tries
  {
    hide WriteVar;
  }

  lemma {:induction false} EntriesRun(p: Program, s: State, n: nat)
    requires HandlersInside(p) && EntriesOk(p, s)
    ensures EntriesOk(p, Steps(p, s, n))
    decreases n
  {
    hide Step;
    if n > 0 {
      EntriesStep(p, s);
      EntriesRun(p, Step(p, s), n - 1);
    }
  }

  /** In every run of a compiled program. */
  lemma CompiledEntries(main: Stmt, g: seq<FunDef>, h: Heap, n: nat)
    requires Compilable(main, g)
    ensures EntriesOk(Compiled(main, g), Steps(Compiled(main, g), Started(main, h), n))
  {
    hide CodeS, FunTable, Declares, JumpsOk, Steps, HandlersInside;
    TargetsInside(Compiled(main, g), main);
    EntriesRun(Compiled(main, g), Started(main, h), n);
  }

  lemma TargetsInside(p: Program, main: Stmt)
    requires JumpsOk(main, false, false) && p.code == CodeS(main, START, 0, 0) + [Ins0(HALT)]
    ensures HandlersInside(p)
  {
    hide CodeS, JumpsOk, SizeS;
    ProgramJumpsClosed(main, START);
    forall k | 0 <= k < |p.code| && p.code[k].op.TRY? ensures p.code[k].op1.addr < |p.code| {
      assert Within(CodeS(main, START, 0, 0)[k], 0 + k, Bounds(0, SizeS(main), [], 0, [], 0));
    }
  }

  // ----- programs -----

  lemma ThrownAtTop(main: Stmt, h: Heap)
    requires JumpsOk(main, false, false) && Declares([], main) && Exec([], 0, main, h, 0).Thr?
    ensures Compilable(main, [])
    ensures var o := Exec([], 0, main, h, 0); StopsWith(Compiled(main, []), Started(main, h), Uncaught(o.ex), o.h)
  {
    hide Exec, Compiled, Started, StopsWith, JumpsOk, Declares, FunTable;
    CompilerCorrect(main, [], h, 0);
  }

  lemma NoLooseJumps()
    ensures JumpsOk(SKIPPING, false, false) && Declares([], SKIPPING)
    ensures JumpsOk(REENTERING, false, false) && Declares([], REENTERING)
  {
  }

  /** `try { throw 1; } catch (e) { throw 2; } finally { x = 3; }` */
  const SKIPPING := Try(Throw(Literal(IntLit(1))), Off(0, 1), Throw(Literal(IntLit(2))),
                        Assign(Off(0, 0), Literal(IntLit(3))))

  /** Compiled and run: x is left alone. */
  lemma FinallySkipped()
    ensures Compilable(SKIPPING, [])
    ensures StopsWith(Compiled(SKIPPING, []), Started(SKIPPING, Globals(Int(0), Null)), Uncaught(Int(2)),
                      Globals(Int(0), Int(1)))
  {
    hide Exec, Compiled, Started, StopsWith, JumpsOk, Declares, FunTable;
    SkippedMeaning();
    NoLooseJumps();
    ThrownAtTop(SKIPPING, Globals(Int(0), Null));
  }

  lemma SkippedMeaning()
    ensures Exec([], 0, SKIPPING, Globals(Int(0), Null), 0) == Thr(Int(2), true, Globals(Int(0), Int(1)))
  {
    hide WriteVar, Globals;
    var h, h2 := Globals(Int(0), Null), Globals(Int(0), Int(1));
    WriteGlobal(Int(0), Null, Int(1));
    assert Exec([], 0, SKIPPING.body, h, 0) == Thr(Int(1), false, h);
    assert ExecGuarded([], 0, SKIPPING, h, 0) == Thr(Int(1), false, h);
    assert Exec([], 0, SKIPPING.handler, h2, 0) == Thr(Int(2), false, h2);
  }

  /** `try { } catch (e) { x = e; } finally { throw 1; }` */
  const REENTERING := Try(Skip, Off(0, 1), Assign(Off(0, 0), Ident(Off(0, 1))), Throw(Literal(IntLit(1))))

  /** Compiled and run: the statement catches its own finally block's exception, and the finally block runs
      again. */
  lemma FinallyReenters()
    ensures Compilable(REENTERING, [])
    ensures StopsWith(Compiled(REENTERING, []), Started(REENTERING, Globals(Int(0), Null)), Uncaught(Int(1)),
                      Globals(Int(1), Int(1)))
  {
    hide Exec, Compiled, Started, StopsWith, JumpsOk, Declares, FunTable;
    ReentersMeaning();
    NoLooseJumps();
    ThrownAtTop(REENTERING, Globals(Int(0), Null));
  }

  lemma ReentersMeaning()
    ensures Exec([], 0, REENTERING, Globals(Int(0), Null), 0) == Thr(Int(1), true, Globals(Int(1), Int(1)))
  {
    hide WriteVar, ReadVar, Assignable, Globals;
    var h, h2, h3 := Globals(Int(0), Null), Globals(Int(0), Int(1)), Globals(Int(1), Int(1));
    assert Exec([], 0, REENTERING.body, h, 0) == Norm(Junk, h);
    assert Exec([], 0, REENTERING.finalizer, h, 0) == Thr(Int(1), false, h);
    assert ExecGuarded([], 0, REENTERING, h, 0) == Thr(Int(1), false, h);
    WriteGlobal(Int(0), Null, Int(1));
    WriteGlobal(Int(0), Int(1), Int(1));
    assert Exec([], 0, REENTERING.handler, h2, 0) == Norm(Junk, h3);
    assert Exec([], 0, REENTERING.finalizer, h3, 0) == Thr(Int(1), false, h3);
  }

  // ----- several catch clauses -----

  /** `try { throw n; } catch (e) { } catch (x) { e = k; }` */
  function TwoClauses(n: int, k: int): Stmt {
    Try(Throw(Literal(IntLit(n))), Off(0, 1), Catches(Skip, Off(0, 0), Assign(Off(0, 1), Literal(IntLit(k)))), Skip)
  }

  /** Compiled and run: both clauses run, and the variable of the second one is not bound. */
  lemma AllClausesRun(n: int, k: int, x: Val)
    ensures Compilable(TwoClauses(n, k), [])
    ensures StopsWith(Compiled(TwoClauses(n, k), []), Started(TwoClauses(n, k), Globals(x, Null)), Halted,
                      Globals(x, Int(k)))
  {
    hide Exec, Compiled, Started, StopsWith, JumpsOk, Declares, FunTable;
    ClausesMeaning(n, k, x);
    ClausesJumps(n, k);
    CompilerCorrect(TwoClauses(n, k), [], Globals(x, Null), 0);
  }

  lemma ClausesJumps(n: int, k: int)
    ensures JumpsOk(TwoClauses(n, k), false, false) && Declares([], TwoClauses(n, k))
  {
    var c := Catches(Skip, Off(0, 0), Assign(Off(0, 1), Literal(IntLit(k))));
    assert JumpsOk(c, false, false) && Declares([], c);
  }

  lemma ClausesMeaning(n: int, k: int, x: Val)
    ensures Exec([], 0, TwoClauses(n, k), Globals(x, Null), 0) == Norm(Junk, Globals(x, Int(k)))
  {
    hide WriteVar, Assignable, Globals;
    var s, h, h1 := TwoClauses(n, k), Globals(x, Null), Globals(x, Int(n));
    WriteGlobal(x, Null, Int(n));
    WriteGlobal(x, Int(n), Int(k));
    assert Exec([], 0, s.body, h, 0) == Thr(Int(n), false, h);
    assert Exec([], 0, s.handler.first, h1, 0) == Norm(Junk, h1);
    assert Eval([], 0, Literal(IntLit(k)), h1, 0) == Norm(Held(Int(k)), h1);
    assert Exec([], 0, s.handler.rest, h1, 0) == Norm(Junk, Globals(x, Int(k)));
    assert ExecClauses([], 0, s.handler, h1, 0) == Norm(Junk, Globals(x, Int(k)));
    assert ExecGuarded([], 0, s, h, 0) == Thr(Int(n), false, h);
    assert Exec([], 0, s.finalizer, Globals(x, Int(k)), 0) == Norm(Junk, Globals(x, Int(k)));
    assert ExecHandler([], 0, s, Int(n), h, 0) == Norm(Junk, Globals(x, Int(k)));
    assert Exec([], 0, s, h, 0) == ExecTry([], 0, s, h, 0);
  }

  const TWO := [Cell(Null, false), Cell(Null, false)]

  /** `function f() { var a, b; throw n; }` */
  function Thrower(n: int): FunDef { FunDef(Header(1, 0, 0, false), Skip, Throw(Literal(IntLit(n)))) }

  /** `try { f(); } catch (e) { }` */
  function Catching(e: Off): Stmt { Try(CallIt(NoExpr), e, Skip, Skip) }

  /** Both compiled and run: the handler is entered in the frame of f, the value is bound to f's second variable,
      and e stays null. */
  lemma WrongFrame(n: int) returns (k: nat)
    ensures Compilable(OneFunction(Thrower(n), Catching(Off(0, 1))), [Thrower(n)])
    ensures var s, f := Catching(Off(0, 1)), Thrower(n);
            var st := Steps(Compiled(OneFunction(f, s), [f]), Started(OneFunction(f, s), WithFunction(Null, TWO)), k);
            && st.status.Running? && st.pc == HandlerAt(s, StatementAt(f)).pc && st.callers != [] && st.frame.env == 2
            && st.heap == WithFunction(Null, TWO) + [Env(Some(0), [Cell(Null, false), Cell(Int(n), false)])]
  {
    hide Steps, Compiled, Compilable, Started, SelfContained, Linked, CodeAt, PoolAt, HandlerAt, StatementAt,
      WithFunction;
    CatchingContained(n, Off(0, 1));
    FromStart(Thrower(n), Catching(Off(0, 1)));
    var f, s := Thrower(n), Catching(Off(0, 1));
    var p, start := Compiled(OneFunction(f, s), [f]), Started(OneFunction(f, s), WithFunction(Null, TWO));
    var m := EnteredWrongly(p, StatementAt(f), Steps(p, start, 1), n);
    StepsAdd(p, start, 1, m);
    k := 1 + m;
  }

  lemma EnteredWrongly(p: Program, at: Pos, st: State, n: int) returns (m: nat)
    requires AtTry(p, [Thrower(n)], Catching(Off(0, 1)), at, 0, 0, st) && FreshAt(st)
    ensures var s := Steps(p, st, m);
            && s.status.Running? && s.pc == HandlerAt(Catching(Off(0, 1)), at).pc && s.callers != [] && s.frame.env == 2
            && s.heap == WithFunction(Null, TWO) + [Env(Some(0), [Cell(Null, false), Cell(Int(n), false)])]
  {
    hide Steps, Exec, AtTry, HandlerAt, WriteVar, ExecGuarded, GoesTo, WithFunction, TWO;
    CatchingMeaning(n, Off(0, 1));
    StoreParts(Null);
    var q := HandlerEntry(p, [Thrower(n)], 1, Catching(Off(0, 1)), at, 0, 0, st);
    BoundSecond(WithFunction(Null, TWO), n);
    m := q + 1;
  }

  lemma BoundSecond(h: Heap, n: int)
    requires |h| == 2
    ensures WriteVar(h + [Env(Some(0), TWO)], 2, Off(0, 1), Int(n))
            == Some(h + [Env(Some(0), [Cell(Null, false), Cell(Int(n), false)])])
  {
    hide WriteVar;
    WriteLocal(h, Some(0), TWO, 1, Int(n));
    assert TWO[1 := Cell(Int(n), false)] == [Cell(Null, false), Cell(Int(n), false)];
  }

  /** The top level before anything has been called. */
  predicate FreshAt(st: State) {
    st.heap == WithFunction(Null, TWO) && st.frame.env == 0 && st.callers == [] && st.tries == []
  }

  /** After its first step a program with one function is at its try statement. */
  lemma FromStart(f: FunDef, s: Stmt)
    requires SelfContained(f, s) && s.Try?
    ensures Compilable(OneFunction(f, s), [f])
    ensures var p, start := Compiled(OneFunction(f, s), [f]), Started(OneFunction(f, s), WithFunction(Null, TWO));
            AtTry(p, [f], s, StatementAt(f), 0, 0, Steps(p, start, 1)) && FreshAt(Steps(p, start, 1))
  {
    hide Steps, Compiled, Compilable, SelfContained, Linked, CodeAt, PoolAt, StatementAt, WithFunction;
    OneFunctionStarts(f, s, WithFunction(Null, TWO));
  }

  lemma CatchingContained(n: int, e: Off)
    ensures SelfContained(Thrower(n), Catching(e))
  {
  }

  lemma CatchingMeaning(n: int, e: Off)
    ensures var h := WithFunction(Null, TWO);
            |h| == 2 && ExecGuarded([Thrower(n)], 1, Catching(e), h, 0)
              == Abort(Int(n), false, h + [Env(Some(0), TWO)], 2)
  {
    hide EvalArgs, DerefAll, BindCells, TWO;
    var f, h := Thrower(n), WithFunction(Null, TWO);
    NoArguments([f], 1, h, TWO);
    CallMeaning(f, 0, NoExpr, [], h, TWO);
    assert Exec([f], 0, f.body, h + [Env(Some(0), TWO)], 2) == Thr(Int(n), false, h + [Env(Some(0), TWO)]);
    assert Exec([f], 0, f.prologue, h + [Env(Some(0), TWO)], 2) == Norm(Junk, h + [Env(Some(0), TWO)]);
  }

  /** `function g() { var a, b; try { throw n; } catch (a) { throw k; } }` */
  function Rethrower(n: int, k: int): FunDef {
    FunDef(Header(1, 0, 0, false), Skip, Try(Throw(Literal(IntLit(n))), Off(0, 0), Throw(Literal(IntLit(k))), Skip))
  }

  /** `try { throw m; } catch (e) { g(); }` */
  function CallingBack(m: int, e: Off): Stmt { Try(Throw(Literal(IntLit(m))), e, CallIt(NoExpr), Skip) }

  /** Both compiled and run: what g throws out of its own handler re-enters the catch block that called g, although
      that one is running already and not the nearest try whose body is active; there is none.  It is bound to g's
      second variable, and e keeps m. */
  lemma HandlerReentered(m: int, n: int, k: int) returns (i: nat)
    ensures Compilable(OneFunction(Rethrower(n, k), CallingBack(m, Off(0, 1))), [Rethrower(n, k)])
    ensures var s, f := CallingBack(m, Off(0, 1)), Rethrower(n, k);
            var st := Steps(Compiled(OneFunction(f, s), [f]), Started(OneFunction(f, s), WithFunction(Null, TWO)), i);
            var addr := HandlerAt(s, StatementAt(f)).pc;
            && st.status.Running? && st.pc == addr && st.tries == [TryEntry(addr, 2)]
            && st.callers != [] && st.frame.env == 2
            && st.heap == WithFunction(Int(m), TWO) + [Env(Some(0), [Cell(Int(n), false), Cell(Int(k), false)])]
  {
    hide Steps, Compiled, Compilable, Started, SelfContained, Linked, CodeAt, PoolAt, HandlerAt, StatementAt,
      WithFunction;
    CallingBackContained(m, n, k, Off(0, 1));
    FromStart(Rethrower(n, k), CallingBack(m, Off(0, 1)));
    var f, s := Rethrower(n, k), CallingBack(m, Off(0, 1));
    var p, start := Compiled(OneFunction(f, s), [f]), Started(OneFunction(f, s), WithFunction(Null, TWO));
    var j := Reentered(p, StatementAt(f), Steps(p, start, 1), m, n, k);
    StepsAdd(p, start, 1, j);
    i := 1 + j;
  }

  lemma Reentered(p: Program, at: Pos, st: State, m: int, n: int, k: int) returns (i: nat)
    requires AtTry(p, [Rethrower(n, k)], CallingBack(m, Off(0, 1)), at, 0, 0, st) && FreshAt(st)
    ensures var s, addr := Steps(p, st, i), HandlerAt(CallingBack(m, Off(0, 1)), at).pc;
            && s.status.Running? && s.pc == addr && s.tries == [TryEntry(addr, 2)] && s.callers != []
               && s.frame.env == 2
            && s.heap == WithFunction(Int(m), TWO) + [Env(Some(0), [Cell(Int(n), false), Cell(Int(k), false)])]
  {
    hide Steps, Exec, AtTry, HandlerAt, WriteVar, ExecGuarded, ExecCaught, GoesTo, WithFunction, TWO;
    CallingBackMeaning(m, n, k);
    var j := HandlerLeft(p, [Rethrower(n, k)], 1, CallingBack(m, Off(0, 1)), at, 0, 0, st);
    HandlerOperand(p, [Rethrower(n, k)], CallingBack(m, Off(0, 1)), at, st);
    var addr := HandlerAt(CallingBack(m, Off(0, 1)), at).pc;
    assert [] + [TryEntry(addr, 2)] == [TryEntry(addr, 2)];
    BoundLocal(p, Steps(p, st, j), Steps(p, st, j + 1), addr, m, n, k);
    i := j + 1;
  }

  lemma HandlerOperand(p: Program, g: seq<FunDef>, s: Stmt, at: Pos, st: State)
    requires AtTry(p, g, s, at, 0, 0, st)
    ensures CodeAt(p, HandlerAt(s, at).pc, [Ins1(CATCH, VarOp(s.x))])
  {
    hide CodeAt, PoolAt, Linked, CodeS;
    TryUnfolded(s, at, Exits(0, 0));
    SplitTryCode(p, s, at, Exits(0, 0));
  }

  lemma BoundLocal(p: Program, s: State, s': State, addr: nat, m: int, n: int, k: int)
    requires CodeAt(p, addr, [Ins1(CATCH, VarOp(Off(0, 1)))]) && GoesTo(p, s, s', [TryEntry(addr, 2)], Int(k))
    requires s.status.Running? && s.frame.env == 2
    requires s.heap == WithFunction(Int(m), TWO) + [Env(Some(0), [Cell(Int(n), false), Cell(Null, false)])]
    ensures s'.status.Running? && s'.pc == addr && s'.tries == [TryEntry(addr, 2)]
    ensures s'.frame == s.frame && s'.callers == s.callers
    ensures s'.heap == WithFunction(Int(m), TWO) + [Env(Some(0), [Cell(Int(n), false), Cell(Int(k), false)])]
  {
    hide WriteVar;
    CatchOperand(p, addr, Off(0, 1));
    var cells := [Cell(Int(n), false), Cell(Null, false)];
    WriteLocal(WithFunction(Int(m), TWO), Some(0), cells, 1, Int(k));
    assert cells[1 := Cell(Int(k), false)] == [Cell(Int(n), false), Cell(Int(k), false)];
  }

  lemma CallingBackContained(m: int, n: int, k: int, e: Off)
    ensures SelfContained(Rethrower(n, k), CallingBack(m, e))
  {
    var f := Rethrower(n, k);
    assert Whole(f, f.body.body) && Whole(f, f.body.handler);
    assert Whole(f, CallingBack(m, e).body) && Whole(f, CallingBack(m, e).handler);
  }

  lemma CallingBackMeaning(m: int, n: int, k: int)
    ensures var h, s, g := WithFunction(Null, TWO), CallingBack(m, Off(0, 1)), [Rethrower(n, k)];
            && ExecGuarded(g, 1, s, h, 0) == Thr(Int(m), false, h)
            && ExecCaught(g, 1, s, Int(m), h, 0)
               == Abort(Int(k), true, WithFunction(Int(m), TWO)
                        + [Env(Some(0), [Cell(Int(n), false), Cell(Null, false)])], 2)
  {
    hide EvalArgs, DerefAll, BindCells, TWO, WriteVar, WithFunction;
    var h, h1, s, f := WithFunction(Null, TWO), WithFunction(Int(m), TWO), CallingBack(m, Off(0, 1)), Rethrower(n, k);
    assert Exec([f], 1, s.body, h, 0) == Thr(Int(m), false, h);
    WriteX(Null, TWO, [], Int(m));
    assert h + [] == h && h1 + [] == h1;
    RethrowerMeaning(m, n, k);
    StoreParts(Int(m));
    NoArguments([f], 1, h1, TWO);
    CallMeaning(f, 0, NoExpr, [], h1, TWO);
    assert s.handler == CallIt(NoExpr);
  }

  lemma StoreParts(x: Val)
    ensures var h := WithFunction(x, TWO);
            |h| == 2 && h[0].cells != [] && h[0].cells[0].v == Func(0) && h[1] == Env(Some(0), TWO)
  {
  }

  lemma RethrowerMeaning(m: int, n: int, k: int)
    ensures var f, h := Rethrower(n, k), WithFunction(Int(m), TWO);
            Exec([f], 0, Ast.Seq(f.prologue, f.body), h + [Env(Some(0), TWO)], 2)
            == Thr(Int(k), true, h + [Env(Some(0), [Cell(Int(n), false), Cell(Null, false)])])
  {
    hide WriteVar, WithFunction, TWO;
    var f, h := Rethrower(n, k), WithFunction(Int(m), TWO);
    var h2, h3 := h + [Env(Some(0), TWO)], h + [Env(Some(0), [Cell(Int(n), false), Cell(Null, false)])];
    StoreParts(Int(m));
    BoundFirst(h, n);
    assert Exec([f], 0, f.prologue, h2, 2) == Norm(Junk, h2);
    assert Exec([f], 0, f.body.body, h2, 2) == Thr(Int(n), false, h2);
    assert ExecGuarded([f], 0, f.body, h2, 2) == Thr(Int(n), false, h2);
    assert Exec([f], 0, f.body.handler, h3, 2) == Thr(Int(k), false, h3);
    assert ExecCaught([f], 0, f.body, Int(n), h2, 2) == Thr(Int(k), false, h3);
    assert ExecHandler([f], 0, f.body, Int(n), h2, 2) == Thr(Int(k), true, h3);
    assert Exec([f], 0, f.body, h2, 2) == ExecTry([f], 0, f.body, h2, 2);
  }

  lemma BoundFirst(h: Heap, n: int)
    requires |h| == 2
    ensures WriteVar(h + [Env(Some(0), TWO)], 2, Off(0, 0), Int(n))
            == Some(h + [Env(Some(0), [Cell(Int(n), false), Cell(Null, false)])])
  {
    hide WriteVar;
    WriteLocal(h, Some(0), TWO, 0, Int(n));
    assert TWO[0 := Cell(Int(n), false)] == [Cell(Int(n), false), Cell(Null, false)];
  }
}
