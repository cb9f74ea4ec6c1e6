/** Small programs and stores to show behaviour on. */
module Samples {
  import opened Values
  import opened Store
  import opened Ast
  import opened Machine
  import opened Semantics
  import opened Layout
  import opened Simulation
  import opened StatementProof
  import opened Correctness
  import opened Backpatch
  import opened Compiler

  lemma WriteOnly(cells: seq<Cell>, i: nat, v: Val)
    requires i < |cells|
    ensures WriteVar([Env(None, cells)], 0, Off(0, i), v) == Some([Env(None, cells[i := cells[i].(v := v)])])
  {
    var h := [Env(None, cells)];
    assert Walk(h, 0, 0) == Some(0);
    assert SetCell(h, (0, i), v) == [Env(None, cells[i := cells[i].(v := v)])];
  }

  /** A global environment with two variables. */
  function Globals(x: Val, e: Val): Heap { [Env(None, [Cell(x, false), Cell(e, false)])] }

  lemma WriteGlobal(x: Val, e: Val, v: Val)
    ensures WriteVar(Globals(x, e), 0, Off(0, 0), v) == Some(Globals(v, e))
    ensures WriteVar(Globals(x, e), 0, Off(0, 1), v) == Some(Globals(x, v))
    ensures ReadVar(Globals(x, e), 0, Off(0, 0)) == Some(x) && ReadVar(Globals(x, e), 0, Off(0, 1)) == Some(e)
    ensures Assignable(Globals(x, e), 0, Off(0, 0)) == Some(true)
    ensures Assignable(Globals(x, e), 0, Off(0, 1)) == Some(true)
  {
    var cells := Globals(x, e)[0].cells;
    WriteOnly(cells, 0, v);
    WriteOnly(cells, 1, v);
    assert cells[0 := Cell(v, false)] == Globals(v, e)[0].cells;
    assert cells[1 := Cell(v, false)] == Globals(x, v)[0].cells;
    assert Walk(Globals(x, e), 0, 0) == Some(0);
  }

  // ----- programs with one function -----

  /** `function f() { ... }` and a statement after it. */
  function OneFunction(f: FunDef, s: Stmt): Stmt { Ast.Seq(FunDecl(0, f.prologue, f.body), s) }

  /** No jump is loose, and no other function is declared. */
  ghost predicate SelfContained(f: FunDef, s: Stmt) { Whole(f, f.prologue) && Whole(f, f.body) && Whole(f, s) }

  ghost predicate Whole(f: FunDef, s: Stmt) {
    JumpsOk(s, false, false) && Declares([f], s) && forall at :: FunTable(s, at) == map[]
  }

  /** The globals f and x, and the function's blueprint. */
  function WithFunction(x: Val, slots: seq<Cell>): Heap {
    [Env(None, [Cell(Func(0), true), Cell(x, false)]), Env(Some(0), slots)]
  }

  function StatementAt(f: FunDef): Pos { AfterS(FunDecl(0, f.prologue, f.body), START) }

  /** A statement that is next, with its code and constants where they belong. */
  ghost predicate AtStatement(p: Program, g: seq<FunDef>, s: Stmt, at: Pos, st: State) {
    && Linked(p, g) && CodeAt(p, at.pc, CodeS(s, at, 0, 0)) && PoolAt(p, at.k, PoolS(s))
    && Ready(st, at.pc, at.t + TmpsS(s))
  }

  /** The program compiles; its first step jumps over the function, to the statement. */
  lemma OneFunctionStarts(f: FunDef, s: Stmt, h: Heap)
    requires SelfContained(f, s)
    ensures Compilable(OneFunction(f, s), [f])
    ensures var p, start := Compiled(OneFunction(f, s), [f]), Started(OneFunction(f, s), h);
            && Steps(p, start, 1) == start.(pc := StatementAt(f).pc)
            && AtStatement(p, [f], s, StatementAt(f), Steps(p, start, 1))
            && CodeAt(p, StatementAt(f).pc + SizeS(s), [Ins0(HALT)])
            && FunAt(p, f, FunEntry(START)) && p.funs == [FunInfo(f.header, 1, TmpsS(f.prologue) + TmpsS(f.body))]
  {
    hide Steps, CodeAt, PoolAt, Linked, FunAt, Compilable, Compiled, CodeS, PoolS, TmpsS, SizeS, SelfContained,
      FunTable;
    var main := OneFunction(f, s);
    OneFunctionCompiles(f, s);
    CompiledLoaded(main, [f]);
    StatementLoaded(Compiled(main, [f]), f, s);
    SeqParts(FunDecl(0, f.prologue, f.body), s);
    DeclarationJump(Compiled(main, [f]), f, Started(main, h));
  }

  lemma StatementLoaded(p: Program, f: FunDef, s: Stmt)
    requires Loaded(p, [f], OneFunction(f, s))
    ensures var at := StatementAt(f);
            && Linked(p, [f]) && CodeAt(p, 0, CodeS(FunDecl(0, f.prologue, f.body), START, 0, 0))
            && CodeAt(p, at.pc, CodeS(s, at, 0, 0)) && PoolAt(p, at.k, PoolS(s))
               && CodeAt(p, at.pc + SizeS(s), [Ins0(HALT)])
  {
    hide CodeAt, PoolAt, Linked, CodeS, PoolS, TmpsS, SizeS;
    var decl, at := FunDecl(0, f.prologue, f.body), StatementAt(f);
    SeqParts(decl, s);
    SeqCodeParts(decl, s, START, 0, 0);
    CodeSplit(p, 0, CodeS(OneFunction(f, s), START, 0, 0), [Ins0(HALT)]);
    CodeSplit(p, 0, CodeS(decl, START, 0, 0), CodeS(s, at, 0, 0));
    PoolSplit(p, 3, PoolS(decl), PoolS(s));
  }

  lemma DeclarationJump(p: Program, f: FunDef, st: State)
    requires CodeAt(p, 0, CodeS(FunDecl(0, f.prologue, f.body), START, 0, 0)) && Ready(st, 0, 0)
    ensures Steps(p, st, 1) == st.(pc := StatementAt(f).pc)
  {
    hide Steps, CodeAt;
    var decl := FunDecl(0, f.prologue, f.body);
    var i := Ins1(JMP, Addr(SizeS(decl)));
    var a, b := CodeS(f.prologue, FunEntry(START), 0, 0), CodeS(f.body, AfterS(f.prologue, FunEntry(START)), 0, 0);
    assert CodeS(decl, START, 0, 0) == CodeFun(decl, START) == [i] + a + b + [Ins0(LEAVE)];
    CodeSplit(p, 0, [i] + a + b, [Ins0(LEAVE)]);
    CodeSplit(p, 0, [i] + a, b);
    CodeSplit(p, 0, [i], a);
    OneStep(p, st, 0, i);
  }

  lemma OneFunctionCompiles(f: FunDef, s: Stmt)
    requires SelfContained(f, s)
    ensures Compilable(OneFunction(f, s), [f])
    ensures var p := Compiled(OneFunction(f, s), [f]);
            FunAt(p, f, FunEntry(START)) && p.funs == [FunInfo(f.header, 1, TmpsS(f.prologue) + TmpsS(f.body))]
  {
    hide FunAt, CodeS, PoolS, TmpsS, CodeAt, PoolAt, JumpsOk, Declares, FunTable, SelfContained, Linked;
    var main := OneFunction(f, s);
    DeclaredAlone(f, s);
    CompiledLoaded(main, [f]);
    var p := Compiled(main, [f]);
    CodeSplit(p, 0, CodeS(main, START, 0, 0), [Ins0(HALT)]);
    FunsPlaced(p, [f], main, START, Exits(0, 0), false, false);
  }

  lemma DeclaredAlone(f: FunDef, s: Stmt)
    requires SelfContained(f, s)
    ensures JumpsOk(OneFunction(f, s), false, false) && Declares([f], OneFunction(f, s))
    ensures FunTable(OneFunction(f, s), START) == map[0 := Entry(FunEntry(START), TmpsS(f.prologue) + TmpsS(f.body))]
  {
    hide JumpsOk, Declares, TmpsS, SizeS, PoolS, FunTable;
    var decl := FunDecl(0, f.prologue, f.body);
    DeclaredOne(f, START);
    SeqFunctions(decl, s, f, START);
  }

  lemma DeclaredOne(f: FunDef, at: Pos)
    requires Whole(f, f.prologue) && Whole(f, f.body)
    ensures var decl := FunDecl(0, f.prologue, f.body);
            && JumpsOk(decl, false, false) && Declares([f], decl)
            && FunTable(decl, at) == map[0 := Entry(FunEntry(at), TmpsS(f.prologue) + TmpsS(f.body))]
  {
    hide TmpsS, SizeS, PoolS;
  }

  lemma SeqFunctions(s1: Stmt, s2: Stmt, f: FunDef, at: Pos)
    ensures var main := Ast.Seq(s1, s2);
            && (JumpsOk(main, false, false) <==> JumpsOk(s1, false, false) && JumpsOk(s2, false, false))
            && (Declares([f], main) <==> Declares([f], s1) && Declares([f], s2))
            && FunTable(main, at) == FunTable(s1, at) + FunTable(s2, AfterS(s1, at))
  {
    hide JumpsOk, Declares, FunTable, SizeS, PoolS, TmpsS, AfterS;
    SeqJumps(s1, s2);
    SeqDeclares(s1, s2, f);
    SeqTable(s1, s2, at);
  }

  lemma SeqJumps(s1: Stmt, s2: Stmt)
    ensures JumpsOk(Ast.Seq(s1, s2), false, false) <==> JumpsOk(s1, false, false) && JumpsOk(s2, false, false)
  {
  }

  lemma SeqDeclares(s1: Stmt, s2: Stmt, f: FunDef)
    ensures Declares([f], Ast.Seq(s1, s2)) <==> Declares([f], s1) && Declares([f], s2)
  {
  }

  lemma SeqTable(s1: Stmt, s2: Stmt, at: Pos)
    ensures FunTable(Ast.Seq(s1, s2), at) == FunTable(s1, at) + FunTable(s2, AfterS(s1, at))
  {
    hide SizeS, PoolS, TmpsS, AfterS;
  }

  // ----- writes -----

  lemma WriteLocal(h: Heap, o: Option<nat>, cells: seq<Cell>, k: nat, v: Val)
    requires k < |cells|
    ensures WriteVar(h + [Env(o, cells)], |h|, Off(0, k), v) == Some(h + [Env(o, cells[k := cells[k].(v := v)])])
  {
    assert Walk(h + [Env(o, cells)], |h|, 0) == Some(|h|);
    assert SetCell(h + [Env(o, cells)], (|h|, k), v) == h + [Env(o, cells[k := cells[k].(v := v)])];
  }

  /** The variable x, from the global environment or from an activation of the function. */
  lemma WriteX(x: Val, slots: seq<Cell>, rest: Heap, v: Val)
    ensures var h, h' := WithFunction(x, slots) + rest, WithFunction(v, slots) + rest;
            && WriteVar(h, 0, Off(0, 1), v) == Some(h')
            && (rest != [] && rest[0].outer == Some(0) ==> WriteVar(h, 2, Off(1, 1), v) == Some(h'))
  {
    var h, h' := WithFunction(x, slots) + rest, WithFunction(v, slots) + rest;
    assert Walk(h, 0, 0) == Some(0);
    var cells := h[0].cells;
    assert cells[1 := Cell(v, false)] == h'[0].cells;
    assert SetCell(h, (0, 1), v) == h[0 := h'[0]] == h';
    if rest != [] && rest[0].outer == Some(0) {
      assert h[2] == rest[0];
      assert Walk(h, 2, 1) == Walk(h, 0, 0);
    }
  }

  // ----- calls -----

  /** `f();` */
  function CallIt(args: Exprs): Stmt { Do(Call(Ident(Off(0, 0)), args)) }

  /** A call from the top level that passes `vals`: the body runs in environment 2. */
  lemma CallMeaning(f: FunDef, fuel: nat, args: Exprs, vals: seq<Val>, h: Heap, cells: seq<Cell>)
    requires |h| == 2 && h[0].cells != [] && h[0].cells[0].v == Func(0)
    requires f.header.env == 1 && ArityOk(f.header, |vals|) && BindCells(h[1].cells, f.header, vals) == Some(cells)
    requires var r := EvalArgs([f], fuel + 1, args, h, 0); r.Args? && r.h == h && DerefAll(r.rs, h, 0) == Some(vals)
    ensures var o := Exec([f], fuel, Ast.Seq(f.prologue, f.body), h + [Env(h[1].outer, cells)], 2);
            var r := Exec([f], fuel + 1, CallIt(args), h, 0);
            && (o.Norm? ==> r == Norm(Junk, o.h))
            && (o.Thr? ==> r == Abort(o.ex, o.dirty, o.h, 2))
  {
    hide EvalArgs, DerefAll, BindCells, ArityOk;
    assert Walk(h, 0, 0) == Some(0);
    assert ReadVar(h, 0, Off(0, 0)) == Some(Func(0));
    assert Activate(h, f.header, vals) == Some(h + [Env(h[1].outer, cells)]);
    var e := Call(Ident(Off(0, 0)), args);
    assert Eval([f], fuel + 1, e.callee, h, 0) == Norm(Ref(Off(0, 0)), h);
    assert EvalCall([f], fuel + 1, e, h, 0) == Invoke([f], fuel + 1, Func(0), vals, h);
  }

  lemma NoArguments(g: seq<FunDef>, fuel: nat, h: Heap, slots: seq<Cell>)
    ensures EvalArgs(g, fuel, NoExpr, h, 0) == Args([], h) && DerefAll([], h, 0) == Some([])
    ensures BindCells(slots, Header(1, 0, 0, false), []) == Some(slots)
  {
    assert BindCells(slots, Header(1, 0, 0, false), []).value == seq(|slots|, i requires 0 <= i < |slots| => slots[i])
           == slots;
  }
}
