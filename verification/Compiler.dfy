/** From a program to loaded code: the generator's output satisfies what the correctness theorem asks for. */
module Compiler {
  import opened Values
  import opened Store
  import opened Ast
  import opened Machine
  import opened Semantics
  import opened Layout
  import opened Simulation
  import opened ExpressionProof
  import opened StatementProof
  import opened Correctness
  import opened Backpatch
  import opened Emission
  import opened Progress
  import opened Codegen

  // ----- functions of a program -----

  /** Every function declared in the statement is the one the table has under its number. */
  predicate Declares(g: seq<FunDef>, s: Stmt) {
    match s
    case Seq(s1, s2) => Declares(g, s1) && Declares(g, s2)
    case Block(b) => Declares(g, b)
    case If(bs) => DeclaresB(g, bs)
    case Loop(_, _, update, body) => Declares(g, body) && Declares(g, update)
    case Switch(_, cases) => DeclaresK(g, cases)
    case Try(body, _, handler, finalizer) => Declares(g, body) && Declares(g, handler) && Declares(g, finalizer)
    case Catches(h1, _, h2) => Declares(g, h1) && Declares(g, h2)
    case FunDecl(f, prologue, body) =>
      && f < |g| && g[f].prologue == prologue && g[f].body == body
      && Declares(g, prologue) && Declares(g, body)
    case _ => true
  }

  predicate DeclaresB(g: seq<FunDef>, bs: Branches) {
    match bs
    case Else(s) => Declares(g, s)
    case Branch(_, block, rest) => Declares(g, block) && DeclaresB(g, rest)
  }

  predicate DeclaresK(g: seq<FunDef>, cs: Cases) {
    match cs
    case NoCase => true
    case Case(_, body, rest) => Declares(g, body) && DeclaresK(g, rest)
    case DefaultCase(body, rest) => Declares(g, body) && DeclaresK(g, rest)
  }

  /** Each entry points at the function's code and knows how many temporaries it needs. */
  ghost predicate Placed(p: Program, g: seq<FunDef>, t: map<nat, Entry>) {
    forall f :: f in t ==>
      && f < |g| && FunAt(p, g[f], t[f].at)
      && t[f].temps == TmpsS(g[f].prologue) + TmpsS(g[f].body)
  }

  lemma PlacedBoth(p: Program, g: seq<FunDef>, a: map<nat, Entry>, b: map<nat, Entry>)
    requires Placed(p, g, a) && Placed(p, g, b)
    ensures Placed(p, g, a + b)
  {
    hide FunAt;
  }

  ghost predicate CodeAndPool(p: Program, s: Stmt, at: Pos, x: Exits) {
    CodeAt(p, at.pc, CodeS(s, at, x.brk, x.cont)) && PoolAt(p, at.k, PoolS(s))
  }

  /** Wherever a statement's code is, the functions it declares are where the table says, nested ones too. */
  lemma {:induction false} FunsPlaced(p: Program, g: seq<FunDef>, s: Stmt, at: Pos, x: Exits, canBreak: bool,
                                      canContinue: bool)
    requires CodeAndPool(p, s, at, x) && Declares(g, s) && JumpsOk(s, canBreak, canContinue)
    ensures Placed(p, g, FunTable(s, at))
    decreases s, 1
  {
    hide CodeAt, PoolAt, Placed, CodeE, CodeB, CodeTry, CodeCatches, CodeFun, CodeK, LoopCode, Sentinel;
    match s
    case Seq(s1, s2) =>
      CodeSplit(p, at.pc, CodeS(s1, at, x.brk, x.cont), CodeS(s2, AfterS(s1, at), x.brk, x.cont));
      PoolSplit(p, at.k, PoolS(s1), PoolS(s2));
      FunsPlaced(p, g, s1, at, x, canBreak, canContinue);
      FunsPlaced(p, g, s2, AfterS(s1, at), x, canBreak, canContinue);
      PlacedBoth(p, g, FunTable(s1, at), FunTable(s2, AfterS(s1, at)));
    case Block(b) =>
      CodeSplit(p, at.pc, [Ins0(BSCOPE)] + CodeS(b, Past(at, 1), x.brk, x.cont), [Ins0(ESCOPE)]);
      CodeSplit(p, at.pc, [Ins0(BSCOPE)], CodeS(b, Past(at, 1), x.brk, x.cont));
      FunsPlaced(p, g, b, Past(at, 1), x, canBreak, canContinue);
    case If(bs) => FunsPlacedB(p, g, bs, at, Addr(at.pc + SizeB(bs)), x, canBreak, canContinue);
    case Loop(_, _, _, _) => FunsPlacedLoop(p, g, s, at, x);
    case Switch(e, cases) => FunsPlacedSwitch(p, g, s, at, x);
    case Try(_, _, _, _) => FunsPlacedTry(p, g, s, at, x, canBreak, canContinue);
    case Catches(h1, _, h2) =>
      CatchesParts(p, s, at, x);
      FunsPlaced(p, g, h1, at, x, canBreak, canContinue);
      FunsPlaced(p, g, h2, Past(AfterS(h1, at), 1), x, canBreak, canContinue);
      PlacedBoth(p, g, FunTable(h1, at), FunTable(h2, Past(AfterS(h1, at), 1)));
    case FunDecl(_, _, _) => FunsPlacedFun(p, g, s, at);
    case _ => PlacedNone(p, g);
  }

  lemma PlacedNone(p: Program, g: seq<FunDef>)
    ensures Placed(p, g, map[])
  {
  }

  lemma {:induction false} FunsPlacedB(p: Program, g: seq<FunDef>, bs: Branches, at: Pos, exit: Operand, x: Exits,
                                       canBreak: bool, canContinue: bool)
    requires CodeAt(p, at.pc, CodeB(bs, at, exit, x.brk, x.cont)) && PoolAt(p, at.k, PoolB(bs))
    requires DeclaresB(g, bs) && JumpsOkB(bs, canBreak, canContinue)
    ensures Placed(p, g, FunTableB(bs, at))
    decreases bs, 0
  {
    hide CodeAt, PoolAt, Placed, CodeE, CodeS, PoolS, TmpsS;
    match bs
    case Else(s) => FunsPlaced(p, g, s, at, x, canBreak, canContinue);
    case Branch(c, block, rest) =>
      var at1, at2 := Past(AfterE(c, at), 1), RestAt(bs, at);
      var test, body, leave := [Ins2(JMPZ, OpE(c, at), Addr(at2.pc))], CodeS(block, at1, x.brk, x.cont),
          [Ins1(JMP, exit)];
      SplitLast(p, at.pc, CodeE(c, at) + test + body + leave, CodeB(rest, at2, exit, x.brk, x.cont), at2.pc);
      SplitLast(p, at.pc, CodeE(c, at) + test + body, leave, at2.pc - 1);
      SplitLast(p, at.pc, CodeE(c, at) + test, body, at1.pc);
      PoolSplit(p, at.k, PoolE(c) + PoolS(block), PoolB(rest));
      PoolSplit(p, at.k, PoolE(c), PoolS(block));
      FunsPlaced(p, g, block, at1, x, canBreak, canContinue);
      FunsPlacedB(p, g, rest, at2, exit, x, canBreak, canContinue);
      PlacedBoth(p, g, FunTable(block, at1), FunTableB(rest, at2));
  }

  lemma FunsPlacedLoop(p: Program, g: seq<FunDef>, s: Stmt, at: Pos, x: Exits)
    requires s.Loop? && CodeAndPool(p, s, at, x) && Declares(g, s) && JumpsOk(s, true, true)
    ensures Placed(p, g, FunTable(s, at))
    decreases s, 0
  {
    hide CodeAt, PoolAt, Placed, CodeE, CodeS, CodeC;
    SplitLoop(Ctx(p, g, 0), s, at, x);
    var bodyAt := AfterC(s.cond, at);
    var updateAt := AfterS(s.body, bodyAt);
    FunsPlaced(p, g, s.body, bodyAt, Exits(at.pc + SizeS(s), ContinueAddr(s, at)), true, true);
    FunsPlaced(p, g, s.update, updateAt, Exits(0, 0), false, false);
    PlacedBoth(p, g, FunTable(s.body, bodyAt), FunTable(s.update, updateAt));
  }

  lemma FunsPlacedTry(p: Program, g: seq<FunDef>, s: Stmt, at: Pos, x: Exits, canBreak: bool, canContinue: bool)
    requires s.Try? && CodeAndPool(p, s, at, x) && Declares(g, s) && JumpsOk(s, canBreak, canContinue)
    ensures Placed(p, g, FunTable(s, at))
    decreases s, 0
  {
    hide CodeAt, PoolAt, Placed, PoolS, TmpsS;
    assert CodeS(s, at, x.brk, x.cont) == CodeTry(s, at, x.brk, x.cont);
    SplitTryCode(p, s, at, x);
    SplitTryPool(p, s, at);
    var p1, p2, p3 := Past(at, 1), Past(HandlerAt(s, at), 1), FinallyAt(s, at);
    FunsPlaced(p, g, s.body, p1, x, canBreak, canContinue);
    FunsPlaced(p, g, s.handler, p2, x, canBreak, canContinue);
    FunsPlaced(p, g, s.finalizer, p3, x, canBreak, canContinue);
    PlacedBoth(p, g, FunTable(s.body, p1), FunTable(s.handler, p2));
    PlacedBoth(p, g, FunTable(s.body, p1) + FunTable(s.handler, p2), FunTable(s.finalizer, p3));
  }

  lemma FunsPlacedSwitch(p: Program, g: seq<FunDef>, s: Stmt, at: Pos, x: Exits)
    requires s.Switch? && CodeAndPool(p, s, at, x) && Declares(g, s) && JumpsOk(s, true, true)
    ensures Placed(p, g, FunTable(s, at))
    decreases s, 0
  {
    hide CodeAt, PoolAt, Placed, CodeE, PoolE;
    var at1, w := AfterE(s.e, at), SwitchInfo(s, at);
    CodeSplit(p, at.pc, CodeE(s.e, at), CodeK(s.cases, at1, w, x.cont));
    PoolSplit(p, at.k, PoolE(s.e), PoolK(s.cases));
    if Lone(s.cases) {
      LonePool(s.cases);
      FunsPlaced(p, g, s.cases.body, at1, Exits(w.end, x.cont), true, false);
    } else {
      FunsPlacedK(p, g, s.cases, at1, w, x.cont);
    }
  }

  lemma LonePool(cs: Cases)
    requires Lone(cs)
    ensures PoolK(cs) == PoolS(cs.body)
  {
  }

  lemma {:induction false} FunsPlacedK(p: Program, g: seq<FunDef>, cs: Cases, at: Pos, w: SwitchEnv, cont: nat)
    requires CasesAt(p, cs, at, w, cont) && DeclaresK(g, cs) && JumpsOkK(cs)
    ensures Placed(p, g, FunTableK(cs, at, false))
    decreases cs, 0
  {
    hide CodeAt, PoolAt, Placed, CodeK, CodeS, CodeE, PoolS, PoolE;
    if cs.NoCase? {
      PlacedNone(p, g);
    } else {
      if cs.Case? {
        SplitCase(p, cs, at, w, cont);
      } else {
        SplitDefault(p, cs, at, w, cont);
      }
      var at1, at2 := BodyAt(cs, at, false), LaterAt(cs, at);
      FunsPlaced(p, g, cs.body, at1, Exits(w.end, cont), true, false);
      FunsPlacedK(p, g, cs.rest, at2, w, cont);
      PlacedBoth(p, g, FunTable(cs.body, at1), FunTableK(cs.rest, at2, false));
    }
  }

  lemma FunsPlacedFun(p: Program, g: seq<FunDef>, s: Stmt, at: Pos)
    requires s.FunDecl? && CodeAndPool(p, s, at, Exits(0, 0)) && Declares(g, s) && JumpsOk(s, false, false)
    ensures Placed(p, g, FunTable(s, at))
    decreases s, 0
  {
    hide CodeAt, PoolAt, CodeS, Placed;
    var at1 := FunEntry(at);
    var at2 := AfterS(s.prologue, at1);
    var skip, one, two := [Ins1(JMP, Addr(at.pc + SizeS(s)))], CodeS(s.prologue, at1, 0, 0), CodeS(s.body, at2, 0, 0);
    FunUnfolded(s, at, 0);
    assert CodeFun(s, at) == skip + (one + two + [Ins0(LEAVE)]);
    CodeSplit(p, at.pc, skip, one + two + [Ins0(LEAVE)]);
    CodeSplit(p, at1.pc, one + two, [Ins0(LEAVE)]);
    CodeSplit(p, at1.pc, one, two);
    PoolSplit(p, at.k, PoolS(s.prologue), PoolS(s.body));
    FunsPlaced(p, g, s.prologue, at1, Exits(0, 0), false, false);
    FunsPlaced(p, g, s.body, at2, Exits(0, 0), false, false);
    PlacedBoth(p, g, FunTable(s.prologue, at1), FunTable(s.body, at2));
    OneEntry(p, g, s.f, Entry(at1, TmpsS(s.prologue) + TmpsS(s.body)));
    PlacedBoth(p, g, FunTable(s.prologue, at1) + FunTable(s.body, at2),
               map[s.f := Entry(at1, TmpsS(s.prologue) + TmpsS(s.body))]);
  }

  lemma OneEntry(p: Program, g: seq<FunDef>, f: nat, e: Entry)
    requires f < |g| && FunAt(p, g[f], e.at) && e.temps == TmpsS(g[f].prologue) + TmpsS(g[f].body)
    ensures Placed(p, g, map[f := e])
  {
  }

  // ----- the compiler -----

  /** A program whose jumps have targets and whose functions are all declared. */
  predicate Compilable(main: Stmt, g: seq<FunDef>) {
    && JumpsOk(main, false, false) && Declares(g, main)
    && forall f :: 0 <= f < |g| ==> f in FunTable(main, START)
  }

  /** The compiled program: code with its final addresses, constants, and function table. */
  function Compiled(main: Stmt, g: seq<FunDef>): Program
    requires Compilable(main, g)
  {
    var table := FunTable(main, START);
    Program(CodeS(main, START, 0, 0) + [Ins0(HALT)], [Null, Bool(true), Bool(false)] + PoolS(main),
            seq(|g|, f requires 0 <= f < |g| => FunInfo(g[f].header, table[f].at.pc, table[f].temps)))
  }

  /** Generates a program's code.  Also returns how many temporaries the main program needs. */
  method Compile(main: Stmt, g: seq<FunDef>) returns (p: Program, temps: nat)
    requires Compilable(main, g)
    ensures p == Compiled(main, g) && temps == TmpsS(main)
  {
    hide Done, GenS, CodeS, FunTable, Declares, JumpsOk;
    var c := new Generator();
    ghost var w := c.Now();
    c.VisitStmt(main, false, false, 0);
    c.builder.Push(Ins0(HALT));
    MainDone(main, w);
    var funs: seq<FunInfo> := [];
    for i := 0 to |g|
      invariant |funs| == i
      invariant forall f :: 0 <= f < i ==>
        funs[f] == FunInfo(g[f].header, FunTable(main, START)[f].at.pc, FunTable(main, START)[f].temps)
    {
      var e := c.entries[i];
      funs := funs + [FunInfo(g[i].header, e.at.pc, e.temps)];
    }
    p := Program(c.builder.ir, c.builder.consts, funs);
    temps := c.builder.temps;
  }

  lemma MainDone(main: Stmt, w: Work)
    requires w == Work(Gen([], [Null, Bool(true), Bool(false)], 0), [], [], [], map[])
    ensures Done(main, w, 0) ==
            Work(Gen(CodeS(main, START, 0, 0), [Null, Bool(true), Bool(false)] + PoolS(main), TmpsS(main)), [], [], [],
                 FunTable(main, START))
  {
    hide CodeS, PoolS, TmpsS, FunTable;
    assert [] + CodeS(main, START, 0, 0) == CodeS(main, START, 0, 0);
    assert map[] + FunTable(main, START) == FunTable(main, START);
  }

  lemma CompiledLoaded(main: Stmt, g: seq<FunDef>)
    requires Compilable(main, g)
    ensures Loaded(Compiled(main, g), g, main)
  {
    hide CodeS, FunTable, Declares, JumpsOk, FunAt;
    Linking(Compiled(main, g), g, main);
  }

  lemma Linking(p: Program, g: seq<FunDef>, main: Stmt)
    requires Compilable(main, g)
    requires p.code == CodeS(main, START, 0, 0) + [Ins0(HALT)]
             && p.consts == [Null, Bool(true), Bool(false)] + PoolS(main)
    requires |p.funs| == |g| && forall f :: 0 <= f < |g| ==>
      p.funs[f] == FunInfo(g[f].header, FunTable(main, START)[f].at.pc, FunTable(main, START)[f].temps)
    ensures Loaded(p, g, main)
  {
    hide CodeS, FunTable, Declares, JumpsOk, FunAt;
    CodeSplit(p, 0, CodeS(main, START, 0, 0), [Ins0(HALT)]);
    FunsPlaced(p, g, main, START, Exits(0, 0), false, false);
    forall f | 0 <= f < |g| ensures FunLinked(p, g[f], p.funs[f]) {
      var e := FunTable(main, START)[f];
      assert FunAt(p, g[f], e.at);
    }
  }

  /** The machine before a compiled program: its temporaries are null. */
  function Started(main: Stmt, h: Heap): State {
    Boot(h, seq(TmpsS(main), _ => Null))
  }

  /** The compiler is correct: for every program, initial store and amount of fuel, the machine running the
      compiled program agrees with the evaluator. */
  lemma CompilerCorrect(main: Stmt, g: seq<FunDef>, h: Heap, fuel: nat)
    requires Compilable(main, g)
    ensures Agrees(Compiled(main, g), Started(main, h), Exec(g, fuel, main, h, 0), fuel)
  {
    hide Agrees, Loaded, Exec, Compiled, Compilable;
    CompiledLoaded(main, g);
    ProgramCorrect(Compiled(main, g), g, main, h, seq(TmpsS(main), _ => Null), fuel);
  }

  /** A compiled program inside the fragment stops exactly when its source does. */
  lemma CompilerTermination(main: Stmt, g: seq<FunDef>, h: Heap)
    requires Compilable(main, g) && InFragment(g, main, h)
    ensures (exists n: nat :: !Steps(Compiled(main, g), Started(main, h), n).status.Running?)
            <==> (exists fuel: nat :: !Exec(g, fuel, main, h, 0).Timeout?)
  {
    hide Agrees, Loaded, Exec, Compiled, Compilable, Steps;
    CompiledLoaded(main, g);
    var temps := seq(TmpsS(main), _ => Null);
    assert Started(main, h) == Boot(h, temps);
    TerminationAgrees(Compiled(main, g), g, main, h, temps);
  }
}
