/** What the code generator has produced, as a value: the code and the lists of jumps still without a target
    after each construct. */
module Emission {
  import opened Values
  import opened Store
  import opened Ast
  import opened Machine
  import opened Layout
  import opened Backpatch

  /** What generation has produced so far. */
  datatype Gen = Gen(ir: seq<IR>, consts: seq<Val>, temps: nat)

  function Here(g: Gen): Pos { Pos(|g.ir|, |g.consts|, g.temps) }

  function GenE(e: Expr, g: Gen): Gen {
    Gen(g.ir + CodeE(e, Here(g)), g.consts + PoolE(e), g.temps + TmpsE(e))
  }

  function GenA(es: Exprs, g: Gen): Gen {
    Gen(g.ir + CodeA(es, Here(g)), g.consts + PoolA(es), g.temps + TmpsA(es))
  }

  function GenS(s: Stmt, g: Gen, brk: nat, cont: nat): Gen {
    Gen(g.ir + CodeS(s, Here(g), brk, cont), g.consts + PoolS(s), g.temps + TmpsS(s))
  }

  /** The branches of an if statement before the jumps at their ends get a target. */
  function GenB(bs: Branches, g: Gen, cont: nat): Gen {
    Gen(g.ir + CodeB(bs, Here(g), NO_OPERAND, 0, cont), g.consts + PoolB(bs), g.temps + TmpsB(bs))
  }

  function SendsOf(ops: seq<Operand>): seq<IR> {
    seq(|ops|, i requires 0 <= i < |ops| => Ins1(SENDVAL, ops[i]))
  }

  lemma {:induction false} SendsCode(es: Exprs, at: Pos)
    ensures SendsOf(OpsA(es, at)) == Sends(es, at)
    decreases es
  {
    if es.Exprs? {
      SendsCode(es.rest, AfterE(es.head, at));
      var ops := OpsA(es.rest, AfterE(es.head, at));
      assert SendsOf([OpE(es.head, at)] + ops) == [Ins1(SENDVAL, OpE(es.head, at))] + SendsOf(ops);
    }
  }

  // ----- what the visitors have built -----

  lemma LiteralCode(e: Expr, g: Gen)
    requires e.Literal?
    ensures GenE(e, g) == g.(consts := g.consts + PoolE(e))
  {
  }

  lemma IdentCode(e: Expr, g: Gen)
    requires e.Ident?
    ensures GenE(e, g) == g
  {
  }

  lemma IncDecCode(e: Expr, g: Gen)
    requires e.IncDec?
    ensures GenE(e, g) == Gen(g.ir + [IR(INCDEC(e.step), VarOp(e.x), NO_OPERAND, OpE(e, Here(g)))], g.consts,
                              g.temps + 1)
  {
  }

  lemma BinaryCode(e: Expr, g: Gen)
    requires e.Binary? || e.Comparison?
    ensures var at := Here(g);
            var g2 := GenE(e.r, GenE(e.l, g));
            GenE(e, g) == Gen(g2.ir + [IR(if e.Binary? then BINARY(e.op) else COMPARE(e.cmp), OpE(e.l, at),
                                          OpE(e.r, AfterE(e.l, at)), OpE(e, at))], g2.consts, g2.temps + 1)
    ensures Here(GenE(e.l, g)) == AfterE(e.l, Here(g))
  {
    hide CodeE, PoolE, TmpsE, OpE;
    var at := Here(g);
    var a, b := CodeE(e.l, at), CodeE(e.r, AfterE(e.l, at));
    PairParts(e, at);
    Append2(g.ir, a, b);
    Append2(g.ir, a + b, [IR(if e.Binary? then BINARY(e.op) else COMPARE(e.cmp), OpE(e.l, at),
                             OpE(e.r, AfterE(e.l, at)), OpE(e, at))]);
    assert g.consts + PoolE(e.l) + PoolE(e.r) == g.consts + (PoolE(e.l) + PoolE(e.r));
  }

  lemma PairParts(e: Expr, at: Pos)
    requires e.Binary? || e.Comparison?
    ensures CodeE(e, at) ==
            CodeE(e.l, at) + CodeE(e.r, AfterE(e.l, at))
            + [IR(if e.Binary? then BINARY(e.op) else COMPARE(e.cmp),
                  OpE(e.l, at), OpE(e.r, AfterE(e.l, at)), OpE(e, at))]
    ensures PoolE(e) == PoolE(e.l) + PoolE(e.r) && TmpsE(e) == TmpsE(e.l) + TmpsE(e.r) + 1
  {
  }

  lemma AugmentedCode(e: Expr, g: Gen)
    requires e.Augmented?
    ensures GenE(e, g) == Gen(GenE(e.r, g).ir + [IR(BINARY(e.op), VarOp(e.x), OpE(e.r, Here(g)), VarOp(e.x))],
                              GenE(e.r, g).consts, GenE(e.r, g).temps)
  {
    Append2(g.ir, CodeE(e.r, Here(g)), [IR(BINARY(e.op), VarOp(e.x), OpE(e.r, Here(g)), VarOp(e.x))]);
  }

  lemma UnaryCode(e: Expr, g: Gen)
    requires e.Negate? || e.Complement?
    ensures GenE(e, g) == Gen(GenE(e.e, g).ir
                              + [IR(if e.Negate? then NOT else BWNOT, OpE(e.e, Here(g)), NO_OPERAND, OpE(e, Here(g)))],
                                GenE(e.e, g).consts, GenE(e.e, g).temps + 1)
  {
    Append2(g.ir, CodeE(e.e, Here(g)),
            [IR(if e.Negate? then NOT else BWNOT, OpE(e.e, Here(g)), NO_OPERAND, OpE(e, Here(g)))]);
  }

  lemma AssignToCode(e: Expr, g: Gen)
    requires e.AssignTo?
    ensures GenE(e, g) == Gen(GenE(e.e, g).ir + [IR(ASSIGN, VarOp(e.x), OpE(e.e, Here(g)), OpE(e, Here(g)))],
                              GenE(e.e, g).consts, GenE(e.e, g).temps + 1)
  {
    Append2(g.ir, CodeE(e.e, Here(g)), [IR(ASSIGN, VarOp(e.x), OpE(e.e, Here(g)), OpE(e, Here(g)))]);
  }

  lemma ShortCode(e: Expr, a: Operand, b: Operand, g: Gen)
    requires e.Logic? || e.Boolean?
    requires a == OpE(e.l, Here(g)) && b == OpE(e.r, SecondTest(e, Here(g)))
    ensures Here(GenE(e.l, g)) == AfterE(e.l, Here(g)) && OpE(e, Here(g)) == TmpOp(GenE(e.l, g).temps)
    ensures var at := Here(g);
            var g1 := GenE(e.l, g);
            var g2 := Gen(g1.ir + [IR(TestOp(e), a, NO_OPERAND, OpE(e, at))], g1.consts, g1.temps + 1);
            var g3 := GenE(e.r, g2);
            var ir4 := g3.ir + [IR(TestOp(e), b, NO_OPERAND, OpE(e, at))];
            && Here(g2) == SecondTest(e, at)
            && ir4[|g1.ir| := ir4[|g1.ir|].(op2 := Addr(|ir4|))][|ir4| - 1 := ir4[|ir4| - 1].(op2 := Addr(|ir4|))]
               == GenE(e, g).ir
            && g3.consts == GenE(e, g).consts && g3.temps == GenE(e, g).temps
  {
    hide CodeE, SizeE, PoolE, TmpsE, OpE, SecondTest;
    var at := Here(g);
    ShortParts(e, at);
    var l, r := CodeE(e.l, at), CodeE(e.r, SecondTest(e, at));
    var end := at.pc + SizeE(e);
    var h1, h2 := IR(TestOp(e), a, NO_OPERAND, OpE(e, at)), IR(TestOp(e), b, NO_OPERAND, OpE(e, at));
    assert g.ir + l + [h1] + r + [h2] == g.ir + (l + [h1] + r + [h2]);
    PatchTests(g.ir, l, h1, r, h2, Addr(end));
    assert g.consts + PoolE(e.l) + PoolE(e.r) == g.consts + (PoolE(e.l) + PoolE(e.r));
  }

  lemma PatchTests(c0: seq<IR>, l: seq<IR>, h1: IR, r: seq<IR>, h2: IR, o: Operand)
    ensures var c := c0 + (l + [h1] + r + [h2]);
            var n := |c0| + |l|;
            c[n := c[n].(op2 := o)][|c| - 1 := c[|c| - 1].(op2 := o)]
              == c0 + (l + [h1.(op2 := o)] + r + [h2.(op2 := o)])
  {
  }

  lemma ArgsCode(es: Exprs, g: Gen)
    requires es.Exprs?
    ensures GenA(es.rest, GenE(es.head, g)) == GenA(es, g)
    ensures Here(GenE(es.head, g)) == AfterE(es.head, Here(g))
  {
    Append2(g.ir, CodeE(es.head, Here(g)), CodeA(es.rest, AfterE(es.head, Here(g))));
    assert g.consts + PoolE(es.head) + PoolA(es.rest) == g.consts + (PoolE(es.head) + PoolA(es.rest));
  }

  lemma CallCode(e: Expr, g: Gen)
    requires e.Call?
    ensures var at := Here(g);
            var g1 := GenE(e.callee, g);
            var g2 := GenA(e.args, g1);
            && Here(g1) == AfterE(e.callee, at)
            && GenE(e, g) == Gen(g2.ir + Sends(e.args, Here(g1))
                                 + [IR(FCALL, OpE(e.callee, at), NO_OPERAND, OpE(e, at))],
                                 g2.consts, g2.temps + 1)
  {
    var at, at1 := Here(g), AfterE(e.callee, Here(g));
    var a, b, c := CodeE(e.callee, at), CodeA(e.args, at1), Sends(e.args, at1);
    var i := [IR(FCALL, OpE(e.callee, at), NO_OPERAND, OpE(e, at))];
    assert g.ir + a + b + c + i == g.ir + (a + b + c + i);
    assert g.consts + PoolE(e.callee) + PoolA(e.args) == g.consts + (PoolE(e.callee) + PoolA(e.args));
  }

  // ----- statements built -----

  lemma SkipCode(g: Gen, cont: nat)
    ensures GenS(Skip, g, 0, cont) == g
  {
  }

  lemma SeqCode(s: Stmt, g: Gen, cont: nat)
    requires s.Seq?
    ensures GenS(s.s2, GenS(s.s1, g, 0, cont), 0, cont) == GenS(s, g, 0, cont)
    ensures Here(GenS(s.s1, g, 0, cont)) == AfterS(s.s1, Here(g))
  {
    Append2(g.ir, CodeS(s.s1, Here(g), 0, cont), CodeS(s.s2, AfterS(s.s1, Here(g)), 0, cont));
    assert g.consts + PoolS(s.s1) + PoolS(s.s2) == g.consts + (PoolS(s.s1) + PoolS(s.s2));
  }

  /** The variable of a further clause is filled in behind its handler. */
  lemma CatchesCode(s: Stmt, g: Gen, cont: nat)
    requires s.Catches?
    ensures var g1 := GenS(s.first, g, 0, cont);
            var g2 := GenS(s.rest, g1.(ir := g1.ir + [Ins0(CATCH)]), 0, cont);
            && |g1.ir| < |g2.ir| && Here(g1) == AfterS(s.first, Here(g))
            && g2.(ir := g2.ir[|g1.ir| := g2.ir[|g1.ir|].(op1 := VarOp(s.y))]) == GenS(s, g, 0, cont)
  {
    hide CodeS, CodeCatches;
    CatchesUnfolded(s, Here(g), cont);
    FillCatch(g.ir, CodeS(s.first, Here(g), 0, cont), s.y, CodeS(s.rest, Past(AfterS(s.first, Here(g)), 1), 0, cont));
    assert g.consts + PoolS(s.first) + PoolS(s.rest) == g.consts + (PoolS(s.first) + PoolS(s.rest));
  }

  lemma CatchesUnfolded(s: Stmt, at: Pos, cont: nat)
    requires s.Catches?
    ensures CodeS(s, at, 0, cont)
            == CodeS(s.first, at, 0, cont) + [Ins1(CATCH, VarOp(s.y))]
               + CodeS(s.rest, Past(AfterS(s.first, at), 1), 0, cont)
  {
  }

  lemma FillCatch(ir: seq<IR>, c1: seq<IR>, y: Off, c2: seq<IR>)
    ensures var all := ir + c1 + [Ins0(CATCH)] + c2;
            all[|ir + c1| := all[|ir + c1|].(op1 := VarOp(y))] == ir + (c1 + [Ins1(CATCH, VarOp(y))] + c2)
  {
  }

  lemma BlockCode(s: Stmt, g: Gen, cont: nat)
    requires s.Block?
    ensures var g1 := g.(ir := g.ir + [Ins0(BSCOPE)]);
            var g2 := GenS(s.s, g1, 0, cont);
            Here(g1) == Past(Here(g), 1) && g2.(ir := g2.ir + [Ins0(ESCOPE)]) == GenS(s, g, 0, cont)
  {
    var c := CodeS(s.s, Past(Here(g), 1), 0, cont);
    assert g.ir + [Ins0(BSCOPE)] + c + [Ins0(ESCOPE)] == g.ir + ([Ins0(BSCOPE)] + c + [Ins0(ESCOPE)]);
  }

  /** An expression followed by at most one instruction. */
  lemma SimpleCode(s: Stmt, g: Gen, cont: nat)
    requires s.Do? || s.Assign? || s.ReturnVal? || s.Throw?
    ensures var g1 := GenE(s.e, g);
            var o := OpE(s.e, Here(g));
            GenS(s, g, 0, cont) ==
            match s
            case Do(_) => g1
            case Assign(x, _) => g1.(ir := g1.ir + [Ins2(ASSIGN, VarOp(x), o)])
            case ReturnVal(_) => g1.(ir := g1.ir + [Ins1(RET, o)])
            case _ => g1.(ir := g1.ir + [Ins1(THROW, o)])
  {
    var c, o := CodeE(s.e, Here(g)), OpE(s.e, Here(g));
    match s
    case Do(_) =>
    case Assign(x, _) => Append2(g.ir, c, [Ins2(ASSIGN, VarOp(x), o)]);
    case ReturnVal(_) => Append2(g.ir, c, [Ins1(RET, o)]);
    case _ => Append2(g.ir, c, [Ins1(THROW, o)]);
  }

  lemma UnlessCode(s: Stmt, g: Gen, cont: nat)
    requires s.AssignUnless?
    ensures var g1 := g.(ir := g.ir + [Ins2(JMPNZ, VarOp(s.x), Addr(|g.ir| + 2))]);
            var g2 := GenE(s.e, g1);
            GenS(s, g, 0, cont) == g2.(ir := g2.ir + [Ins2(ASSIGN, VarOp(s.x), OpE(s.e, Here(g1)))])
  {
    var at := Here(g);
    var i, c, j := [Ins2(JMPNZ, VarOp(s.x), Addr(at.pc + 2))], CodeE(s.e, Past(at, 1)),
        [Ins2(ASSIGN, VarOp(s.x), OpE(s.e, at))];
    assert OpE(s.e, at) == OpE(s.e, Past(at, 1));
    assert g.ir + i + c + j == g.ir + (i + c + j);
  }

  lemma JumpCode(s: Stmt, g: Gen, cont: nat)
    requires s.Break? || s.Continue? || s.Return?
    ensures GenS(s, g, 0, cont) ==
            g.(ir := g.ir + [if s.Break? then Ins1(JMP, Addr(0)) else if s.Continue? then Ins1(JMP, Addr(cont))
                             else Ins0(RET)])
  {
  }

  lemma BranchCode(bs: Branches, g: Gen, cont: nat)
    requires bs.Branch?
    ensures var g1 := GenE(bs.cond, g);
            var g2 := g1.(ir := g1.ir + [Ins1(JMPZ, OpE(bs.cond, Here(g)))]);
            var g3 := GenS(bs.block, g2, 0, cont);
            var ir4 := g3.ir + [Ins0(JMP)];
            var g5 := g3.(ir := ir4[|g1.ir| := ir4[|g1.ir|].(op2 := Addr(|ir4|))]);
            && Here(g2) == Past(AfterE(bs.cond, Here(g)), 1)
            && Here(g5) == RestAt(bs, Here(g))
            && GenB(bs.rest, g5, cont) == GenB(bs, g, cont)
  {
    hide CodeS, CodeE, PoolE, PoolS;
    var at, at1, at2 := Here(g), Past(AfterE(bs.cond, Here(g)), 1), RestAt(bs, Here(g));
    var c, b, r := CodeE(bs.cond, at), CodeS(bs.block, at1, 0, cont), CodeB(bs.rest, at2, NO_OPERAND, 0, cont);
    PatchBranchTest(g.ir, c, Ins1(JMPZ, OpE(bs.cond, at)), b, [Ins0(JMP)], r, Addr(at2.pc));
    assert g.consts + PoolE(bs.cond) + PoolS(bs.block) + PoolB(bs.rest)
           == g.consts + (PoolE(bs.cond) + PoolS(bs.block) + PoolB(bs.rest));
  }

  lemma PatchBranchTest(c0: seq<IR>, c: seq<IR>, i: IR, b: seq<IR>, j: seq<IR>, r: seq<IR>, o: Operand)
    ensures var n := |c0| + |c|;
            var ir := c0 + c + [i] + b + j;
            ir[n := ir[n].(op2 := o)] + r == c0 + (c + [i.(op2 := o)] + b + j + r)
  {
  }

  /** The recorded exits get the end of the statement as their target. */
  lemma IfCode(s: Stmt, g: Gen, cont: nat)
    requires s.If?
    ensures var g1 := GenB(s.branches, g, cont);
            var sites := ExitSites(s.branches, |g.ir|);
            && Inside(sites, 0, |g1.ir|)
            && GenS(s, g, 0, cont) == g1.(ir := AimAt(g1.ir, 0, sites, |g1.ir|))
  {
    hide CodeE, AimAt, Inside;
    var at, sites := Here(g), ExitSites(s.branches, |g.ir|);
    ExitsAimed(s.branches, at, at.pc + SizeB(s.branches), 0, cont);
    AimFrame(g.ir, CodeB(s.branches, at, NO_OPERAND, 0, cont), 0, sites, at.pc + SizeB(s.branches));
  }

  // ----- loops built -----

  /** The condition of a loop, its exit still without a target. */
  function GenC(c: Cond, g: Gen): Gen {
    match c
    case Always => g
    case When(e) => GenE(e, g).(ir := GenE(e, g).ir + [Ins1(JMPZ, OpE(e, Here(g)))])
  }

  /** Setting the exit of the condition's jump. */
  function SetExit(ir: seq<IR>, c: Cond, pc: nat, a: nat): (r: seq<IR>)
    requires pc + SizeC(c) <= |ir|
    ensures |r| == |ir|
  {
    if c.Always? then ir else ir[pc + SizeE(c.e) := ir[pc + SizeE(c.e)].(op2 := Addr(a))]
  }

  lemma CondCode(s: Stmt, g: Gen)
    requires s.Loop?
    ensures Here(GenC(s.cond, g)) == AfterC(s.cond, Here(g))
  {
    if s.cond.When? {
      var e := s.cond.e;
      Append2(g.ir, CodeE(e, Here(g)), [Ins1(JMPZ, OpE(e, Here(g)))]);
    } else {
      assert g.consts + [] == g.consts;
    }
  }

  /** Setting the exit of the condition yields its final code. */
  lemma ExitSet(c: Cond, g: Gen, rest: seq<IR>, a: nat)
    ensures SetExit(GenC(c, g).ir + rest, c, |g.ir|, a) == g.ir + (CodeC(c, Here(g), a) + rest)
  {
    if c.When? {
      hide CodeE;
      ExitSetAt(g.ir, CodeE(c.e, Here(g)), Ins1(JMPZ, OpE(c.e, Here(g))), rest, Addr(a));
    }
  }

  lemma ExitSetAt(c0: seq<IR>, c: seq<IR>, i: IR, rest: seq<IR>, o: Operand)
    ensures var n := |c0| + |c|;
            var ir := c0 + c + [i] + rest;
            ir[n := ir[n].(op2 := o)] == c0 + (c + [i.(op2 := o)] + rest)
  {
  }

  /** Patching the address field of first operands does not interfere with setting the exit. */
  lemma ExitPatch(ir: seq<IR>, i: IR, sites: seq<nat>, a: nat, c: Cond, pc: nat, exit: nat)
    requires pc + SizeC(c) <= |ir| && Inside(sites, 0, |ir|)
    ensures SetExit(PatchAt(ir, 0, sites, a) + [i], c, pc, exit) == PatchAt(SetExit(ir + [i], c, pc, exit), 0, sites, a)
  {
    assert |ir| !in sites;
  }

  lemma LoopFrame(s: Stmt, g: Gen)
    requires s.Loop? && JumpsOk(s, false, false)
    ensures var at := Here(g);
            var sites := [at.pc] + Breaks(s.body, AfterC(s.cond, at).pc);
            var ir := g.ir + LoopHoles(s, at, ContinueAddr(s, at));
            && Inside(sites, 0, |ir|)
            && PatchAt(ir, 0, sites, |ir|) == GenS(s, g, 0, 0).ir
  {
    hide PatchAt, Inside, LoopCode, LoopHoles;
    var at := Here(g);
    var sites := [at.pc] + Breaks(s.body, AfterC(s.cond, at).pc);
    var holes := LoopHoles(s, at, ContinueAddr(s, at));
    LoopPatched(s, at);
    assert g.ir + holes + [] == g.ir + holes;
    PatchFrame(g.ir, holes, [], 0, sites, at.pc + SizeS(s));
    assert g.ir + PatchAt(holes, at.pc, sites, at.pc + SizeS(s)) + []
           == g.ir + PatchAt(holes, at.pc, sites, at.pc + SizeS(s));
  }

  lemma WhileCode(s: Stmt, g: Gen)
    requires s.Loop? && !s.isFor && JumpsOk(s, false, false)
    ensures var g1 := GenC(s.cond, g);
            var g2 := GenS(s.body, g1, 0, |g.ir|);
            var sites := [|g.ir|] + Breaks(s.body, |g1.ir|);
            && Here(g1) == AfterC(s.cond, Here(g))
            && Inside(sites, 0, |g2.ir|)
            && |g2.ir| + 1 == |g.ir| + SizeS(s)
            && SetExit(PatchAt(g2.ir, 0, sites, |g2.ir| + 1) + [Ins1(JMP, Addr(|g.ir|))], s.cond, |g.ir|, |g2.ir| + 1)
               == GenS(s, g, 0, 0).ir
            && g2.consts == GenS(s, g, 0, 0).consts && g2.temps == GenS(s, g, 0, 0).temps
  {
    hide PatchAt, Inside, CodeS, CodeC, GenC, SetExit, Breaks;
    CondCode(s, g);
    var at, at1 := Here(g), AfterC(s.cond, Here(g));
    var g1 := GenC(s.cond, g);
    var b := CodeS(s.body, at1, 0, at.pc);
    var g2 := GenS(s.body, g1, 0, |g.ir|);
    var jmp, end := Ins1(JMP, Addr(at.pc)), at.pc + SizeS(s);
    var sites := [at.pc] + Breaks(s.body, at1.pc);
    WhileInside(s, g);
    ExitPatch(g2.ir, jmp, sites, end, s.cond, at.pc, end);
    Append2(g1.ir, b, [jmp]);
    ExitSet(s.cond, g, b + [jmp], end);
    WhileHoles(s, at);
    LoopFrame(s, g);
    WhilePools(s, g);
  }

  lemma WhilePools(s: Stmt, g: Gen)
    requires s.Loop? && s.update.Skip?
    ensures GenC(s.cond, g).consts + PoolS(s.body) == g.consts + PoolS(s)
    ensures GenC(s.cond, g).temps + TmpsS(s.body) == g.temps + TmpsS(s)
  {
    assert PoolS(s) == PoolC(s.cond) + PoolS(s.body);
  }

  lemma WhileInside(s: Stmt, g: Gen)
    requires s.Loop? && s.body.Block?
    ensures Inside([|g.ir|] + Breaks(s.body, |g.ir| + SizeC(s.cond)), 0, |g.ir| + SizeC(s.cond) + SizeS(s.body))
  {
    BreakSites(s.body, AfterC(s.cond, Here(g)), 0, 0, 0);
  }

  lemma WhileHoles(s: Stmt, at: Pos)
    requires s.Loop? && s.update.Skip? && !s.isFor
    ensures LoopHoles(s, at, ContinueAddr(s, at))
            == CodeC(s.cond, at, at.pc + SizeS(s))
               + (CodeS(s.body, AfterC(s.cond, at), 0, at.pc) + [Ins1(JMP, Addr(at.pc))])
  {
    hide CodeC, SizeS, SizeC, PoolC, TmpsC, CodeE;
    var c, b := CodeC(s.cond, at, at.pc + SizeS(s)), CodeS(s.body, AfterC(s.cond, at), 0, at.pc);
    assert CodeS(s.update, AfterS(s.body, AfterC(s.cond, at)), 0, 0) == [];
    assert c + b + [] + [Ins1(JMP, Addr(at.pc))] == c + (b + [Ins1(JMP, Addr(at.pc))]);
  }

  /** After the body: its `continue` jumps get the address of the update. */
  lemma ForBodyCode(s: Stmt, g: Gen)
    requires s.Loop? && s.isFor && JumpsOk(s, false, false)
    ensures var g1 := GenC(s.cond, g);
            var g2 := GenS(s.body, g1, 0, |g.ir|);
            var sites := Continues(s.body, |g1.ir|);
            && Here(g2) == AfterS(s.body, AfterC(s.cond, Here(g)))
            && Inside(sites, 0, |g2.ir|)
            && g2.(ir := PatchAt(g2.ir, 0, sites, |g2.ir|)) == GenS(s.body, g1, 0, ContinueAddr(s, Here(g)))
  {
    hide PatchAt, Inside, CodeS, CodeC, GenC, Continues;
    CondCode(s, g);
    var at1, g1 := AfterC(s.cond, Here(g)), GenC(s.cond, g);
    var sites, cont := Continues(s.body, at1.pc), ContinueAddr(s, Here(g));
    var b := CodeS(s.body, at1, 0, |g.ir|);
    ContinueSites(s.body, at1, 0, |g.ir|, cont, true, true);
    assert g1.ir + b + [] == g1.ir + b;
    PatchFrame(g1.ir, b, [], 0, sites, cont);
    assert g1.ir + PatchAt(b, at1.pc, sites, cont) + [] == g1.ir + PatchAt(b, at1.pc, sites, cont);
  }

  lemma ForCode(s: Stmt, g: Gen)
    requires s.Loop? && s.isFor && JumpsOk(s, false, false)
    ensures var g1 := GenC(s.cond, g);
            var g3 := GenS(s.update, GenS(s.body, g1, 0, ContinueAddr(s, Here(g))), 0, 0);
            var ir4 := g3.ir + [Ins1(JMP, Addr(|g.ir|))];
            var ir5 := SetExit(ir4, s.cond, |g.ir|, |ir4|);
            var sites := [|g.ir|] + Breaks(s.body, |g1.ir|);
            && Inside(sites, 0, |ir5|)
            && Gen(PatchAt(ir5, 0, sites, |ir5|), g3.consts, g3.temps) == GenS(s, g, 0, 0)
  {
    hide PatchAt, Inside, CodeS, CodeC, GenC, SetExit, Breaks;
    CondCode(s, g);
    var at, at1 := Here(g), AfterC(s.cond, Here(g));
    var g1 := GenC(s.cond, g);
    var b, u, jmp := CodeS(s.body, at1, 0, ContinueAddr(s, at)), CodeS(s.update, AfterS(s.body, at1), 0, 0),
        [Ins1(JMP, Addr(at.pc))];
    assert g1.ir + b + u + jmp == g1.ir + (b + u + jmp);
    ExitSet(s.cond, g, b + u + jmp, at.pc + SizeS(s));
    ForHoles(s, at);
    LoopFrame(s, g);
    ForPools(s, g);
  }

  lemma ForHoles(s: Stmt, at: Pos)
    requires s.Loop?
    ensures var at1 := AfterC(s.cond, at);
            LoopHoles(s, at, ContinueAddr(s, at))
            == CodeC(s.cond, at, at.pc + SizeS(s))
               + (CodeS(s.body, at1, 0, ContinueAddr(s, at)) + CodeS(s.update, AfterS(s.body, at1), 0, 0)
                  + [Ins1(JMP, Addr(at.pc))])
  {
    hide CodeS, CodeC;
  }

  lemma ForPools(s: Stmt, g: Gen)
    requires s.Loop?
    ensures GenC(s.cond, g).consts + PoolS(s.body) + PoolS(s.update) == g.consts + PoolS(s)
    ensures GenC(s.cond, g).temps + TmpsS(s.body) + TmpsS(s.update) == g.temps + TmpsS(s)
  {
  }

  /** A loop has no loose jumps. */
  lemma LoopGen(s: Stmt, g: Gen, cont: nat)
    requires s.Loop?
    ensures GenS(s, g, 0, cont) == GenS(s, g, 0, 0)
    ensures Breaks(s, |g.ir|) == [] && Continues(s, |g.ir|) == []
  {
  }

  // ----- switches built -----

  /** Cases whose tests do not know the default yet and whose breaks have no target. */
  function GenK(cs: Cases, g: Gen, w: SwitchEnv): Gen {
    Gen(g.ir + CodeK(cs, Here(g), w, 0), g.consts + PoolK(cs), g.temps + TmpsK(cs))
  }

  /** The jump at the end of the previous body gets its target. */
  function Fill(g: Gen, last: Option<nat>, a: nat): (r: Gen)
    requires last.Some? ==> last.value < |g.ir|
    ensures Here(r) == Here(g)
  {
    if last.None? then g else g.(ir := g.ir[last.value := g.ir[last.value].(op1 := Addr(a))])
  }

  /** The last test so far, unless later cases have one. */
  function LaterOf(later: Option<nat>, sofar: Option<nat>): Option<nat> {
    if later.Some? then later else sofar
  }

  /** The default seen already, or the one to come. */
  function FirstDefault(seen: nat, cs: Cases, pc: nat): Option<nat> {
    if seen != 0 then Some(seen) else DefaultAddr(cs, pc, false)
  }

  lemma SubjectCode(s: Stmt, g: Gen)
    requires s.Switch?
    ensures Here(GenE(s.e, g)) == AfterE(s.e, Here(g))
  {
  }

  lemma FillLater(g: Gen, last: Option<nat>, a: nat, more: seq<IR>)
    requires last.Some? ==> last.value < |g.ir|
    ensures Fill(g.(ir := g.ir + more), last, a) == Fill(g, last, a).(ir := Fill(g, last, a).ir + more)
  {
  }

  lemma CaseTestCode(cs: Cases, g: Gen, last: Option<nat>, subject: Operand)
    requires cs.Case? && (last.Some? ==> last.value < |g.ir|)
    ensures var a := |g.ir| + SizeE(cs.lbl) + 2;
            Fill(CaseTest(cs, g, subject), last, a) == CaseTest(cs, Fill(g, last, a), subject)
  {
    hide CodeE;
    var c := CodeE(cs.lbl, Here(g));
    var two := [IR(COMPARE(Eq), subject, OpE(cs.lbl, Here(g)), TmpOp(g.temps + TmpsE(cs.lbl)))]
        + [Ins1(JMPZ, TmpOp(g.temps + TmpsE(cs.lbl)))];
    var a := |g.ir| + SizeE(cs.lbl) + 2;
    var f := Fill(g, last, a);
    FillLater(g, last, a, c + two);
    assert CaseTest(cs, g, subject).ir == g.ir + (c + two);
    assert CaseTest(cs, f, subject).ir == f.ir + (c + two);
  }

  /** The label, the comparison and the test of one case. */
  function CaseTest(cs: Cases, g: Gen, subject: Operand): Gen
    requires cs.Case?
  {
    var g1 := GenE(cs.lbl, g);
    var tmp := TmpOp(g1.temps);
    Gen(g1.ir + [IR(COMPARE(Eq), subject, OpE(cs.lbl, Here(g)), tmp)] + [Ins1(JMPZ, tmp)], g1.consts, g1.temps + 1)
  }

  lemma CaseCode(cs: Cases, g: Gen, w: SwitchEnv)
    requires cs.Case? && !w.lone && w.dflt.None? && w.end == 0
    ensures var g1 := CaseTest(cs, g, w.subject);
            var g2 := GenS(cs.body, g1, 0, 0);
            var ir3 := g2.ir + [Ins0(JMP)];
            var z := |g1.ir| - 1;
            var g4 := g2.(ir := ir3[z := ir3[z].(op2 := Addr(|ir3|))]);
            && Here(g1) == BodyAt(cs, Here(g), false)
            && Here(g4) == LaterAt(cs, Here(g))
            && GenK(cs.rest, Fill(g4, Some(|g2.ir|), NextBody(cs.rest, |ir3|)), w) == GenK(cs, g, w)
  {
    hide CodeE, CodeS, CodeK;
    CodeParts(cs, Here(g), w, 0);
    var at, later := Here(g), LaterAt(cs, Here(g));
    var l, b := CodeE(cs.lbl, at), CodeS(cs.body, BodyAt(cs, at, false), 0, 0);
    var r := CodeK(cs.rest, later, w, 0);
    var tmp := TmpOp(at.t + TmpsE(cs.lbl));
    PatchCase(g.ir, l, IR(COMPARE(Eq), w.subject, OpE(cs.lbl, at), tmp), Ins1(JMPZ, tmp), b, Ins0(JMP), r,
              Addr(later.pc), Addr(NextBody(cs.rest, later.pc)));
    assert g.consts + PoolE(cs.lbl) + PoolS(cs.body) + PoolK(cs.rest) == g.consts + PoolK(cs);
  }

  lemma PatchCase(c0: seq<IR>, l: seq<IR>, i: IR, z: IR, b: seq<IR>, j: IR, r: seq<IR>, later: Operand, next: Operand)
    ensures var n := |c0| + |l| + 1;
            var ir := c0 + l + [i] + [z] + b + [j];
            var ir2 := ir[n := ir[n].(op2 := later)];
            ir2[|ir| - 1 := ir2[|ir| - 1].(op1 := next)] + r
            == c0 + (l + [i, z.(op2 := later)] + b + [j.(op1 := next)] + r)
  {
  }

  lemma DefaultTestCode(g: Gen, last: Option<nat>)
    requires last.Some? ==> last.value < |g.ir|
    ensures var f := Fill(g, last, |g.ir| + 1);
            Fill(g.(ir := g.ir + [Ins0(JMP)]), last, |g.ir| + 1) == f.(ir := f.ir + [Ins0(JMP)])
  {
    FillLater(g, last, |g.ir| + 1, [Ins0(JMP)]);
  }

  lemma DefaultCode(cs: Cases, g: Gen, w: SwitchEnv)
    requires cs.DefaultCase? && !w.lone && w.dflt.None? && w.end == 0
    ensures var g1 := g.(ir := g.ir + [Ins0(JMP)]);
            var g2 := GenS(cs.body, g1, 0, 0);
            var ir3 := g2.ir + [Ins0(JMP)];
            var g4 := g2.(ir := ir3[|g.ir| := ir3[|g.ir|].(op1 := Addr(|ir3|))]);
            && Here(g1) == BodyAt(cs, Here(g), false)
            && Here(g4) == LaterAt(cs, Here(g))
            && GenK(cs.rest, Fill(g4, Some(|g2.ir|), NextBody(cs.rest, |ir3|)), w) == GenK(cs, g, w)
  {
    hide CodeE, CodeS, CodeK;
    CodeParts(cs, Here(g), w, 0);
    var at, later := Here(g), LaterAt(cs, Here(g));
    var b := CodeS(cs.body, BodyAt(cs, at, false), 0, 0);
    var r := CodeK(cs.rest, later, w, 0);
    PatchDefault(g.ir, Ins0(JMP), b, Ins0(JMP), r, Addr(later.pc), Addr(NextBody(cs.rest, later.pc)));
    assert g.consts + PoolS(cs.body) + PoolK(cs.rest) == g.consts + PoolK(cs);
  }

  lemma PatchDefault(c0: seq<IR>, i: IR, b: seq<IR>, j: IR, r: seq<IR>, later: Operand, next: Operand)
    ensures var n := |c0|;
            var ir := c0 + [i] + b + [j];
            var ir2 := ir[n := ir[n].(op1 := later)];
            ir2[|ir| - 1 := ir2[|ir| - 1].(op1 := next)] + r
            == c0 + ([i.(op1 := later)] + b + [j.(op1 := next)] + r)
  {
  }

  lemma LoneCode(cs: Cases, g: Gen, w: SwitchEnv)
    requires Lone(cs) && w.lone && w.end == 0
    ensures GenK(cs.rest, GenS(cs.body, g, 0, 0), w) == GenK(cs, g, w)
  {
    assert PoolK(cs) == PoolS(cs.body) + [];
  }

  /** The default's address in the last test, the end of the statement in every break. */
  lemma SwitchCode(s: Stmt, g: Gen, w: SwitchEnv, cont: nat)
    requires s.Switch? && JumpsOk(s, false, false) && w == SwitchEnv(OpE(s.e, Here(g)), None, Lone(s.cases), 0)
    ensures var g1 := GenE(s.e, g);
            var g2 := GenK(s.cases, g1, w);
            var d := DefaultAddr(s.cases, |g1.ir|, w.lone);
            var z := LastTest(s.cases, |g1.ir|);
            var sites := BreaksK(s.cases, |g1.ir|, w.lone);
            && Inside(sites, 0, |g2.ir|)
            && (z.Some? ==> z.value < |g2.ir|)
            && (w.lone ==> z.None?)
            && (var ir3 := SetTest(g2.ir, if d.Some? then z else None, if d.Some? then d.value else 0);
                PatchAt(ir3, 0, sites, |ir3|) == GenS(s, g, 0, cont).ir)
            && g2.consts == GenS(s, g, 0, cont).consts && g2.temps == GenS(s, g, 0, cont).temps
  {
    hide CodeK, CodeE, CodeS, GenS, GenE, GenK, PatchAt, Inside, LastTest, SetTest, DefaultAddr, SizeK, SizeS, BreaksK,
      SwitchInfo;
    var g1 := GenE(s.e, g);
    var d := DefaultAddr(s.cases, |g1.ir|, w.lone);
    var end := |g1.ir| + SizeK(s.cases, w.lone);
    DefaultPlaced(s.cases, g1, w);
    BreaksPlaced(s.cases, g1, w.(dflt := d), end, cont);
    SwitchUnfolded(s, g, cont);
    GenKSize(s.cases, g1, w);
    assert SwitchInfo(s, Here(g)) == SwitchEnv(w.subject, d, w.lone, end) by { SwitchEnvs(s, g); }
  }

  lemma GenKSize(cs: Cases, g: Gen, w: SwitchEnv)
    ensures |GenK(cs, g, w).ir| == |g.ir| + SizeK(cs, w.lone)
    ensures GenK(cs, g, w).consts == g.consts + PoolK(cs) && GenK(cs, g, w).temps == g.temps + TmpsK(cs)
  {
  }

  lemma SwitchEnvs(s: Stmt, g: Gen)
    requires s.Switch?
    ensures var pc := |GenE(s.e, g).ir|;
            SwitchInfo(s, Here(g)) == SwitchEnv(OpE(s.e, Here(g)), DefaultAddr(s.cases, pc, Lone(s.cases)),
                                                Lone(s.cases), pc + SizeK(s.cases, Lone(s.cases)))
  {
  }

  lemma BreaksPlaced(cs: Cases, g: Gen, w: SwitchEnv, end: nat, cont: nat)
    requires JumpsOkK(cs)
    ensures var sites := BreaksK(cs, |g.ir|, w.lone);
            && Inside(sites, 0, |g.ir| + SizeK(cs, w.lone))
            && PatchAt(g.ir + CodeK(cs, Here(g), w, 0), 0, sites, end)
               == g.ir + CodeK(cs, Here(g), w.(end := end), cont)
  {
    hide CodeK, PatchAt, Inside;
    var sites, k := BreaksK(cs, |g.ir|, w.lone), CodeK(cs, Here(g), w, 0);
    BreakSitesK(cs, Here(g), w, end, 0);
    assert g.ir + k + [] == g.ir + k;
    PatchFrame(g.ir, k, [], 0, sites, end);
    assert g.ir + PatchAt(k, |g.ir|, sites, end) + [] == g.ir + PatchAt(k, |g.ir|, sites, end);
    NoContinueK(cs, Here(g), w.(end := end), 0, cont);
  }

  lemma SwitchUnfolded(s: Stmt, g: Gen, cont: nat)
    requires s.Switch?
    ensures var g1 := GenE(s.e, g);
            && Here(g1) == AfterE(s.e, Here(g))
            && GenS(s, g, 0, cont) == Gen(g1.ir + CodeK(s.cases, Here(g1), SwitchInfo(s, Here(g)), cont),
                                          g1.consts + PoolK(s.cases), g1.temps + TmpsK(s.cases))
  {
    hide CodeK, CodeE;
    Append2(g.ir, CodeE(s.e, Here(g)), CodeK(s.cases, AfterE(s.e, Here(g)), SwitchInfo(s, Here(g)), cont));
    assert g.consts + PoolE(s.e) + PoolK(s.cases) == g.consts + (PoolE(s.e) + PoolK(s.cases));
  }

  lemma DefaultPlaced(cs: Cases, g: Gen, w: SwitchEnv)
    requires w.dflt.None? && w.lone == Lone(cs)
    ensures var d, z := DefaultAddr(cs, |g.ir|, w.lone), LastTest(cs, |g.ir|);
            && (z.Some? ==> z.value < |g.ir| + SizeK(cs, w.lone))
            && (w.lone ==> z.None?)
            && SetTest(GenK(cs, g, w).ir, if d.Some? then z else None, if d.Some? then d.value else 0)
               == g.ir + CodeK(cs, Here(g), w.(dflt := d), 0)
  {
    if !w.lone {
      hide CodeK, LastTest;
      var d, k := DefaultAddr(cs, |g.ir|, w.lone), CodeK(cs, Here(g), w, 0);
      LastTestInside(cs);
      LastTestMoved(cs, |g.ir|);
      if d.Some? {
        DefaultPatched(cs, Here(g), w, d.value, 0);
        TestFrame(g.ir, k, LastTest(cs, 0), d.value);
      }
    } else {
      hide CodeS;
    }
  }

  // ----- try statements and functions built -----

  lemma TryCode(s: Stmt, g: Gen, cont: nat)
    requires s.Try?
    ensures var g1 := GenS(s.body, g.(ir := g.ir + [Ins0(TRY)]), 0, cont);
            var ir2 := g1.ir + [Ins0(JMP)];
            var ir3 := ir2[|g.ir| := ir2[|g.ir|].(op1 := Addr(|ir2|))] + [Ins0(CATCH)];
            var g4 := GenS(s.handler, g1.(ir := ir3), 0, cont);
            var ir5 := g4.ir[|ir2| := g4.ir[|ir2|].(op1 := VarOp(s.x))];
            var ir6 := ir5[|g1.ir| := ir5[|g1.ir|].(op1 := Addr(|ir5|))];
            var g7 := GenS(s.finalizer, g4.(ir := ir6), 0, cont);
            && |g1.ir| + 2 + SizeS(s.handler) == |ir6|
            && Here(g1.(ir := ir3)) == Past(HandlerAt(s, Here(g)), 1)
            && Here(g4.(ir := ir6)) == FinallyAt(s, Here(g))
            && g7.(ir := g7.ir + [Ins0(ETRY)]) == GenS(s, g, 0, cont)
  {
    hide CodeS, CodeE;
    var at := Here(g);
    var b, h, f := CodeS(s.body, Past(at, 1), 0, cont), CodeS(s.handler, Past(HandlerAt(s, at), 1), 0, cont),
        CodeS(s.finalizer, FinallyAt(s, at), 0, cont);
    PatchTryParts(g.ir, Ins0(TRY), b, Ins0(JMP), Ins0(CATCH), h, f, Ins0(ETRY), VarOp(s.x));
    TryUnfolded(s, at, cont);
    assert g.consts + PoolS(s.body) + PoolS(s.handler) + PoolS(s.finalizer) == g.consts + PoolS(s);
  }

  lemma TryUnfolded(s: Stmt, at: Pos, cont: nat)
    requires s.Try?
    ensures CodeS(s, at, 0, cont) == CodeTry(s, at, 0, cont)
  {
  }

  lemma PatchTryParts(c0: seq<IR>, t: IR, b: seq<IR>, j: IR, c: IR, h: seq<IR>, f: seq<IR>, e: IR, x: Operand)
    ensures var ir1 := c0 + [t] + b;
            var ir2 := ir1 + [j];
            var ir3 := ir2[|c0| := ir2[|c0|].(op1 := Addr(|ir2|))] + [c];
            var ir4 := ir3 + h;
            var ir5 := ir4[|ir2| := ir4[|ir2|].(op1 := x)];
            var ir6 := ir5[|ir1| := ir5[|ir1|].(op1 := Addr(|ir5|))];
            ir6 + f + [e]
            == c0 + ([t.(op1 := Addr(|ir2|))] + b + [j.(op1 := Addr(|ir4|))] + [c.(op1 := x)] + h + f + [e])
  {
  }

  lemma FunCodeGen(s: Stmt, g: Gen, cont: nat)
    requires s.FunDecl?
    ensures var g1 := Gen(g.ir + [Ins1(JMP, Addr(0))], g.consts, 0);
            var g2 := GenS(s.body, GenS(s.prologue, g1, 0, 0), 0, 0);
            var ir3 := g2.ir + [Ins0(LEAVE)];
            && Here(g1) == FunEntry(Here(g))
            && Here(GenS(s.prologue, g1, 0, 0)) == AfterS(s.prologue, FunEntry(Here(g)))
            && Gen(ir3[|g.ir| := ir3[|g.ir|].(op1 := Addr(|ir3|))], g2.consts, g.temps) == GenS(s, g, 0, cont)
  {
    hide CodeE, CodeS;
    var at := Here(g);
    var c1, c2 := CodeS(s.prologue, FunEntry(at), 0, 0), CodeS(s.body, AfterS(s.prologue, FunEntry(at)), 0, 0);
    assert g.consts + PoolS(s.prologue) + PoolS(s.body) == g.consts + PoolS(s);
    PatchFun(g.ir, Ins1(JMP, Addr(0)), c1, c2, [Ins0(LEAVE)], Addr(at.pc + SizeS(s)));
    FunUnfolded(s, at, cont);
  }

  lemma FunUnfolded(s: Stmt, at: Pos, cont: nat)
    requires s.FunDecl?
    ensures CodeS(s, at, 0, cont) == CodeFun(s, at)
  {
  }

  lemma PatchFun(c0: seq<IR>, j: IR, c1: seq<IR>, c2: seq<IR>, l: seq<IR>, o: Operand)
    ensures var ir := c0 + [j] + c1 + c2 + l;
            ir[|c0| := ir[|c0|].(op1 := o)] == c0 + ([j.(op1 := o)] + c1 + c2 + l)
  {
  }
}
