/** Backpatching: code generated with placeholder targets, patched later at the recorded addresses, is the
    code generated with the final targets in the first place. */
module Backpatch {
  import opened Values
  import opened Ast
  import opened Machine
  import opened Semantics
  import opened Layout

  // ----- recorded addresses -----

  /** The addresses of the jumps that `break` leaves pending, in source order. */
  function Breaks(s: Stmt, pc: nat): seq<nat> {
    match s
    case Seq(s1, s2) => Breaks(s1, pc) + Breaks(s2, pc + SizeS(s1))
    case Block(b) => Breaks(b, pc + 1)
    case If(bs) => BreaksB(bs, pc)
    case Break => [pc]
    case Try(body, _, handler, finalizer) =>
      Breaks(body, pc + 1) + Breaks(handler, pc + SizeS(body) + 3)
      + Breaks(finalizer, pc + SizeS(body) + 3 + SizeS(handler))
    case Catches(h1, _, h2) => Breaks(h1, pc) + Breaks(h2, pc + SizeS(h1) + 1)
    case _ => []
  }

  function BreaksB(bs: Branches, pc: nat): seq<nat> {
    match bs
    case Else(s) => Breaks(s, pc)
    case Branch(c, block, rest) =>
      Breaks(block, pc + SizeE(c) + 1) + BreaksB(rest, pc + SizeE(c) + 1 + SizeS(block) + 1)
  }

  /** The addresses of the jumps that `continue` leaves pending, in source order. */
  function Continues(s: Stmt, pc: nat): seq<nat> {
    match s
    case Seq(s1, s2) => Continues(s1, pc) + Continues(s2, pc + SizeS(s1))
    case Block(b) => Continues(b, pc + 1)
    case If(bs) => ContinuesB(bs, pc)
    case Continue => [pc]
    case Try(body, _, handler, finalizer) =>
      Continues(body, pc + 1) + Continues(handler, pc + SizeS(body) + 3)
      + Continues(finalizer, pc + SizeS(body) + 3 + SizeS(handler))
    case Catches(h1, _, h2) => Continues(h1, pc) + Continues(h2, pc + SizeS(h1) + 1)
    case _ => []
  }

  function ContinuesB(bs: Branches, pc: nat): seq<nat> {
    match bs
    case Else(s) => Continues(s, pc)
    case Branch(c, block, rest) =>
      Continues(block, pc + SizeE(c) + 1) + ContinuesB(rest, pc + SizeE(c) + 1 + SizeS(block) + 1)
  }

  /** The addresses of the jumps at the end of each branch of an if statement. */
  function ExitSites(bs: Branches, pc: nat): seq<nat> {
    match bs
    case Else(_) => []
    case Branch(c, block, rest) =>
      [pc + SizeE(c) + 1 + SizeS(block)] + ExitSites(rest, pc + SizeE(c) + 1 + SizeS(block) + 1)
  }

  /** Statements whose jumps have a target: `break` needs an enclosing loop or switch, `continue` an
      enclosing loop with no switch in between. */
  predicate JumpsOk(s: Stmt, canBreak: bool, canContinue: bool) {
    match s
    case Seq(s1, s2) => JumpsOk(s1, canBreak, canContinue) && JumpsOk(s2, canBreak, canContinue)
    case Block(b) => JumpsOk(b, canBreak, canContinue)
    case If(bs) => JumpsOkB(bs, canBreak, canContinue)
    case Loop(_, _, update, body) =>
      && JumpsOk(body, true, true) && JumpsOk(update, false, false)
      && WellMade(s)
    case Switch(_, cases) => JumpsOkK(cases) && Defaults(cases) <= 1
    case Break => canBreak
    case Continue => canContinue
    case Try(body, _, handler, finalizer) =>
      JumpsOk(body, canBreak, canContinue) && JumpsOk(handler, canBreak, canContinue)
      && JumpsOk(finalizer, canBreak, canContinue)
    case Catches(h1, _, h2) => JumpsOk(h1, canBreak, canContinue) && JumpsOk(h2, canBreak, canContinue)
    case FunDecl(_, prologue, body) => JumpsOk(prologue, false, false) && JumpsOk(body, false, false)
    case _ => true
  }

  predicate JumpsOkB(bs: Branches, canBreak: bool, canContinue: bool) {
    match bs
    case Else(s) => JumpsOk(s, canBreak, canContinue)
    case Branch(_, block, rest) => JumpsOk(block, canBreak, canContinue) && JumpsOkB(rest, canBreak, canContinue)
  }

  predicate JumpsOkK(cs: Cases) {
    match cs
    case NoCase => true
    case Case(_, body, rest) => JumpsOk(body, true, false) && JumpsOkK(rest)
    case DefaultCase(body, rest) => JumpsOk(body, true, false) && JumpsOkK(rest)
  }

  // ----- patching -----

  /** What an operand update does to the instructions at the recorded addresses. */
  function PatchAt(code: seq<IR>, pc: nat, sites: seq<nat>, a: nat): (r: seq<IR>)
    ensures |r| == |code|
  {
    seq(|code|, i requires 0 <= i < |code| => if pc + i in sites then SetAddr(code[i], a) else code[i])
  }

  /** All sites lie in the code at `pc`. */
  predicate Inside(sites: seq<nat>, pc: nat, size: nat) {
    forall a :: a in sites ==> pc <= a < pc + size
  }

  lemma Append2(a: seq<IR>, b: seq<IR>, c: seq<IR>)
    ensures a + b + c == a + (b + c)
  {
  }

  lemma PatchNone(code: seq<IR>, pc: nat, a: nat)
    ensures PatchAt(code, pc, [], a) == code && Inside([], pc, |code|)
  {
  }

  lemma PatchOne(i: IR, pc: nat, a: nat)
    ensures PatchAt([i], pc, [pc], a) == [SetAddr(i, a)] && Inside([pc], pc, 1)
  {
  }

  /** Two lists of sites patch independently when each lies in its own part. */
  lemma PatchJoin(c1: seq<IR>, c2: seq<IR>, pc: nat, l1: seq<nat>, l2: seq<nat>, a: nat)
    requires Inside(l1, pc, |c1|) && Inside(l2, pc + |c1|, |c2|)
    ensures PatchAt(c1 + c2, pc, l1 + l2, a) == PatchAt(c1, pc, l1, a) + PatchAt(c2, pc + |c1|, l2, a)
    ensures Inside(l1 + l2, pc, |c1 + c2|)
  {
  }

  /** The same with an instruction between the parts. */
  lemma PatchAround(c1: seq<IR>, i: IR, c2: seq<IR>, pc: nat, l1: seq<nat>, l2: seq<nat>, a: nat)
    requires Inside(l1, pc, |c1|) && Inside(l2, pc + |c1| + 1, |c2|)
    ensures PatchAt(c1 + [i] + c2, pc, l1 + l2, a) == PatchAt(c1, pc, l1, a) + [i] + PatchAt(c2, pc + |c1| + 1, l2, a)
    ensures Inside(l1 + l2, pc, |c1| + 1 + |c2|)
  {
  }

  /** Code around the patched part stays. */
  lemma PatchFrame(c0: seq<IR>, c1: seq<IR>, c2: seq<IR>, pc: nat, sites: seq<nat>, a: nat)
    requires Inside(sites, pc + |c0|, |c1|)
    ensures PatchAt(c0 + c1 + c2, pc, sites, a) == c0 + PatchAt(c1, pc + |c0|, sites, a) + c2
    ensures Inside(sites, pc, |c0 + c1 + c2|)
  {
  }

  /** The branch of an if statement, and the branches after it. */
  lemma PatchBranch(c0: seq<IR>, c1: seq<IR>, c2: seq<IR>, c3: seq<IR>, pc: nat, l1: seq<nat>, l3: seq<nat>, a: nat)
    requires Inside(l1, pc + |c0|, |c1|) && Inside(l3, pc + |c0| + |c1| + |c2|, |c3|)
    ensures PatchAt(c0 + c1 + c2 + c3, pc, l1 + l3, a)
            == c0 + PatchAt(c1, pc + |c0|, l1, a) + c2 + PatchAt(c3, pc + |c0| + |c1| + |c2|, l3, a)
    ensures Inside(l1 + l3, pc, |c0| + |c1| + |c2| + |c3|)
  {
    hide PatchAt, Inside;
    PatchFrame(c0, c1, c2, pc, l1, a);
    PatchJoin(c0 + c1 + c2, c3, pc, l1, l3, a);
  }

  /** The parts of a short-circuit expression. */
  lemma ShortParts(e: Expr, at: Pos)
    requires e.Logic? || e.Boolean?
    ensures var at2 := SecondTest(e, at);
            && CodeE(e, at) == CodeE(e.l, at) + [TestCode(e, e.l, at, at)] + CodeE(e.r, at2)
               + [TestCode(e, e.r, at2, at)]
            && at2 == Alloc(Past(AfterE(e.l, at), 1))
    ensures SizeE(e) == SizeE(e.l) + 1 + SizeE(e.r) + 1 && PoolE(e) == PoolE(e.l) + PoolE(e.r)
    ensures TmpsE(e) == TmpsE(e.l) + 1 + TmpsE(e.r) && OpE(e, at) == TmpOp(at.t + TmpsE(e.l))
  {
  }

  /** The test at the start of a branch. */
  function TestPart(bs: Branches, at: Pos): seq<IR>
    requires bs.Branch?
  {
    CodeE(bs.cond, at) + [Ins2(JMPZ, OpE(bs.cond, at), Addr(RestAt(bs, at).pc))]
  }

  /** The parts of a branch and the branches after it, and the jumps recorded in them. */
  lemma BranchParts(bs: Branches, at: Pos, exit: Operand, brk: nat, cont: nat)
    requires bs.Branch?
    ensures var at1, at2 := Past(AfterE(bs.cond, at), 1), RestAt(bs, at);
            && CodeB(bs, at, exit, brk, cont)
               == TestPart(bs, at) + CodeS(bs.block, at1, brk, cont) + [Ins1(JMP, exit)]
                  + CodeB(bs.rest, at2, exit, brk, cont)
            && at1.pc == at.pc + |TestPart(bs, at)| && at2.pc == at1.pc + SizeS(bs.block) + 1
            && at2.pc + SizeB(bs.rest) == at.pc + SizeB(bs)
            && BreaksB(bs, at.pc) == Breaks(bs.block, at1.pc) + BreaksB(bs.rest, at2.pc)
            && ContinuesB(bs, at.pc) == Continues(bs.block, at1.pc) + ContinuesB(bs.rest, at2.pc)
            && ExitSites(bs, at.pc) == [at2.pc - 1] + ExitSites(bs.rest, at2.pc)
  {
    hide CodeE, CodeS, Breaks, Continues;
  }

  // ----- breaks -----

  /** Code with `break` jumping to `b1` is code with `break` jumping to `b0`, patched at the break sites. */
  lemma {:induction false} BreakSites(s: Stmt, at: Pos, b0: nat, b1: nat, cont: nat)
    ensures Inside(Breaks(s, at.pc), at.pc, SizeS(s))
    ensures CodeS(s, at, b1, cont) == PatchAt(CodeS(s, at, b0, cont), at.pc, Breaks(s, at.pc), b1)
    decreases s
  {
    hide PatchAt, Inside, CodeE, CodeB, CodeTry, CodeCatches, LoopCode, CodeK, CodeFun, Sentinel, SizeE, SizeB, SizeK,
      PoolS, TmpsS, PoolE, TmpsE;
    match s
    case Seq(_, _) => BreakSitesQ(s, at, b0, b1, cont);
    case Block(b) =>
      BreakSites(b, Past(at, 1), b0, b1, cont);
      PatchFrame([Ins0(BSCOPE)], CodeS(b, Past(at, 1), b0, cont), [Ins0(ESCOPE)], at.pc, Breaks(b, at.pc + 1), b1);
    case If(bs) => BreakSitesB(bs, at, Addr(at.pc + SizeB(bs)), b0, b1, cont);
    case Try(_, _, _, _) => BreakSitesT(s, at, b0, b1, cont);
    case Catches(_, _, _) => BreakSitesC(s, at, b0, b1, cont);
    case Break => PatchOne(Ins1(JMP, Addr(b0)), at.pc, b1);
    case _ => PatchNone(CodeS(s, at, b0, cont), at.pc, b1);
  }

  lemma BreakSitesQ(s: Stmt, at: Pos, b0: nat, b1: nat, cont: nat)
    requires s.Seq?
    ensures Inside(Breaks(s, at.pc), at.pc, SizeS(s))
    ensures CodeS(s, at, b1, cont) == PatchAt(CodeS(s, at, b0, cont), at.pc, Breaks(s, at.pc), b1)
    decreases s, 0
  {
    hide PatchAt, Inside, CodeS, SizeS, PoolS, TmpsS;
    var s1, s2, at2 := s.s1, s.s2, AfterS(s.s1, at);
    SeqParts(s1, s2);
    SeqCodeParts(s1, s2, at, b0, cont);
    SeqCodeParts(s1, s2, at, b1, cont);
    BreakSites(s1, at, b0, b1, cont);
    BreakSites(s2, at2, b0, b1, cont);
    PatchJoin(CodeS(s1, at, b0, cont), CodeS(s2, at2, b0, cont), at.pc, Breaks(s1, at.pc), Breaks(s2, at2.pc), b1);
  }

  lemma BreakSitesC(s: Stmt, at: Pos, b0: nat, b1: nat, cont: nat)
    requires s.Catches?
    ensures Inside(Breaks(s, at.pc), at.pc, SizeS(s))
    ensures CodeCatches(s, at, b1, cont) == PatchAt(CodeCatches(s, at, b0, cont), at.pc, Breaks(s, at.pc), b1)
    decreases s, 0
  {
    hide CodeS, PatchAt, Inside;
    var at2 := Past(AfterS(s.first, at), 1);
    BreakSites(s.first, at, b0, b1, cont);
    BreakSites(s.rest, at2, b0, b1, cont);
    PatchAround(CodeS(s.first, at, b0, cont), Ins1(CATCH, VarOp(s.y)), CodeS(s.rest, at2, b0, cont), at.pc,
                Breaks(s.first, at.pc), Breaks(s.rest, at2.pc), b1);
  }

  lemma BreakSitesT(s: Stmt, at: Pos, b0: nat, b1: nat, cont: nat)
    requires s.Try?
    ensures Inside(Breaks(s, at.pc), at.pc, SizeS(s))
    ensures CodeTry(s, at, b1, cont) == PatchAt(CodeTry(s, at, b0, cont), at.pc, Breaks(s, at.pc), b1)
    decreases s, 0
  {
    hide CodeS, PatchAt, Inside;
    var at1, at2, at3 := Past(at, 1), Past(HandlerAt(s, at), 1), FinallyAt(s, at);
    BreakSites(s.body, at1, b0, b1, cont);
    BreakSites(s.handler, at2, b0, b1, cont);
    BreakSites(s.finalizer, at3, b0, b1, cont);
    PatchTry([Ins1(TRY, Addr(HandlerAt(s, at).pc))], CodeS(s.body, at1, b0, cont),
             [Ins1(JMP, Addr(at3.pc))], [Ins1(CATCH, VarOp(s.x))], CodeS(s.handler, at2, b0, cont),
             CodeS(s.finalizer, at3, b0, cont), [Ins0(ETRY)], at.pc,
             Breaks(s.body, at1.pc), Breaks(s.handler, at2.pc), Breaks(s.finalizer, at3.pc), b1);
  }

  /** Patching three of the seven parts of a try statement. */
  lemma PatchTry(c0: seq<IR>, c1: seq<IR>, c2: seq<IR>, c3: seq<IR>, c4: seq<IR>, c5: seq<IR>, c6: seq<IR>,
                 pc: nat, l1: seq<nat>, l4: seq<nat>, l5: seq<nat>, a: nat)
    requires |c0| == |c2| == |c3| == 1
    requires Inside(l1, pc + 1, |c1|) && Inside(l4, pc + |c1| + 3, |c4|) && Inside(l5, pc + |c1| + 3 + |c4|, |c5|)
    ensures PatchAt(c0 + c1 + c2 + c3 + c4 + c5 + c6, pc, l1 + l4 + l5, a)
            == c0 + PatchAt(c1, pc + 1, l1, a) + c2 + c3 + PatchAt(c4, pc + |c1| + 3, l4, a)
               + PatchAt(c5, pc + |c1| + 3 + |c4|, l5, a) + c6
    ensures Inside(l1 + l4 + l5, pc, |c0 + c1 + c2 + c3 + c4 + c5 + c6|)
  {
    hide PatchAt, Inside;
    PatchFrame(c0, c1, c2, pc, l1, a);
    var q := pc + |c1| + 2;
    assert c3 + c4 + [] == c3 + c4;
    PatchFrame(c3, c4, [], q, l4, a);
    assert c3 + PatchAt(c4, q + 1, l4, a) + [] == c3 + PatchAt(c4, q + 1, l4, a);
    PatchJoin(c0 + c1 + c2, c3 + c4, pc, l1, l4, a);
    var q5 := pc + |c1| + 3 + |c4|;
    assert [] + c5 + c6 == c5 + c6;
    PatchFrame([], c5, c6, q5, l5, a);
    assert [] + PatchAt(c5, q5, l5, a) + c6 == PatchAt(c5, q5, l5, a) + c6;
    PatchJoin(c0 + c1 + c2 + (c3 + c4), c5 + c6, pc, l1 + l4, l5, a);
    assert c0 + c1 + c2 + (c3 + c4) + (c5 + c6) == c0 + c1 + c2 + c3 + c4 + c5 + c6;
  }

  lemma {:induction false} BreakSitesB(bs: Branches, at: Pos, exit: Operand, b0: nat, b1: nat, cont: nat)
    ensures Inside(BreaksB(bs, at.pc), at.pc, SizeB(bs))
    ensures CodeB(bs, at, exit, b1, cont) == PatchAt(CodeB(bs, at, exit, b0, cont), at.pc, BreaksB(bs, at.pc), b1)
    decreases bs, 1
  {
    if bs.Else? {
      BreakSites(bs.s, at, b0, b1, cont);
    } else {
      BranchBreaks(bs, at, exit, b0, b1, cont);
    }
  }

  lemma BranchBreaks(bs: Branches, at: Pos, exit: Operand, b0: nat, b1: nat, cont: nat)
    requires bs.Branch?
    ensures Inside(BreaksB(bs, at.pc), at.pc, SizeB(bs))
    ensures CodeB(bs, at, exit, b1, cont) == PatchAt(CodeB(bs, at, exit, b0, cont), at.pc, BreaksB(bs, at.pc), b1)
    decreases bs, 0
  {
    hide CodeB, CodeS, CodeE, PatchAt, Inside, BreaksB, ContinuesB, Breaks, Continues, TestPart, RestAt, SizeB, SizeS,
      SizeE, PoolE, PoolS, TmpsE, TmpsS, ExitSites;
    var at1, at2 := Past(AfterE(bs.cond, at), 1), RestAt(bs, at);
    BranchParts(bs, at, exit, b0, cont);
    BranchParts(bs, at, exit, b1, cont);
    BreakSites(bs.block, at1, b0, b1, cont);
    BreakSitesB(bs.rest, at2, exit, b0, b1, cont);
    PatchBranch(TestPart(bs, at), CodeS(bs.block, at1, b0, cont), [Ins1(JMP, exit)],
                CodeB(bs.rest, at2, exit, b0, cont), at.pc,
                Breaks(bs.block, at1.pc), BreaksB(bs.rest, at2.pc), b1);
  }

  // ----- continues -----

  /** The same for `continue`. */
  lemma {:induction false} ContinueSites(s: Stmt, at: Pos, brk: nat, c0: nat, c1: nat, canBreak: bool,
                                         canContinue: bool)
    requires JumpsOk(s, canBreak, canContinue)
    ensures Inside(Continues(s, at.pc), at.pc, SizeS(s))
    ensures CodeS(s, at, brk, c1) == PatchAt(CodeS(s, at, brk, c0), at.pc, Continues(s, at.pc), c1)
    decreases s, 1
  {
    hide PatchAt, Inside, CodeE, CodeB, CodeTry, CodeCatches, LoopCode, CodeK, CodeFun, Sentinel, SizeE, SizeB, SizeK,
      PoolS, TmpsS, PoolE, TmpsE;
    match s
    case Seq(_, _) => ContinueSitesQ(s, at, brk, c0, c1, canBreak, canContinue);
    case Block(b) =>
      ContinueSites(b, Past(at, 1), brk, c0, c1, canBreak, canContinue);
      PatchFrame([Ins0(BSCOPE)], CodeS(b, Past(at, 1), brk, c0), [Ins0(ESCOPE)], at.pc, Continues(b, at.pc + 1), c1);
    case If(bs) => ContinueSitesB(bs, at, Addr(at.pc + SizeB(bs)), brk, c0, c1, canBreak, canContinue);
    case Switch(e, cases) =>
      NoContinueK(cases, AfterE(e, at), SwitchInfo(s, at), c0, c1);
      PatchNone(CodeS(s, at, brk, c0), at.pc, c1);
    case Try(_, _, _, _) => ContinueSitesT(s, at, brk, c0, c1, canBreak, canContinue);
    case Catches(_, _, _) => ContinueSitesC(s, at, brk, c0, c1, canBreak, canContinue);
    case Continue => PatchOne(Ins1(JMP, Addr(c0)), at.pc, c1);
    case _ => PatchNone(CodeS(s, at, brk, c0), at.pc, c1);
  }

  /** No `continue` belongs to a loop around a switch: the target does not occur in its code. */
  lemma {:induction false} NoContinueK(cs: Cases, at: Pos, w: SwitchEnv, c0: nat, c1: nat)
    requires JumpsOkK(cs)
    ensures CodeK(cs, at, w, c1) == CodeK(cs, at, w, c0)
    decreases cs
  {
    if !cs.NoCase? {
      hide CodeE, CodeS, LabelTest;
      NoContinueK(cs.rest, LaterAt(cs, at), w, c0, c1);
      NoContinue(cs.body, BodyAt(cs, at, false), w.end, c0, c1, true);
      NoContinue(cs.body, at, w.end, c0, c1, true);
    }
  }

  lemma NoContinue(s: Stmt, at: Pos, brk: nat, c0: nat, c1: nat, canBreak: bool)
    requires JumpsOk(s, canBreak, false)
    ensures CodeS(s, at, brk, c1) == CodeS(s, at, brk, c0)
    decreases s, 2
  {
    ContinueSites(s, at, brk, c0, c1, canBreak, false);
    NoneContinue(s, at.pc, canBreak);
    PatchNone(CodeS(s, at, brk, c0), at.pc, c1);
  }

  lemma {:induction false} NoneContinue(s: Stmt, pc: nat, canBreak: bool)
    requires JumpsOk(s, canBreak, false)
    ensures Continues(s, pc) == []
    decreases s
  {
    match s
    case Seq(s1, s2) => NoneContinue(s1, pc, canBreak); NoneContinue(s2, pc + SizeS(s1), canBreak);
    case Block(b) => NoneContinue(b, pc + 1, canBreak);
    case If(bs) => NoneContinueB(bs, pc, canBreak);
    case Try(body, _, handler, finalizer) =>
      NoneContinue(body, pc + 1, canBreak);
      NoneContinue(handler, pc + SizeS(body) + 3, canBreak);
      NoneContinue(finalizer, pc + SizeS(body) + 3 + SizeS(handler), canBreak);
    case Catches(h1, _, h2) => NoneContinue(h1, pc, canBreak); NoneContinue(h2, pc + SizeS(h1) + 1, canBreak);
    case _ =>
  }

  lemma {:induction false} NoneContinueB(bs: Branches, pc: nat, canBreak: bool)
    requires JumpsOkB(bs, canBreak, false)
    ensures ContinuesB(bs, pc) == []
    decreases bs
  {
    match bs
    case Else(s) => NoneContinue(s, pc, canBreak);
    case Branch(c, block, rest) =>
      NoneContinue(block, pc + SizeE(c) + 1, canBreak);
      NoneContinueB(rest, pc + SizeE(c) + 1 + SizeS(block) + 1, canBreak);
  }

  lemma {:induction false} NoneBreak(s: Stmt, pc: nat, canContinue: bool)
    requires JumpsOk(s, false, canContinue)
    ensures Breaks(s, pc) == []
    decreases s
  {
    match s
    case Seq(s1, s2) => NoneBreak(s1, pc, canContinue); NoneBreak(s2, pc + SizeS(s1), canContinue);
    case Block(b) => NoneBreak(b, pc + 1, canContinue);
    case If(bs) => NoneBreakB(bs, pc, canContinue);
    case Try(body, _, handler, finalizer) =>
      NoneBreak(body, pc + 1, canContinue);
      NoneBreak(handler, pc + SizeS(body) + 3, canContinue);
      NoneBreak(finalizer, pc + SizeS(body) + 3 + SizeS(handler), canContinue);
    case Catches(h1, _, h2) => NoneBreak(h1, pc, canContinue); NoneBreak(h2, pc + SizeS(h1) + 1, canContinue);
    case _ =>
  }

  lemma {:induction false} NoneBreakB(bs: Branches, pc: nat, canContinue: bool)
    requires JumpsOkB(bs, false, canContinue)
    ensures BreaksB(bs, pc) == []
    decreases bs
  {
    match bs
    case Else(s) => NoneBreak(s, pc, canContinue);
    case Branch(c, block, rest) =>
      NoneBreak(block, pc + SizeE(c) + 1, canContinue);
      NoneBreakB(rest, pc + SizeE(c) + 1 + SizeS(block) + 1, canContinue);
  }

  lemma ContinueSitesQ(s: Stmt, at: Pos, brk: nat, c0: nat, c1: nat, canBreak: bool, canContinue: bool)
    requires s.Seq? && JumpsOk(s, canBreak, canContinue)
    ensures Inside(Continues(s, at.pc), at.pc, SizeS(s))
    ensures CodeS(s, at, brk, c1) == PatchAt(CodeS(s, at, brk, c0), at.pc, Continues(s, at.pc), c1)
    decreases s, 0
  {
    hide PatchAt, Inside, CodeS, SizeS, PoolS, TmpsS;
    var s1, s2, at2 := s.s1, s.s2, AfterS(s.s1, at);
    SeqParts(s1, s2);
    SeqCodeParts(s1, s2, at, brk, c0);
    SeqCodeParts(s1, s2, at, brk, c1);
    ContinueSites(s1, at, brk, c0, c1, canBreak, canContinue);
    ContinueSites(s2, at2, brk, c0, c1, canBreak, canContinue);
    PatchJoin(CodeS(s1, at, brk, c0), CodeS(s2, at2, brk, c0), at.pc, Continues(s1, at.pc), Continues(s2, at2.pc), c1);
  }

  lemma ContinueSitesC(s: Stmt, at: Pos, brk: nat, c0: nat, c1: nat, canBreak: bool, canContinue: bool)
    requires s.Catches? && JumpsOk(s, canBreak, canContinue)
    ensures Inside(Continues(s, at.pc), at.pc, SizeS(s))
    ensures CodeCatches(s, at, brk, c1) == PatchAt(CodeCatches(s, at, brk, c0), at.pc, Continues(s, at.pc), c1)
    decreases s, 0
  {
    hide CodeS, PatchAt, Inside;
    var at2 := Past(AfterS(s.first, at), 1);
    ContinueSites(s.first, at, brk, c0, c1, canBreak, canContinue);
    ContinueSites(s.rest, at2, brk, c0, c1, canBreak, canContinue);
    PatchAround(CodeS(s.first, at, brk, c0), Ins1(CATCH, VarOp(s.y)), CodeS(s.rest, at2, brk, c0), at.pc,
                Continues(s.first, at.pc), Continues(s.rest, at2.pc), c1);
  }

  lemma ContinueSitesT(s: Stmt, at: Pos, brk: nat, c0: nat, c1: nat, canBreak: bool, canContinue: bool)
    requires s.Try? && JumpsOk(s, canBreak, canContinue)
    ensures Inside(Continues(s, at.pc), at.pc, SizeS(s))
    ensures CodeTry(s, at, brk, c1) == PatchAt(CodeTry(s, at, brk, c0), at.pc, Continues(s, at.pc), c1)
    decreases s, 0
  {
    hide CodeS, PatchAt, Inside;
    var at1, at2, at3 := Past(at, 1), Past(HandlerAt(s, at), 1), FinallyAt(s, at);
    ContinueSites(s.body, at1, brk, c0, c1, canBreak, canContinue);
    ContinueSites(s.handler, at2, brk, c0, c1, canBreak, canContinue);
    ContinueSites(s.finalizer, at3, brk, c0, c1, canBreak, canContinue);
    PatchTry([Ins1(TRY, Addr(HandlerAt(s, at).pc))], CodeS(s.body, at1, brk, c0),
             [Ins1(JMP, Addr(at3.pc))], [Ins1(CATCH, VarOp(s.x))], CodeS(s.handler, at2, brk, c0),
             CodeS(s.finalizer, at3, brk, c0), [Ins0(ETRY)], at.pc,
             Continues(s.body, at1.pc), Continues(s.handler, at2.pc), Continues(s.finalizer, at3.pc), c1);
  }

  lemma {:induction false} ContinueSitesB(bs: Branches, at: Pos, exit: Operand, brk: nat, c0: nat, c1: nat,
                                          canBreak: bool, canContinue: bool)
    requires JumpsOkB(bs, canBreak, canContinue)
    ensures Inside(ContinuesB(bs, at.pc), at.pc, SizeB(bs))
    ensures CodeB(bs, at, exit, brk, c1) == PatchAt(CodeB(bs, at, exit, brk, c0), at.pc, ContinuesB(bs, at.pc), c1)
    decreases bs, 1
  {
    if bs.Else? {
      ContinueSites(bs.s, at, brk, c0, c1, canBreak, canContinue);
    } else {
      BranchContinues(bs, at, exit, brk, c0, c1, canBreak, canContinue);
    }
  }

  lemma BranchContinues(bs: Branches, at: Pos, exit: Operand, brk: nat, c0: nat, c1: nat, canBreak: bool,
                        canContinue: bool)
    requires bs.Branch? && JumpsOkB(bs, canBreak, canContinue)
    ensures Inside(ContinuesB(bs, at.pc), at.pc, SizeB(bs))
    ensures CodeB(bs, at, exit, brk, c1) == PatchAt(CodeB(bs, at, exit, brk, c0), at.pc, ContinuesB(bs, at.pc), c1)
    decreases bs, 0
  {
    hide CodeB, CodeS, CodeE, PatchAt, Inside, BreaksB, ContinuesB, Breaks, Continues, TestPart, RestAt, SizeB, SizeS,
      SizeE, PoolE, PoolS, TmpsE, TmpsS, ExitSites;
    var at1, at2 := Past(AfterE(bs.cond, at), 1), RestAt(bs, at);
    BranchParts(bs, at, exit, brk, c0);
    BranchParts(bs, at, exit, brk, c1);
    ContinueSites(bs.block, at1, brk, c0, c1, canBreak, canContinue);
    ContinueSitesB(bs.rest, at2, exit, brk, c0, c1, canBreak, canContinue);
    PatchBranch(TestPart(bs, at), CodeS(bs.block, at1, brk, c0), [Ins1(JMP, exit)], CodeB(bs.rest, at2, exit, brk, c0),
                at.pc,
                Continues(bs.block, at1.pc), ContinuesB(bs.rest, at2.pc), c1);
  }

  // ----- loops -----

  /** A loop generated with `break` jumping to 0 and `continue` to its start. */
  function LoopHoles(s: Stmt, at: Pos, cont: nat): (c: seq<IR>)
    requires s.Loop?
    ensures |c| == SizeS(s)
  {
    var bodyAt := AfterC(s.cond, at);
    CodeC(s.cond, at, at.pc + SizeS(s)) + CodeS(s.body, bodyAt, 0, cont)
    + CodeS(s.update, AfterS(s.body, bodyAt), 0, 0) + [Ins1(JMP, Addr(at.pc))]
  }

  /** Patching the list a loop recorded, its own start first, yields the loop's final code with its
      sentinel patched. */
  lemma LoopPatched(s: Stmt, at: Pos)
    requires s.Loop? && JumpsOk(s, false, false)
    ensures var sites := [at.pc] + Breaks(s.body, AfterC(s.cond, at).pc);
            && Inside(sites, at.pc, SizeS(s))
            && PatchAt(LoopHoles(s, at, ContinueAddr(s, at)), at.pc, sites, at.pc + SizeS(s))
               == Sentinel(LoopCode(s, at), at.pc + SizeS(s))
  {
    hide CodeC, CodeS, PatchAt, Inside, Sentinel, Breaks;
    var bodyAt, end, cont := AfterC(s.cond, at), at.pc + SizeS(s), ContinueAddr(s, at);
    var sites := Breaks(s.body, bodyAt.pc);
    BreakSites(s.body, bodyAt, 0, end, cont);
    var tail := CodeS(s.update, AfterS(s.body, bodyAt), 0, 0) + [Ins1(JMP, Addr(at.pc))];
    var front, body := CodeC(s.cond, at, end), CodeS(s.body, bodyAt, 0, cont);
    Append2(front + body, CodeS(s.update, AfterS(s.body, bodyAt), 0, 0), [Ins1(JMP, Addr(at.pc))]);
    Append2(front + PatchAt(body, bodyAt.pc, sites, end), CodeS(s.update, AfterS(s.body, bodyAt), 0, 0),
            [Ins1(JMP, Addr(at.pc))]);
    PatchFrame(front, body, tail, at.pc, sites, end);
    PatchFirst(front + body + tail, at.pc, sites, end);
  }

  /** The list of a loop starts with the loop's own address. */
  lemma PatchFirst(c: seq<IR>, pc: nat, sites: seq<nat>, a: nat)
    requires c != [] && Inside(sites, pc, |c|)
    ensures PatchAt(c, pc, [pc] + sites, a) == Sentinel(PatchAt(c, pc, sites, a), a)
    ensures Inside([pc] + sites, pc, |c|)
  {
    forall i | 0 <= i < |c|
      ensures PatchAt(c, pc, [pc] + sites, a)[i] == Sentinel(PatchAt(c, pc, sites, a), a)[i]
    {
      assert pc + i in [pc] + sites <==> i == 0 || pc + i in sites;
    }
  }

  // ----- if statements -----

  /** `getAt(i).op1 = Operand(JMP_ADDR, a)` at the recorded addresses. */
  function AimAt(code: seq<IR>, pc: nat, sites: seq<nat>, a: nat): (r: seq<IR>)
    ensures |r| == |code|
  {
    seq(|code|, i requires 0 <= i < |code| => if pc + i in sites then code[i].(op1 := Addr(a)) else code[i])
  }

  lemma AimJoin(c1: seq<IR>, c2: seq<IR>, pc: nat, l1: seq<nat>, l2: seq<nat>, a: nat)
    requires Inside(l1, pc, |c1|) && Inside(l2, pc + |c1|, |c2|)
    ensures AimAt(c1 + c2, pc, l1 + l2, a) == AimAt(c1, pc, l1, a) + AimAt(c2, pc + |c1|, l2, a)
    ensures Inside(l1 + l2, pc, |c1 + c2|)
  {
  }

  lemma AimBranch(c0: seq<IR>, i: IR, c1: seq<IR>, pc: nat, l: seq<nat>, a: nat)
    requires Inside(l, pc + |c0| + 1, |c1|)
    ensures AimAt(c0 + [i] + c1, pc, [pc + |c0|] + l, a) == c0 + [i.(op1 := Addr(a))] + AimAt(c1, pc + |c0| + 1, l, a)
    ensures Inside([pc + |c0|] + l, pc, |c0| + 1 + |c1|)
  {
    assert AimAt(c0 + [i], pc, [pc + |c0|], a) == c0 + [i.(op1 := Addr(a))];
    AimJoin(c0 + [i], c1, pc, [pc + |c0|], l, a);
  }

  lemma {:induction false} ExitsAimed(bs: Branches, at: Pos, a: nat, brk: nat, cont: nat)
    ensures Inside(ExitSites(bs, at.pc), at.pc, SizeB(bs))
    ensures AimAt(CodeB(bs, at, NO_OPERAND, brk, cont), at.pc, ExitSites(bs, at.pc), a)
            == CodeB(bs, at, Addr(a), brk, cont)
    decreases bs, 1
  {
    if bs.Branch? {
      BranchAimed(bs, at, a, brk, cont);
    }
  }

  lemma BranchAimed(bs: Branches, at: Pos, a: nat, brk: nat, cont: nat)
    requires bs.Branch?
    ensures Inside(ExitSites(bs, at.pc), at.pc, SizeB(bs))
    ensures AimAt(CodeB(bs, at, NO_OPERAND, brk, cont), at.pc, ExitSites(bs, at.pc), a)
            == CodeB(bs, at, Addr(a), brk, cont)
    decreases bs, 0
  {
    hide CodeB, CodeS, CodeE, AimAt, Inside, BreaksB, ContinuesB, Breaks, Continues, TestPart, RestAt, SizeB, SizeS,
      SizeE, PoolE, PoolS, TmpsE, TmpsS, ExitSites;
    var at1, at2 := Past(AfterE(bs.cond, at), 1), RestAt(bs, at);
    BranchParts(bs, at, NO_OPERAND, brk, cont);
    BranchParts(bs, at, Addr(a), brk, cont);
    ExitsAimed(bs.rest, at2, a, brk, cont);
    AimBranch(TestPart(bs, at) + CodeS(bs.block, at1, brk, cont), Ins1(JMP, NO_OPERAND),
              CodeB(bs.rest, at2, NO_OPERAND, brk, cont),
              at.pc, ExitSites(bs.rest, at2.pc), a);
  }

  lemma AimFrame(c0: seq<IR>, c1: seq<IR>, pc: nat, sites: seq<nat>, a: nat)
    requires Inside(sites, pc + |c0|, |c1|)
    ensures AimAt(c0 + c1, pc, sites, a) == c0 + AimAt(c1, pc + |c0|, sites, a) && Inside(sites, pc, |c0 + c1|)
  {
  }

  // ----- function bodies -----

  /** Where a compiled function is: its position and the number of temporaries its activations need. */
  datatype Entry = Entry(at: Pos, temps: nat)

  /** The functions declared in a statement, with the places of their code. */
  function FunTable(s: Stmt, at: Pos): map<nat, Entry> {
    match s
    case Seq(s1, s2) => FunTable(s1, at) + FunTable(s2, AfterS(s1, at))
    case Block(b) => FunTable(b, Past(at, 1))
    case If(bs) => FunTableB(bs, at)
    case Loop(_, cond, update, body) =>
      FunTable(body, AfterC(cond, at)) + FunTable(update, AfterS(body, AfterC(cond, at)))
    case Switch(e, cases) => FunTableK(cases, AfterE(e, at), Lone(cases))
    case Try(body, _, handler, finalizer) =>
      FunTable(body, Past(at, 1)) + FunTable(handler, Past(HandlerAt(s, at), 1)) + FunTable(finalizer, FinallyAt(s, at))
    case Catches(h1, _, h2) => FunTable(h1, at) + FunTable(h2, Past(AfterS(h1, at), 1))
    case FunDecl(f, prologue, body) =>
      FunTable(prologue, FunEntry(at)) + FunTable(body, AfterS(prologue, FunEntry(at)))
      + map[f := Entry(FunEntry(at), TmpsS(prologue) + TmpsS(body))]
    case _ => map[]
  }

  function FunTableB(bs: Branches, at: Pos): map<nat, Entry> {
    match bs
    case Else(s) => FunTable(s, at)
    case Branch(c, block, rest) => FunTable(block, Past(AfterE(c, at), 1)) + FunTableB(rest, RestAt(bs, at))
  }

  function FunTableK(cs: Cases, at: Pos, lone: bool): map<nat, Entry> {
    match cs
    case NoCase => map[]
    case Case(_, body, rest) => FunTable(body, BodyAt(cs, at, lone)) + FunTableK(rest, LaterAt(cs, at), lone)
    case DefaultCase(body, rest) =>
      if lone then FunTable(body, at)
      else FunTable(body, BodyAt(cs, at, lone)) + FunTableK(rest, LaterAt(cs, at), lone)
  }

  // ----- switches -----

  /** The breaks pending in the bodies of a switch. */
  function BreaksK(cs: Cases, pc: nat, lone: bool): seq<nat> {
    match cs
    case NoCase => []
    case Case(lbl, body, rest) =>
      Breaks(body, pc + SizeE(lbl) + 2) + BreaksK(rest, pc + SizeE(lbl) + 2 + SizeS(body) + 1, lone)
    case DefaultCase(body, rest) =>
      if lone then Breaks(body, pc) else Breaks(body, pc + 1) + BreaksK(rest, pc + 1 + SizeS(body) + 1, lone)
  }

  /** Address of the test of the last labelled case. */
  function LastTest(cs: Cases, pc: nat): Option<nat> {
    match cs
    case NoCase => None
    case Case(lbl, body, rest) =>
      var later := LastTest(rest, pc + SizeE(lbl) + 2 + SizeS(body) + 1);
      if later.Some? then later else Some(pc + SizeE(lbl) + 1)
    case DefaultCase(body, rest) => LastTest(rest, pc + 1 + SizeS(body) + 1)
  }

  /** Size of the first case of several. */
  function HeadSize(cs: Cases): nat
    requires !cs.NoCase?
  {
    if cs.Case? then SizeE(cs.lbl) + 2 + SizeS(cs.body) + 1 else 1 + SizeS(cs.body) + 1
  }

  /** Redirecting a test that fails. */
  function SetTest(code: seq<IR>, test: Option<nat>, a: nat): (r: seq<IR>)
    requires test.Some? ==> test.value < |code|
    ensures |r| == |code|
  {
    if test.None? then code else code[test.value := code[test.value].(op2 := Addr(a))]
  }

  /** The same address, `n` instructions further on. */
  function Moved(test: Option<nat>, n: nat): Option<nat> {
    if test.None? then None else Some(test.value + n)
  }

  lemma TestFrame(c0: seq<IR>, c1: seq<IR>, test: Option<nat>, a: nat)
    requires test.Some? ==> test.value < |c1|
    ensures SetTest(c0 + c1, Moved(test, |c0|), a) == c0 + SetTest(c1, test, a)
  {
  }

  lemma {:induction false} LastTestInside(cs: Cases)
    ensures LastTest(cs, 0).Some? <==> HasLabel(cs)
    ensures LastTest(cs, 0).Some? ==> LastTest(cs, 0).value < SizeK(cs, false)
  {
    if !cs.NoCase? {
      LastTestInside(cs.rest);
      LastTestMoved(cs.rest, HeadSize(cs));
    }
  }

  lemma {:induction false} LastTestMoved(cs: Cases, pc: nat)
    ensures LastTest(cs, pc) == Moved(LastTest(cs, 0), pc)
  {
    if !cs.NoCase? {
      hide SizeE, SizeS;
      LastTestMoved(cs.rest, HeadSize(cs));
      LastTestMoved(cs.rest, pc + HeadSize(cs));
    }
  }

  /** Code whose last failing test goes to the default is the code generated without knowing the default,
      with that one test redirected. */
  lemma {:induction false} DefaultPatched(cs: Cases, at: Pos, w: SwitchEnv, a: nat, cont: nat)
    requires !w.lone && w.dflt.None?
    ensures LastTest(cs, 0).Some? ==> LastTest(cs, 0).value < SizeK(cs, false)
    ensures CodeK(cs, at, w.(dflt := Some(a)), cont) == SetTest(CodeK(cs, at, w, cont), LastTest(cs, 0), a)
    decreases cs
  {
    LastTestInside(cs);
    if !cs.NoCase? {
      DefaultPatched(cs.rest, LaterAt(cs, at), w, a, cont);
      HeadPatched(cs, at, w, a, cont);
    } else {
      NoTest([], a);
    }
  }

  lemma HeadPatched(cs: Cases, at: Pos, w: SwitchEnv, a: nat, cont: nat)
    requires !w.lone && w.dflt.None? && !cs.NoCase?
    requires LastTest(cs, 0).Some? ==> LastTest(cs, 0).value < SizeK(cs, false)
    requires LastTest(cs.rest, 0).Some? ==> LastTest(cs.rest, 0).value < SizeK(cs.rest, false)
    requires CodeK(cs.rest, LaterAt(cs, at), w.(dflt := Some(a)), cont)
             == SetTest(CodeK(cs.rest, LaterAt(cs, at), w, cont), LastTest(cs.rest, 0), a)
    ensures CodeK(cs, at, w.(dflt := Some(a)), cont) == SetTest(CodeK(cs, at, w, cont), LastTest(cs, 0), a)
  {
    hide CodeE, CodeS, CodeK, SetTest, LastTest, LabelTest, NextBody, SizeS, SizeE, SizeK, BodyAt, LaterAt, BreaksK,
      Front, HeadSize;
    var w1, later := w.(dflt := Some(a)), LaterAt(cs, at);
    TestStep(cs);
    CodeParts(cs, at, w, cont);
    CodeParts(cs, at, w1, cont);
    FrontSize(cs, at, w);
    var f, r := Front(cs, at, w), CodeK(cs.rest, later, w, cont);
    var code, jump := CodeS(cs.body, BodyAt(cs, at, false), w.end, cont),
        [Ins1(JMP, Addr(NextBody(cs.rest, later.pc)))];
    Grouped(f, code, jump, r);
    if cs.Case? && !HasLabel(cs.rest) {
      NoTest(r, a);
      Grouped(Front(cs, at, w1), code, jump, r);
      OwnTest(cs, at, w, a, (code + jump) + r);
    } else {
      SameTest(cs, at, w, a);
      TestFrame(f + code + jump, r, LastTest(cs.rest, 0), a);
    }
  }

  lemma Grouped(a: seq<IR>, b: seq<IR>, c: seq<IR>, d: seq<IR>)
    ensures a + b + c + d == a + ((b + c) + d)
  {
  }

  lemma FrontSize(cs: Cases, at: Pos, w: SwitchEnv)
    requires !cs.NoCase?
    ensures |Front(cs, at, w)| + SizeS(cs.body) + 1 == HeadSize(cs)
  {
  }

  lemma SameTest(cs: Cases, at: Pos, w: SwitchEnv, a: nat)
    requires cs.DefaultCase? || (cs.Case? && HasLabel(cs.rest))
    ensures Front(cs, at, w.(dflt := Some(a))) == Front(cs, at, w)
  {
  }

  lemma NoTest(r: seq<IR>, a: nat)
    ensures SetTest(r, None, a) == r
  {
  }

  lemma OwnTest(cs: Cases, at: Pos, w: SwitchEnv, a: nat, rest: seq<IR>)
    requires cs.Case? && !HasLabel(cs.rest) && w.dflt.None?
    ensures Front(cs, at, w.(dflt := Some(a))) + rest == SetTest(Front(cs, at, w) + rest, Some(SizeE(cs.lbl) + 1), a)
  {
  }

  lemma TestStep(cs: Cases)
    requires !cs.NoCase?
    ensures var n := HeadSize(cs);
            LastTest(cs, 0) ==
            if HasLabel(cs.rest) || cs.DefaultCase? then Moved(LastTest(cs.rest, 0), n) else Some(SizeE(cs.lbl) + 1)
    ensures LastTest(cs.rest, 0).Some? <==> HasLabel(cs.rest)
  {
    LastTestInside(cs.rest);
    LastTestMoved(cs.rest, HeadSize(cs));
  }

  lemma TestIgnoresEnd(cs: Cases, at: Pos, w: SwitchEnv, end: nat)
    requires cs.Case?
    ensures LabelTest(cs, at, w.(end := end)) == LabelTest(cs, at, w)
  {
  }

  /** Breaks of a switch are patched at its end. */
  lemma {:induction false} BreakSitesK(cs: Cases, at: Pos, w: SwitchEnv, end: nat, cont: nat)
    ensures Inside(BreaksK(cs, at.pc, w.lone), at.pc, SizeK(cs, w.lone))
    ensures CodeK(cs, at, w.(end := end), cont)
            == PatchAt(CodeK(cs, at, w, cont), at.pc, BreaksK(cs, at.pc, w.lone), end)
    decreases cs
  {
    hide CodeE, CodeS, PatchAt, Inside;
    if cs.NoCase? {
      PatchNone([], at.pc, end);
    } else if cs.DefaultCase? && w.lone {
      BreakSites(cs.body, at, w.end, end, cont);
    } else {
      BreakSites(cs.body, BodyAt(cs, at, false), w.end, end, cont);
      BreakSitesK(cs.rest, LaterAt(cs, at), w, end, cont);
      HeadBreaks(cs, at, w, end, cont);
    }
  }

  function Front(cs: Cases, at: Pos, w: SwitchEnv): seq<IR>
    requires !cs.NoCase?
  {
    if cs.Case? then CodeE(cs.lbl, at) + LabelTest(cs, at, w) else [Ins1(JMP, Addr(LaterAt(cs, at).pc))]
  }

  lemma CodeParts(cs: Cases, at: Pos, w: SwitchEnv, cont: nat)
    requires !cs.NoCase? && (cs.Case? || !w.lone)
    ensures CodeK(cs, at, w, cont)
            == Front(cs, at, w) + CodeS(cs.body, BodyAt(cs, at, false), w.end, cont)
               + [Ins1(JMP, Addr(NextBody(cs.rest, LaterAt(cs, at).pc)))] + CodeK(cs.rest, LaterAt(cs, at), w, cont)
    ensures at.pc + |Front(cs, at, w)| == BodyAt(cs, at, false).pc
    ensures LaterAt(cs, at).pc == BodyAt(cs, at, false).pc + SizeS(cs.body) + 1
    ensures LaterAt(cs, at).pc + SizeK(cs.rest, w.lone) == at.pc + SizeK(cs, w.lone)
    ensures BreaksK(cs, at.pc, w.lone)
            == Breaks(cs.body, BodyAt(cs, at, false).pc) + BreaksK(cs.rest, LaterAt(cs, at).pc, w.lone)
  {
    hide CodeE, CodeS, SizeE, SizeS, PoolS, PoolE, TmpsE, TmpsS, Breaks, LabelTest, NextBody;
  }

  lemma HeadBreaks(cs: Cases, at: Pos, w: SwitchEnv, end: nat, cont: nat)
    requires !cs.NoCase? && (cs.Case? || !w.lone)
    requires var at1 := BodyAt(cs, at, false);
             && Inside(Breaks(cs.body, at1.pc), at1.pc, SizeS(cs.body))
             && CodeS(cs.body, at1, end, cont)
                == PatchAt(CodeS(cs.body, at1, w.end, cont), at1.pc, Breaks(cs.body, at1.pc), end)
    requires var at2 := LaterAt(cs, at);
             && Inside(BreaksK(cs.rest, at2.pc, w.lone), at2.pc, SizeK(cs.rest, w.lone))
             && CodeK(cs.rest, at2, w.(end := end), cont)
                == PatchAt(CodeK(cs.rest, at2, w, cont), at2.pc, BreaksK(cs.rest, at2.pc, w.lone), end)
    ensures Inside(BreaksK(cs, at.pc, w.lone), at.pc, SizeK(cs, w.lone))
    ensures CodeK(cs, at, w.(end := end), cont)
            == PatchAt(CodeK(cs, at, w, cont), at.pc, BreaksK(cs, at.pc, w.lone), end)
  {
    hide CodeE, CodeS, CodeK, PatchAt, Inside, SizeS, SizeE, SizeK, BodyAt, LaterAt, BreaksK, Breaks, LabelTest;
    var at1, at2 := BodyAt(cs, at, false), LaterAt(cs, at);
    CodeParts(cs, at, w, cont);
    CodeParts(cs, at, w.(end := end), cont);
    if cs.Case? {
      TestIgnoresEnd(cs, at, w, end);
    }
    PatchBranch(Front(cs, at, w), CodeS(cs.body, at1, w.end, cont), [Ins1(JMP, Addr(NextBody(cs.rest, at2.pc)))],
                CodeK(cs.rest, at2, w, cont), at.pc, Breaks(cs.body, at1.pc), BreaksK(cs.rest, at2.pc, w.lone), end);
  }
}
