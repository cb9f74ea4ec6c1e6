/** Where generated jumps go: never out of the construct that emitted them, except for the recorded `break`
    and `continue` jumps. */
module Jumps {
  import opened Values
  import opened Ast
  import opened Machine
  import opened Layout
  import opened Backpatch

  /** The address an instruction may jump to. */
  function Target(i: IR): Option<nat> {
    match i.op
    case JMP => Some(i.op1.addr)
    case TRY => Some(i.op1.addr)
    case JMPZ => Some(i.op2.addr)
    case JMPNZ => Some(i.op2.addr)
    case AND => Some(i.op2.addr)
    case OR => Some(i.op2.addr)
    case _ => None
  }

  /** The range of a construct, its pending jumps and where they go. */
  datatype Bounds = Bounds(lo: nat, hi: nat, breaks: seq<nat>, brk: nat, continues: seq<nat>, cont: nat)

  predicate Within(i: IR, pc: nat, b: Bounds) {
    || Target(i).None?
    || b.lo <= Target(i).value <= b.hi
    || (i.op.JMP? && pc in b.breaks && Target(i).value == b.brk)
    || (i.op.JMP? && pc in b.continues && Target(i).value == b.cont)
  }

  predicate Closed(code: seq<IR>, pc: nat, b: Bounds) {
    forall k :: 0 <= k < |code| ==> Within(code[k], pc + k, b)
  }

  lemma ClosedJoin(c1: seq<IR>, c2: seq<IR>, pc: nat, b: Bounds)
    requires Closed(c1, pc, b) && Closed(c2, pc + |c1|, b)
    ensures Closed(c1 + c2, pc, b)
  {
    forall k | 0 <= k < |c1 + c2| ensures Within((c1 + c2)[k], pc + k, b) {
      if k < |c1| {
        assert Within(c1[k], pc + k, b);
      } else {
        assert Within(c2[k - |c1|], pc + |c1| + (k - |c1|), b);
      }
    }
  }

  lemma ClosedOne(i: IR, pc: nat, b: Bounds)
    requires Within(i, pc, b)
    ensures Closed([i], pc, b)
  {
  }

  /** Pending jumps with a target inside the range are not pending any more. */
  lemma ClosedInner(code: seq<IR>, pc: nat, b: Bounds, outer: Bounds)
    requires Closed(code, pc, b) && outer.lo == b.lo && outer.hi == b.hi
    requires (b.breaks == [] || b.lo <= b.brk <= b.hi) && (b.continues == [] || b.lo <= b.cont <= b.hi)
    ensures Closed(code, pc, outer)
  {
    forall k | 0 <= k < |code| ensures Within(code[k], pc + k, outer) {
      assert Within(code[k], pc + k, b);
    }
  }

  /** The bounds contain a construct of the given size and its pending jumps. */
  predicate Covers(b: Bounds, pc: nat, size: nat, breaks: seq<nat>, continues: seq<nat>) {
    && b.lo <= pc && pc + size <= b.hi
    && (forall a :: a in breaks ==> a in b.breaks)
    && (forall a :: a in continues ==> a in b.continues)
  }

  // ----- expressions -----

  lemma {:induction false} ClosedE(e: Expr, at: Pos, b: Bounds)
    requires b.lo <= at.pc && at.pc + SizeE(e) <= b.hi
    ensures Closed(CodeE(e, at), at.pc, b)
    decreases e, 1
  {
    hide Closed, CodeE, SizeE;
    match e
    case Literal(_) => ClosedLeaf(e, at, b);
    case Ident(_) => ClosedLeaf(e, at, b);
    case IncDec(_, _) => ClosedLeaf(e, at, b);
    case Binary(_, _, _) => ClosedPair(e, at, b);
    case Comparison(_, _, _) => ClosedPair(e, at, b);
    case Augmented(_, _, _) => ClosedSingle(e, at, b);
    case Negate(_) => ClosedSingle(e, at, b);
    case Complement(_) => ClosedSingle(e, at, b);
    case AssignTo(_, _) => ClosedSingle(e, at, b);
    case Logic(_, _, _) => ClosedShort(e, at, b);
    case Boolean(_, _, _) => ClosedShort(e, at, b);
    case Call(_, _) => ClosedCall(e, at, b);
  }

  lemma ClosedNone(pc: nat, b: Bounds)
    ensures Closed([], pc, b)
  {
  }

  /** Code followed by one instruction that does not jump. */
  lemma ClosedLast(front: seq<IR>, i: IR, pc: nat, b: Bounds)
    requires Closed(front, pc, b) && Target(i).None?
    ensures Closed(front + [i], pc, b)
  {
    ClosedOne(i, pc + |front|, b);
    ClosedJoin(front, [i], pc, b);
  }

  lemma ClosedLeaf(e: Expr, at: Pos, b: Bounds)
    requires e.Literal? || e.Ident? || e.IncDec?
    ensures Closed(CodeE(e, at), at.pc, b)
  {
  }

  lemma ClosedPair(e: Expr, at: Pos, b: Bounds)
    requires e.Binary? || e.Comparison?
    requires b.lo <= at.pc && at.pc + SizeE(e) <= b.hi
    ensures Closed(CodeE(e, at), at.pc, b)
    decreases e, 0
  {
    hide Closed, PoolE, TmpsE, OpE;
    var at2 := AfterE(e.l, at);
    var i := IR(if e.Binary? then BINARY(e.op) else COMPARE(e.cmp), OpE(e.l, at), OpE(e.r, at2), OpE(e, at));
    ClosedE(e.l, at, b);
    ClosedE(e.r, at2, b);
    ClosedJoin(CodeE(e.l, at), CodeE(e.r, at2), at.pc, b);
    ClosedLast(CodeE(e.l, at) + CodeE(e.r, at2), i, at.pc, b);
  }

  lemma ClosedSingle(e: Expr, at: Pos, b: Bounds)
    requires e.Augmented? || e.Negate? || e.Complement? || e.AssignTo?
    requires b.lo <= at.pc && at.pc + SizeE(e) <= b.hi
    ensures Closed(CodeE(e, at), at.pc, b)
    decreases e, 0
  {
    hide Closed, PoolE, TmpsE, OpE;
    var a := if e.Augmented? then e.r else e.e;
    var i := CodeE(e, at)[SizeE(a)];
    ClosedE(a, at, b);
    assert CodeE(e, at) == CodeE(a, at) + [i];
    ClosedLast(CodeE(a, at), i, at.pc, b);
  }

  lemma ClosedCall(e: Expr, at: Pos, b: Bounds)
    requires e.Call? && b.lo <= at.pc && at.pc + SizeE(e) <= b.hi
    ensures Closed(CodeE(e, at), at.pc, b)
    decreases e, 0
  {
    hide Closed, CodeE, SizeE, CodeA, PoolE, TmpsE, OpE;
    CallParts(e, at);
    var at1 := AfterE(e.callee, at);
    var c, a, s := CodeE(e.callee, at), CodeA(e.args, at1), Sends(e.args, at1);
    ClosedE(e.callee, at, b);
    ClosedA(e.args, at1, b);
    ClosedSends(e.args, at1, at1.pc + SizeA(e.args), b);
    ClosedJoin(c, a, at.pc, b);
    ClosedJoin(c + a, s, at.pc, b);
    ClosedLast(c + a + s, IR(FCALL, OpE(e.callee, at), NO_OPERAND, OpE(e, at)), at.pc, b);
  }

  lemma ClosedShort(e: Expr, at: Pos, b: Bounds)
    requires e.Logic? || e.Boolean?
    requires b.lo <= at.pc && at.pc + SizeE(e) <= b.hi
    ensures Closed(CodeE(e, at), at.pc, b)
    decreases e, 0
  {
    hide Closed, CodeE, SizeE, SecondTest, OpE, PoolE, TmpsE;
    ShortParts(e, at);
    var at2 := SecondTest(e, at);
    var l, r, t1, t2 := CodeE(e.l, at), CodeE(e.r, at2), TestCode(e, e.l, at, at), TestCode(e, e.r, at2, at);
    ClosedE(e.l, at, b);
    ClosedE(e.r, at2, b);
    ClosedOne(t1, at.pc + |l|, b);
    ClosedOne(t2, at2.pc + |r|, b);
    ClosedJoin(l, [t1], at.pc, b);
    ClosedJoin(l + [t1], r, at.pc, b);
    ClosedJoin(l + [t1] + r, [t2], at.pc, b);
  }

  lemma {:induction false} ClosedA(es: Exprs, at: Pos, b: Bounds)
    requires b.lo <= at.pc && at.pc + SizeA(es) <= b.hi
    ensures Closed(CodeA(es, at), at.pc, b)
    decreases es
  {
    if es.Exprs? {
      hide Closed;
      ClosedE(es.head, at, b);
      ClosedA(es.rest, AfterE(es.head, at), b);
      ClosedJoin(CodeE(es.head, at), CodeA(es.rest, AfterE(es.head, at)), at.pc, b);
    }
  }

  lemma {:induction false} ClosedSends(es: Exprs, at: Pos, pc: nat, b: Bounds)
    ensures Closed(Sends(es, at), pc, b)
    decreases es
  {
    if es.Exprs? {
      ClosedSends(es.rest, AfterE(es.head, at), pc + 1, b);
      ClosedJoin([Ins1(SENDVAL, OpE(es.head, at))], Sends(es.rest, AfterE(es.head, at)), pc, b);
    }
  }

  // ----- statements -----

  lemma {:induction false} ClosedS(s: Stmt, at: Pos, b: Bounds, canBreak: bool, canContinue: bool)
    requires JumpsOk(s, canBreak, canContinue)
    requires Covers(b, at.pc, SizeS(s), Breaks(s, at.pc), Continues(s, at.pc))
    ensures Closed(CodeS(s, at, b.brk, b.cont), at.pc, b)
    decreases s, 1
  {
    hide Closed, CodeE, CodeB, CodeTry, CodeFun, CodeK, LoopCode, Sentinel;
    match s
    case Seq(_, _) => ClosedSeq(s, at, b, canBreak, canContinue);
    case Block(_) => ClosedBlock(s, at, b, canBreak, canContinue);
    case If(bs) => ClosedB(bs, at, Addr(at.pc + SizeB(bs)), b, canBreak, canContinue);
    case Loop(_, _, _, _) => ClosedLoop(s, at, b);
    case Switch(_, _) => ClosedSwitch(s, at, b);
    case Try(_, _, _, _) => ClosedTry(s, at, b, canBreak, canContinue);
    case Catches(_, _, _) => ClosedCatches(s, at, b, canBreak, canContinue);
    case FunDecl(_, _, _) => ClosedFun(s, at, b);
    case _ => ClosedSimple(s, at, b);
  }

  lemma ClosedSeq(s: Stmt, at: Pos, b: Bounds, canBreak: bool, canContinue: bool)
    requires s.Seq? && JumpsOk(s, canBreak, canContinue)
    requires Covers(b, at.pc, SizeS(s), Breaks(s, at.pc), Continues(s, at.pc))
    ensures Closed(CodeS(s, at, b.brk, b.cont), at.pc, b)
    decreases s, 0
  {
    hide Closed, CodeS, Covers, Breaks, Continues, SizeS, PoolS, TmpsS;
    SeqCovers(s, at, b);
    ClosedS(s.s1, at, b, canBreak, canContinue);
    ClosedS(s.s2, AfterS(s.s1, at), b, canBreak, canContinue);
    ClosedJoin(CodeS(s.s1, at, b.brk, b.cont), CodeS(s.s2, AfterS(s.s1, at), b.brk, b.cont), at.pc, b);
  }

  lemma SeqCovers(s: Stmt, at: Pos, b: Bounds)
    requires s.Seq? && Covers(b, at.pc, SizeS(s), Breaks(s, at.pc), Continues(s, at.pc))
    ensures var pc2 := AfterS(s.s1, at).pc;
            && Covers(b, at.pc, SizeS(s.s1), Breaks(s.s1, at.pc), Continues(s.s1, at.pc))
            && Covers(b, pc2, SizeS(s.s2), Breaks(s.s2, pc2), Continues(s.s2, pc2))
    ensures CodeS(s, at, b.brk, b.cont) == CodeS(s.s1, at, b.brk, b.cont) + CodeS(s.s2, AfterS(s.s1, at), b.brk, b.cont)
  {
    hide PoolS, TmpsS;
    var l1, l2 := Breaks(s.s1, at.pc), Breaks(s.s2, at.pc + SizeS(s.s1));
    var m1, m2 := Continues(s.s1, at.pc), Continues(s.s2, at.pc + SizeS(s.s1));
    assert Breaks(s, at.pc) == l1 + l2 && Continues(s, at.pc) == m1 + m2;
    assert forall a :: a in l1 || a in l2 ==> a in l1 + l2;
    assert forall a :: a in m1 || a in m2 ==> a in m1 + m2;
  }

  lemma ClosedCatches(s: Stmt, at: Pos, b: Bounds, canBreak: bool, canContinue: bool)
    requires s.Catches? && JumpsOk(s, canBreak, canContinue)
    requires Covers(b, at.pc, SizeS(s), Breaks(s, at.pc), Continues(s, at.pc))
    ensures Closed(CodeS(s, at, b.brk, b.cont), at.pc, b)
    decreases s, 0
  {
    hide Closed, CodeS, Covers, Breaks, Continues, SizeS, PoolS, TmpsS;
    CatchesCovers(s, at, b);
    var at2 := Past(AfterS(s.first, at), 1);
    ClosedS(s.first, at, b, canBreak, canContinue);
    ClosedS(s.rest, at2, b, canBreak, canContinue);
    ClosedOne(Ins1(CATCH, VarOp(s.y)), AfterS(s.first, at).pc, b);
    ClosedJoin(CodeS(s.first, at, b.brk, b.cont), [Ins1(CATCH, VarOp(s.y))], at.pc, b);
    ClosedJoin(CodeS(s.first, at, b.brk, b.cont) + [Ins1(CATCH, VarOp(s.y))], CodeS(s.rest, at2, b.brk, b.cont), at.pc,
               b);
  }

  lemma CatchesCovers(s: Stmt, at: Pos, b: Bounds)
    requires s.Catches? && Covers(b, at.pc, SizeS(s), Breaks(s, at.pc), Continues(s, at.pc))
    ensures var at2 := Past(AfterS(s.first, at), 1);
            && Covers(b, at.pc, SizeS(s.first), Breaks(s.first, at.pc), Continues(s.first, at.pc))
            && Covers(b, at2.pc, SizeS(s.rest), Breaks(s.rest, at2.pc), Continues(s.rest, at2.pc))
            && CodeS(s, at, b.brk, b.cont)
               == CodeS(s.first, at, b.brk, b.cont) + [Ins1(CATCH, VarOp(s.y))] + CodeS(s.rest, at2, b.brk, b.cont)
  {
    hide PoolS, TmpsS;
    var l1, l2 := Breaks(s.first, at.pc), Breaks(s.rest, at.pc + SizeS(s.first) + 1);
    var m1, m2 := Continues(s.first, at.pc), Continues(s.rest, at.pc + SizeS(s.first) + 1);
    assert Breaks(s, at.pc) == l1 + l2 && Continues(s, at.pc) == m1 + m2;
    assert forall a :: a in l1 || a in l2 ==> a in l1 + l2;
    assert forall a :: a in m1 || a in m2 ==> a in m1 + m2;
  }

  lemma ClosedBlock(s: Stmt, at: Pos, b: Bounds, canBreak: bool, canContinue: bool)
    requires s.Block? && JumpsOk(s, canBreak, canContinue)
    requires Covers(b, at.pc, SizeS(s), Breaks(s, at.pc), Continues(s, at.pc))
    ensures Closed(CodeS(s, at, b.brk, b.cont), at.pc, b)
    decreases s, 0
  {
    hide Closed, CodeS, Covers, Breaks, Continues, SizeS, PoolS, TmpsS;
    BlockCovers(s, at, b);
    ClosedS(s.s, Past(at, 1), b, canBreak, canContinue);
    ClosedWrapped(Ins0(BSCOPE), CodeS(s.s, Past(at, 1), b.brk, b.cont), Ins0(ESCOPE), at.pc, b);
  }

  lemma BlockCovers(s: Stmt, at: Pos, b: Bounds)
    requires s.Block? && Covers(b, at.pc, SizeS(s), Breaks(s, at.pc), Continues(s, at.pc))
    ensures Covers(b, at.pc + 1, SizeS(s.s), Breaks(s.s, at.pc + 1), Continues(s.s, at.pc + 1))
    ensures CodeS(s, at, b.brk, b.cont) == [Ins0(BSCOPE)] + CodeS(s.s, Past(at, 1), b.brk, b.cont) + [Ins0(ESCOPE)]
  {
  }

  /** Statements without statements in them. */
  lemma ClosedSimple(s: Stmt, at: Pos, b: Bounds)
    requires s.Skip? || s.Do? || s.Assign? || s.AssignUnless? || s.Break? || s.Continue? || s.Return? || s.ReturnVal?
             || s.Throw?
    requires Covers(b, at.pc, SizeS(s), Breaks(s, at.pc), Continues(s, at.pc))
    ensures Closed(CodeS(s, at, b.brk, b.cont), at.pc, b)
  {
    hide Closed, CodeE, PoolE, TmpsE, OpE;
    match s
    case Do(e) => ClosedE(e, at, b);
    case Assign(x, e) => ClosedThen(e, Ins2(ASSIGN, VarOp(x), OpE(e, at)), at, b);
    case AssignUnless(x, e) =>
      ClosedE(e, Past(at, 1), b);
      ClosedWrapped(Ins2(JMPNZ, VarOp(x), Addr(at.pc + 2)), CodeE(e, Past(at, 1)), Ins2(ASSIGN, VarOp(x), OpE(e, at)),
                    at.pc, b);
    case Break => ClosedOne(Ins1(JMP, Addr(b.brk)), at.pc, b);
    case Continue => ClosedOne(Ins1(JMP, Addr(b.cont)), at.pc, b);
    case Return => ClosedOne(Ins0(RET), at.pc, b);
    case ReturnVal(e) => ClosedThen(e, Ins1(RET, OpE(e, at)), at, b);
    case Throw(e) => ClosedThen(e, Ins1(THROW, OpE(e, at)), at, b);
    case _ => ClosedNone(at.pc, b);
  }

  lemma ClosedWrapped(i: IR, code: seq<IR>, j: IR, pc: nat, b: Bounds)
    requires Within(i, pc, b) && Closed(code, pc + 1, b) && Target(j).None?
    ensures Closed([i] + code + [j], pc, b)
  {
    ClosedOne(i, pc, b);
    ClosedOne(j, pc + 1 + |code|, b);
    ClosedJoin([i], code, pc, b);
    ClosedJoin([i] + code, [j], pc, b);
  }

  lemma ClosedSwitch(s: Stmt, at: Pos, b: Bounds)
    requires s.Switch? && JumpsOk(s, true, true) && b.lo <= at.pc && at.pc + SizeS(s) <= b.hi
    ensures Closed(CodeS(s, at, b.brk, b.cont), at.pc, b)
    decreases s, 0
  {
    hide Closed, CodeE, CodeK, DefaultAddr;
    var at1, w := AfterE(s.e, at), SwitchInfo(s, at);
    DefaultInside(s.cases, at1.pc, w.lone);
    ClosedE(s.e, at, b);
    ClosedK(s.cases, at1, w, b);
    ClosedJoin(CodeE(s.e, at), CodeK(s.cases, at1, w, b.cont), at.pc, b);
  }

  lemma {:induction false} DefaultInside(cs: Cases, pc: nat, lone: bool)
    ensures DefaultAddr(cs, pc, lone).Some? ==> pc <= DefaultAddr(cs, pc, lone).value <= pc + SizeK(cs, lone)
  {
    if cs.Case? {
      DefaultInside(cs.rest, pc + SizeE(cs.lbl) + 2 + SizeS(cs.body) + 1, lone);
    }
  }

  lemma ClosedThen(e: Expr, i: IR, at: Pos, b: Bounds)
    requires b.lo <= at.pc && at.pc + SizeE(e) < b.hi && Within(i, at.pc + SizeE(e), b)
    ensures Closed(CodeE(e, at) + [i], at.pc, b)
  {
    hide Closed, CodeE;
    ClosedE(e, at, b);
    ClosedOne(i, at.pc + SizeE(e), b);
    ClosedJoin(CodeE(e, at), [i], at.pc, b);
  }

  lemma {:induction false} ClosedB(bs: Branches, at: Pos, exit: Operand, b: Bounds, canBreak: bool, canContinue: bool)
    requires JumpsOkB(bs, canBreak, canContinue) && b.lo <= exit.addr <= b.hi
    requires Covers(b, at.pc, SizeB(bs), BreaksB(bs, at.pc), ContinuesB(bs, at.pc))
    ensures Closed(CodeB(bs, at, exit, b.brk, b.cont), at.pc, b)
    decreases bs, 1
  {
    if bs.Else? {
      ClosedS(bs.s, at, b, canBreak, canContinue);
    } else {
      ClosedBranch(bs, at, exit, b, canBreak, canContinue);
    }
  }

  lemma ClosedBranch(bs: Branches, at: Pos, exit: Operand, b: Bounds, canBreak: bool, canContinue: bool)
    requires bs.Branch? && JumpsOkB(bs, canBreak, canContinue) && b.lo <= exit.addr <= b.hi
    requires Covers(b, at.pc, SizeB(bs), BreaksB(bs, at.pc), ContinuesB(bs, at.pc))
    ensures Closed(CodeB(bs, at, exit, b.brk, b.cont), at.pc, b)
    decreases bs, 0
  {
    hide Closed, CodeB, CodeS, CodeE, BreaksB, ContinuesB, Breaks, Continues, RestAt, SizeB, SizeS, PoolE, PoolS, TmpsE,
      TmpsS, ExitSites;
    var at1, at2 := Past(AfterE(bs.cond, at), 1), RestAt(bs, at);
    BranchParts(bs, at, exit, b.brk, b.cont);
    ClosedThen(bs.cond, Ins2(JMPZ, OpE(bs.cond, at), Addr(at2.pc)), at, b);
    ClosedS(bs.block, at1, b, canBreak, canContinue);
    ClosedOne(Ins1(JMP, exit), at2.pc - 1, b);
    ClosedB(bs.rest, at2, exit, b, canBreak, canContinue);
    ClosedFour(TestPart(bs, at), CodeS(bs.block, at1, b.brk, b.cont), [Ins1(JMP, exit)],
               CodeB(bs.rest, at2, exit, b.brk, b.cont), at.pc, b);
  }

  lemma ClosedFour(c0: seq<IR>, c1: seq<IR>, c2: seq<IR>, c3: seq<IR>, pc: nat, b: Bounds)
    requires Closed(c0, pc, b) && Closed(c1, pc + |c0|, b) && Closed(c2, pc + |c0| + |c1|, b)
    requires Closed(c3, pc + |c0| + |c1| + |c2|, b)
    ensures Closed(c0 + c1 + c2 + c3, pc, b)
  {
    hide Closed;
    ClosedJoin(c0, c1, pc, b);
    ClosedJoin(c0 + c1, c2, pc, b);
    ClosedJoin(c0 + c1 + c2, c3, pc, b);
  }

  lemma ClosedLoop(s: Stmt, at: Pos, b: Bounds)
    requires s.Loop? && JumpsOk(s, true, true) && b.lo <= at.pc && at.pc + SizeS(s) <= b.hi
    ensures Closed(CodeS(s, at, b.brk, b.cont), at.pc, b)
    decreases s, 0
  {
    hide Closed, CodeS, CodeE, Breaks, Continues;
    var at1 := AfterC(s.cond, at);
    var at2, end, cont := AfterS(s.body, at1), at.pc + SizeS(s), ContinueAddr(s, at);
    var b1 := Bounds(b.lo, b.hi, Breaks(s.body, at1.pc), end, Continues(s.body, at1.pc), cont);
    ClosedS(s.body, at1, b1, true, true);
    ClosedInner(CodeS(s.body, at1, end, cont), at1.pc, b1, b);
    ClosedQuiet(s.update, at2, b);
    ClosedC(s.cond, at, end, b);
    ClosedOne(Ins1(JMP, Addr(at.pc)), end - 1, b);
    var c, u := CodeC(s.cond, at, end), CodeS(s.update, at2, 0, 0);
    ClosedJoin(c, CodeS(s.body, at1, end, cont), at.pc, b);
    ClosedJoin(c + CodeS(s.body, at1, end, cont), u, at.pc, b);
    ClosedJoin(c + CodeS(s.body, at1, end, cont) + u, [Ins1(JMP, Addr(at.pc))], at.pc, b);
    ClosedSentinel(LoopCode(s, at), at.pc, end, b);
    LoopUnfolded(s, at, b.brk, b.cont);
  }

  lemma LoopUnfolded(s: Stmt, at: Pos, brk: nat, cont: nat)
    requires s.Loop?
    ensures CodeS(s, at, brk, cont) == Sentinel(LoopCode(s, at), at.pc + SizeS(s))
  {
    hide LoopCode, Sentinel, CodeE, CodeB, CodeK, CodeTry, CodeFun, CodeCatches, SizeS, PoolS, TmpsS, PoolE, TmpsE;
  }

  lemma ClosedC(c: Cond, at: Pos, end: nat, b: Bounds)
    requires b.lo <= at.pc && at.pc + SizeC(c) <= b.hi && b.lo <= end <= b.hi
    ensures Closed(CodeC(c, at, end), at.pc, b)
  {
    if c.When? {
      ClosedThen(c.e, Ins2(JMPZ, OpE(c.e, at), Addr(end)), at, b);
    }
  }

  lemma ClosedSentinel(code: seq<IR>, pc: nat, a: nat, b: Bounds)
    requires Closed(code, pc, b) && b.lo <= a <= b.hi
    ensures Closed(Sentinel(code, a), pc, b)
  {
    if code != [] {
      assert Within(code[0], pc + 0, b);
    }
    forall k | 0 < k < |code| ensures Within(Sentinel(code, a)[k], pc + k, b) {
      assert Within(code[k], pc + k, b);
    }
  }

  /** A statement without loose jumps, whatever its targets are said to be. */
  lemma ClosedQuiet(s: Stmt, at: Pos, b: Bounds)
    requires JumpsOk(s, false, false) && b.lo <= at.pc && at.pc + SizeS(s) <= b.hi
    ensures Closed(CodeS(s, at, 0, 0), at.pc, b)
    decreases s, 2
  {
    hide Closed, CodeS;
    NoneBreak(s, at.pc, false);
    NoneContinue(s, at.pc, false);
    var b0 := Bounds(b.lo, b.hi, [], 0, [], 0);
    ClosedS(s, at, b0, false, false);
    ClosedInner(CodeS(s, at, 0, 0), at.pc, b0, b);
  }

  lemma ClosedTry(s: Stmt, at: Pos, b: Bounds, canBreak: bool, canContinue: bool)
    requires s.Try? && JumpsOk(s, canBreak, canContinue)
    requires Covers(b, at.pc, SizeS(s), Breaks(s, at.pc), Continues(s, at.pc))
    ensures Closed(CodeTry(s, at, b.brk, b.cont), at.pc, b)
    decreases s, 0
  {
    hide Closed, CodeS, CodeTry, Covers, Breaks, Continues, HandlerAt, FinallyAt, SizeS;
    var at1, at2, at3 := Past(at, 1), Past(HandlerAt(s, at), 1), FinallyAt(s, at);
    TryCovers(s, at, b);
    TryParts(s, at, b.brk, b.cont);
    ClosedS(s.body, at1, b, canBreak, canContinue);
    ClosedS(s.handler, at2, b, canBreak, canContinue);
    ClosedS(s.finalizer, at3, b, canBreak, canContinue);
    var enter, jump, catcher, leave :=
      Ins1(TRY, Addr(HandlerAt(s, at).pc)), Ins1(JMP, Addr(at3.pc)), Ins1(CATCH, VarOp(s.x)), Ins0(ETRY);
    ClosedOne(enter, at.pc, b);
    ClosedOne(jump, at2.pc - 2, b);
    ClosedOne(catcher, at2.pc - 1, b);
    ClosedOne(leave, at3.pc + SizeS(s.finalizer), b);
    var body, handler, final := CodeS(s.body, at1, b.brk, b.cont), CodeS(s.handler, at2, b.brk, b.cont),
        CodeS(s.finalizer, at3, b.brk, b.cont);
    ClosedFour([enter], body, [jump], [catcher], at.pc, b);
    ClosedFour([enter] + body + [jump] + [catcher], handler, final, [leave], at.pc, b);
  }

  lemma TryCovers(s: Stmt, at: Pos, b: Bounds)
    requires s.Try? && Covers(b, at.pc, SizeS(s), Breaks(s, at.pc), Continues(s, at.pc))
    ensures var at1, at2, at3 := Past(at, 1), Past(HandlerAt(s, at), 1), FinallyAt(s, at);
            && Covers(b, at1.pc, SizeS(s.body), Breaks(s.body, at1.pc), Continues(s.body, at1.pc))
            && Covers(b, at2.pc, SizeS(s.handler), Breaks(s.handler, at2.pc), Continues(s.handler, at2.pc))
            && Covers(b, at3.pc, SizeS(s.finalizer), Breaks(s.finalizer, at3.pc), Continues(s.finalizer, at3.pc))
            && b.lo <= at.pc && at3.pc + SizeS(s.finalizer) < b.hi
  {
  }

  lemma ClosedFun(s: Stmt, at: Pos, b: Bounds)
    requires s.FunDecl? && JumpsOk(s, false, false) && b.lo <= at.pc && at.pc + SizeS(s) <= b.hi
    ensures Closed(CodeFun(s, at), at.pc, b)
    decreases s, 0
  {
    hide Closed, CodeS;
    var at1 := FunEntry(at);
    var at2 := AfterS(s.prologue, at1);
    ClosedQuiet(s.prologue, at1, b);
    ClosedQuiet(s.body, at2, b);
    var skip, one, two := Ins1(JMP, Addr(at.pc + SizeS(s))), CodeS(s.prologue, at1, 0, 0), CodeS(s.body, at2, 0, 0);
    ClosedOne(skip, at.pc, b);
    ClosedOne(Ins0(LEAVE), at.pc + SizeS(s) - 1, b);
    ClosedJoin([skip], one, at.pc, b);
    ClosedJoin([skip] + one, two, at.pc, b);
    ClosedJoin([skip] + one + two, [Ins0(LEAVE)], at.pc, b);
  }

  lemma {:induction false} ClosedK(cs: Cases, at: Pos, w: SwitchEnv, b: Bounds)
    requires JumpsOkK(cs) && b.lo <= at.pc && at.pc + SizeK(cs, w.lone) <= b.hi && b.lo <= w.end <= b.hi
    requires (w.dflt.Some? ==> b.lo <= w.dflt.value <= b.hi) && (w.lone ==> Lone(cs))
    ensures Closed(CodeK(cs, at, w, b.cont), at.pc, b)
    decreases cs, 0
  {
    hide Closed, CodeS, CodeE, LabelTest, NextBody, BodyAt, LaterAt, PoolE, PoolS, TmpsE, TmpsS, Front;
    if cs.NoCase? {
      ClosedNone(at.pc, b);
    } else if w.lone {
      ClosedBody(cs.body, at, w.end, b);
    } else {
      var at1, at2 := BodyAt(cs, at, false), LaterAt(cs, at);
      var next := Ins1(JMP, Addr(NextBody(cs.rest, at2.pc)));
      CodeParts(cs, at, w, b.cont);
      NextInside(cs.rest, at2.pc);
      ClosedFront(cs, at, w, b);
      ClosedBody(cs.body, at1, w.end, b);
      ClosedOne(next, at2.pc - 1, b);
      ClosedK(cs.rest, at2, w, b);
      var body := CodeS(cs.body, at1, w.end, b.cont);
      ClosedFour(Front(cs, at, w), body, [next], CodeK(cs.rest, at2, w, b.cont), at.pc, b);
    }
  }

  lemma NextInside(cs: Cases, pc: nat)
    ensures pc <= NextBody(cs, pc) <= pc + SizeK(cs, false)
  {
  }

  lemma ClosedFront(cs: Cases, at: Pos, w: SwitchEnv, b: Bounds)
    requires !cs.NoCase? && b.lo <= at.pc && LaterAt(cs, at).pc <= b.hi
    requires w.dflt.Some? ==> b.lo <= w.dflt.value <= b.hi
    ensures Closed(Front(cs, at, w), at.pc, b)
  {
    hide CodeE;
    if cs.Case? {
      ClosedE(cs.lbl, at, b);
      ClosedJoin(CodeE(cs.lbl, at), LabelTest(cs, at, w), at.pc, b);
    }
  }

  /** A case's body: its breaks go to the end of the switch. */
  lemma ClosedBody(s: Stmt, at: Pos, end: nat, b: Bounds)
    requires JumpsOk(s, true, false) && b.lo <= at.pc && at.pc + SizeS(s) <= b.hi && b.lo <= end <= b.hi
    ensures Closed(CodeS(s, at, end, b.cont), at.pc, b)
    decreases s, 2
  {
    hide Closed, CodeS;
    NoneContinue(s, at.pc, true);
    var b0 := Bounds(b.lo, b.hi, Breaks(s, at.pc), end, [], b.cont);
    ClosedS(s, at, b0, true, false);
    ClosedInner(CodeS(s, at, end, b.cont), at.pc, b0, b);
  }

  // ----- results -----

  /** Every jump a fragment emits stays inside the fragment or goes to its end, or it is one of its
      recorded breaks and continues. */
  lemma JumpsClosed(s: Stmt, at: Pos, brk: nat, cont: nat, canBreak: bool, canContinue: bool)
    requires JumpsOk(s, canBreak, canContinue)
    ensures Closed(CodeS(s, at, brk, cont), at.pc,
                   Bounds(at.pc, at.pc + SizeS(s), Breaks(s, at.pc), brk, Continues(s, at.pc), cont))
  {
    hide Closed;
    ClosedS(s, at, Bounds(at.pc, at.pc + SizeS(s), Breaks(s, at.pc), brk, Continues(s, at.pc), cont), canBreak,
            canContinue);
  }

  /** A whole program never jumps out of itself. */
  lemma ProgramJumpsClosed(s: Stmt, at: Pos)
    requires JumpsOk(s, false, false)
    ensures Closed(CodeS(s, at, 0, 0), at.pc, Bounds(at.pc, at.pc + SizeS(s), [], 0, [], 0))
  {
    hide Closed;
    ClosedQuiet(s, at, Bounds(at.pc, at.pc + SizeS(s), [], 0, [], 0));
  }
}
