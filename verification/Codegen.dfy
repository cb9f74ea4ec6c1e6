/** The code generator: visitors that push instructions and patch earlier ones. */
module Codegen {
  import opened Values
  import opened Ast
  import opened Machine
  import opened Semantics
  import opened Layout
  import opened Backpatch
  import opened Emission
  import opened Progress

  /** The instruction deque, the constant pool and the current environment of temporaries. */
  class IRBuilder {
    var ir: seq<IR>
    var consts: seq<Val>
    var temps: nat

    constructor ()
      ensures Snap() == Gen([], [Null, Bool(true), Bool(false)], 0)
    {
      ir, consts, temps := [], [Null, Bool(true), Bool(false)], 0;
    }

    function Snap(): Gen reads this { Gen(ir, consts, temps) }

    method Push(i: IR)
      modifies this
      ensures Snap() == old(Snap()).(ir := old(ir) + [i])
    {
      ir := ir + [i];
    }

    method GetTemp() returns (t: nat)
      modifies this
      ensures t == old(temps) && Snap() == old(Snap()).(temps := old(temps) + 1)
    {
      t := temps;
      temps := temps + 1;
    }

    /** Every integer literal gets a constant of its own. */
    method GetInt(n: int) returns (k: nat)
      modifies this
      ensures k == |old(consts)| && Snap() == old(Snap()).(consts := old(consts) + [Int(n)])
    {
      k := |consts|;
      consts := consts + [Int(n)];
    }

    /** `getLast().result = ...` */
    method SetLastResult(o: Operand)
      requires ir != []
      modifies this
      ensures Snap() == old(Snap()).(ir := Init(old(ir)) + [Last(old(ir)).(result := o)])
    {
      ir := ir[|ir| - 1 := Last(ir).(result := o)];
    }

    /** `getAt(i).op1 = o` */
    method SetOp1(i: nat, o: Operand)
      requires i < |ir|
      modifies this
      ensures Snap() == old(Snap()).(ir := old(ir)[i := old(ir)[i].(op1 := o)])
    {
      ir := ir[i := ir[i].(op1 := o)];
    }

    /** `getAt(i).op2 = Operand(JMP_ADDR, a)` */
    method SetOp2(i: nat, a: nat)
      requires i < |ir|
      modifies this
      ensures Snap() == old(Snap()).(ir := old(ir)[i := old(ir)[i].(op2 := Addr(a))])
    {
      ir := ir[i := ir[i].(op2 := Addr(a))];
    }

    /** `getAt(l[i]).op1.jmp_addr = a` for every recorded address. */
    method PatchAll(l: seq<nat>, a: nat)
      requires Inside(l, 0, |ir|)
      modifies this
      ensures Snap() == old(Snap()).(ir := PatchAt(old(ir), 0, l, a))
    {
      for i := 0 to |l|
        invariant consts == old(consts) && temps == old(temps) && |ir| == |old(ir)|
        invariant ir == PatchAt(old(ir), 0, l[..i], a)
      {
        assert l[i] in l;
        assert l[..i + 1] == l[..i] + [l[i]];
        ir := ir[l[i] := SetAddr(ir[l[i]], a)];
      }
      assert l[..|l|] == l;
    }

    /** `getAt(l[i]).op1 = Operand(JMP_ADDR, a)` for every recorded address. */
    method AimAll(l: seq<nat>, a: nat)
      requires Inside(l, 0, |ir|)
      modifies this
      ensures Snap() == old(Snap()).(ir := AimAt(old(ir), 0, l, a))
    {
      for i := 0 to |l|
        invariant consts == old(consts) && temps == old(temps) && |ir| == |old(ir)|
        invariant ir == AimAt(old(ir), 0, l[..i], a)
      {
        assert l[i] in l;
        assert l[..i + 1] == l[..i] + [l[i]];
        ir := ir[l[i] := ir[l[i]].(op1 := Addr(a))];
      }
      assert l[..|l|] == l;
    }

    /** A function body gets a fresh environment of temporaries; the enclosing one is restored after it. */
    method NewTempEnv()
      modifies this
      ensures Snap() == old(Snap()).(temps := 0)
    {
      temps := 0;
    }

    method SetTempEnv(saved: nat)
      modifies this
      ensures Snap() == old(Snap()).(temps := saved)
    {
      temps := saved;
    }
  }

  class Generator {
    const builder: IRBuilder
    var jmps: seq<seq<nat>>
    var brks: seq<seq<nat>>
    var conts: seq<seq<nat>>
    var entries: map<nat, Entry>

    constructor ()
      ensures fresh(builder) && builder.Snap() == Gen([], [Null, Bool(true), Bool(false)], 0)
      ensures jmps == brks == conts == [] && entries == map[]
    {
      builder := new IRBuilder();
      jmps, brks, conts, entries := [], [], [], map[];
    }

    ghost function Now(): Work
      reads this, builder
    {
      Work(builder.Snap(), jmps, brks, conts, entries)
    }

    // ----- expressions -----

    /** Emits the code of an expression and returns the operand that will hold its result. */
    method VisitExpr(e: Expr) returns (op: Operand)
      modifies builder
      ensures builder.Snap() == GenE(e, old(builder.Snap()))
      ensures op == OpE(e, Here(old(builder.Snap())))
      decreases e
    {
      hide CodeE;
      match e
      case Literal(l) =>
        op := VisitLiteral(l);
        LiteralCode(e, old(builder.Snap()));
      case Ident(x) =>
        op := VarOp(x);
        IdentCode(e, old(builder.Snap()));
      case Binary(_, _, _) => op := VisitBinary(e);
      case Comparison(_, _, _) => op := VisitBinary(e);
      case Augmented(_, _, _) => op := VisitAugmented(e);
      case Logic(_, _, _) => op := VisitShort(e);
      case Boolean(_, _, _) => op := VisitShort(e);
      case Negate(_) => op := VisitUnary(e);
      case Complement(_) => op := VisitUnary(e);
      case IncDec(step, x) =>
        op := PushResult(Ins1(INCDEC(step), VarOp(x)));
        IncDecCode(e, old(builder.Snap()));
      case AssignTo(_, _) => op := VisitAssignTo(e);
      case Call(_, _) => op := VisitCall(e);
    }

    method VisitBinary(e: Expr) returns (op: Operand)
      requires e.Binary? || e.Comparison?
      modifies builder
      ensures builder.Snap() == GenE(e, old(builder.Snap()))
      ensures op == OpE(e, Here(old(builder.Snap())))
      decreases e, 0
    {
      hide CodeE;
      var a := VisitExpr(e.l);
      var b := VisitExpr(e.r);
      op := PushResult(IR(if e.Binary? then BINARY(e.op) else COMPARE(e.cmp), a, b, NO_OPERAND));
      BinaryCode(e, old(builder.Snap()));
    }

    /** The result of an augmented assignment is the variable itself. */
    method VisitAugmented(e: Expr) returns (op: Operand)
      requires e.Augmented?
      modifies builder
      ensures builder.Snap() == GenE(e, old(builder.Snap()))
      ensures op == OpE(e, Here(old(builder.Snap())))
      decreases e, 0
    {
      hide CodeE;
      var b := VisitExpr(e.r);
      op := VarOp(e.x);
      builder.Push(IR(BINARY(e.op), VarOp(e.x), b, op));
      AugmentedCode(e, old(builder.Snap()));
    }

    method VisitUnary(e: Expr) returns (op: Operand)
      requires e.Negate? || e.Complement?
      modifies builder
      ensures builder.Snap() == GenE(e, old(builder.Snap()))
      ensures op == OpE(e, Here(old(builder.Snap())))
      decreases e, 0
    {
      hide CodeE;
      var o := VisitExpr(e.e);
      op := PushResult(Ins1(if e.Negate? then NOT else BWNOT, o));
      UnaryCode(e, old(builder.Snap()));
    }

    method VisitAssignTo(e: Expr) returns (op: Operand)
      requires e.AssignTo?
      modifies builder
      ensures builder.Snap() == GenE(e, old(builder.Snap()))
      ensures op == OpE(e, Here(old(builder.Snap())))
      decreases e, 0
    {
      hide CodeE;
      var o := VisitExpr(e.e);
      op := PushResult(Ins2(ASSIGN, VarOp(e.x), o));
      AssignToCode(e, old(builder.Snap()));
    }

    method VisitCall(e: Expr) returns (op: Operand)
      requires e.Call?
      modifies builder
      ensures builder.Snap() == GenE(e, old(builder.Snap()))
      ensures op == OpE(e, Here(old(builder.Snap())))
      decreases e, 0
    {
      hide CodeE;
      var o := VisitExpr(e.callee);
      SendArgs(e.args);
      op := PushResult(Ins1(FCALL, o));
      CallCode(e, old(builder.Snap()));
    }

    method VisitLiteral(l: Lit) returns (op: Operand)
      modifies builder
      ensures op == OpE(Literal(l), Here(old(builder.Snap())))
      ensures builder.Snap() == old(builder.Snap()).(consts := old(builder.consts) + PoolE(Literal(l)))
    {
      match l
      case NullLit => op := ConstOp(0);
      case TrueLit => op := ConstOp(1);
      case FalseLit => op := ConstOp(2);
      case IntLit(n) =>
        var k := builder.GetInt(n);
        op := ConstOp(k);
    }

    /** Pushes an instruction and gives it a fresh temporary as its result. */
    method PushResult(i: IR) returns (op: Operand)
      requires i.result == NO_OPERAND
      modifies builder
      ensures op == TmpOp(old(builder.temps))
      ensures builder.Snap() == Gen(old(builder.ir) + [i.(result := op)], old(builder.consts), old(builder.temps) + 1)
    {
      builder.Push(i);
      var t := builder.GetTemp();
      op := TmpOp(t);
      builder.SetLastResult(op);
    }

    /** `&&`, `||`, `and` and `or`: both tests are patched to jump to the end. */
    method VisitShort(e: Expr) returns (op: Operand)
      requires e.Logic? || e.Boolean?
      modifies builder
      ensures builder.Snap() == GenE(e, old(builder.Snap()))
      ensures op == OpE(e, Here(old(builder.Snap())))
      decreases e, 0
    {
      hide CodeE, PoolE, TmpsE, SizeE, OpE;
      var a := VisitExpr(e.l);
      var jmpIr := |builder.ir|;
      var t := builder.GetTemp();
      op := TmpOp(t);
      builder.Push(IR(TestOp(e), a, NO_OPERAND, op));
      var b := VisitExpr(e.r);
      builder.Push(IR(TestOp(e), b, NO_OPERAND, op));
      var end := |builder.ir|;
      builder.SetOp2(jmpIr, end);
      builder.SetOp2(end - 1, end);
      ShortCode(e, a, b, old(builder.Snap()));
    }

    method VisitArgs(es: Exprs) returns (ops: seq<Operand>)
      modifies builder
      ensures builder.Snap() == GenA(es, old(builder.Snap()))
      ensures ops == OpsA(es, Here(old(builder.Snap())))
      decreases es, 0
    {
      hide CodeE;
      match es
      case NoExpr =>
        ops := [];
        assert builder.ir + [] == builder.ir && builder.consts + [] == builder.consts;
      case Exprs(e, rest) =>
        var o := VisitExpr(e);
        var os := VisitArgs(rest);
        ops := [o] + os;
        ArgsCode(es, old(builder.Snap()));
    }

    /** First all arguments are evaluated, then all of them are sent. */
    method SendArgs(es: Exprs)
      modifies builder
      ensures var g := GenA(es, old(builder.Snap()));
              builder.Snap() == g.(ir := g.ir + Sends(es, Here(old(builder.Snap()))))
      decreases es, 1
    {
      hide CodeA, CodeE;
      var ops := VisitArgs(es);
      ghost var g := builder.Snap();
      for i := 0 to |ops|
        invariant builder.Snap() == g.(ir := g.ir + SendsOf(ops[..i]))
      {
        builder.Push(Ins1(SENDVAL, ops[i]));
        assert ops[..i + 1] == ops[..i] + [ops[i]];
        Append2(g.ir, SendsOf(ops[..i]), [Ins1(SENDVAL, ops[i])]);
        assert SendsOf(ops[..i + 1]) == SendsOf(ops[..i]) + [Ins1(SENDVAL, ops[i])];
      }
      assert ops[..|ops|] == ops;
      SendsCode(es, Here(old(builder.Snap())));
    }

    // ----- statements -----

    /** Emits the code of a statement.  `cont` is the address that `continue` jumps to for now: the first
        one in the innermost list of pending breaks. */
    method VisitStmt(s: Stmt, ghost canBreak: bool, ghost canContinue: bool, ghost cont: nat)
      requires JumpsOk(s, canBreak, canContinue) && Targets(Now(), canBreak, canContinue, cont)
      modifies this, builder
      ensures Now() == Done(s, old(Now()), cont)
      decreases s
    {
      hide Done, GenS, CodeS, CodeE, AddTop;
      ghost var w := Now();
      match s
      case Skip => SkipDone(w, cont);
      case Seq(s1, s2) =>
        VisitStmt(s1, canBreak, canContinue, cont);
        TargetsKept(s1, w, canBreak, canContinue, cont);
        VisitStmt(s2, canBreak, canContinue, cont);
        SeqDone(s, w, cont);
      case Block(b) =>
        builder.Push(Ins0(BSCOPE));
        assert Now() == Emitted(w, Ins0(BSCOPE));
        VisitStmt(b, canBreak, canContinue, cont);
        builder.Push(Ins0(ESCOPE));
        BlockDone(s, w, cont);
      case Do(e) =>
        var _ := VisitExpr(e);
        SimpleDone(s, w, cont);
      case Assign(x, e) =>
        var o := VisitExpr(e);
        builder.Push(Ins2(ASSIGN, VarOp(x), o));
        SimpleDone(s, w, cont);
      case AssignUnless(x, e) =>
        builder.Push(Ins2(JMPNZ, VarOp(x), Addr(|builder.ir| + 2)));
        var o := VisitExpr(e);
        builder.Push(Ins2(ASSIGN, VarOp(x), o));
        UnlessDone(s, w, cont);
      case If(_) => VisitIf(s, canBreak, canContinue, cont);
      case Loop(isFor, _, _, _) =>
        if isFor {
          VisitFor(s, cont);
        } else {
          VisitWhile(s, cont);
        }
      case Switch(_, _) => VisitSwitch(s, cont);
      case Break =>
        brks := AddTop(brks, [|builder.ir|]);
        builder.Push(Ins1(JMP, Addr(0)));
        JumpDone(s, w, cont);
      case Continue =>
        conts := AddTop(conts, [|builder.ir|]);
        builder.Push(Ins1(JMP, Addr(Last(brks)[0])));
        JumpDone(s, w, cont);
      case Return =>
        builder.Push(Ins0(RET));
        JumpDone(s, w, cont);
      case ReturnVal(e) =>
        var o := VisitExpr(e);
        builder.Push(Ins1(RET, o));
        SimpleDone(s, w, cont);
      case Throw(e) =>
        var o := VisitExpr(e);
        builder.Push(Ins1(THROW, o));
        SimpleDone(s, w, cont);
      case Try(_, _, _, _) => VisitTry(s, canBreak, canContinue, cont);
      case Catches(_, _, _) => VisitCatches(s, canBreak, canContinue, cont);
      case FunDecl(_, _, _) => VisitFunDecl(s, cont);
    }

    /** Every branch ends with a jump out of the statement; their targets are set at the end. */
    method VisitIf(s: Stmt, ghost canBreak: bool, ghost canContinue: bool, ghost cont: nat)
      requires s.If? && JumpsOkB(s.branches, canBreak, canContinue) && Targets(Now(), canBreak, canContinue, cont)
      modifies this, builder
      ensures Now() == Done(s, old(Now()), cont)
      decreases s, 0
    {
      hide Done, DoneB, BranchWork, AimAt, Inside, AddTop;
      ghost var w := Now();
      jmps := jmps + [[]];
      ghost var w1 := Now();
      var cur := s.branches;
      while cur.Branch?
        invariant cur < s
        invariant JumpsOkB(cur, canBreak, canContinue) && Targets(Now(), canBreak, canContinue, cont)
        invariant DoneB(cur, Now(), cont) == DoneB(s.branches, w1, cont)
        decreases cur
      {
        BranchDone(cur, Now(), cont);
        BranchTargets(cur, Now(), canBreak, canContinue, cont);
        VisitBranch(cur, canBreak, canContinue, cont);
        cur := cur.rest;
      }
      ElseDone(cur.s, Now(), cont);
      VisitStmt(cur.s, canBreak, canContinue, cont);
      IfDone(s, w, cont);
      builder.AimAll(Last(jmps), |builder.ir|);
      jmps := Init(jmps);
    }

    method VisitBranch(bs: Branches, ghost canBreak: bool, ghost canContinue: bool, ghost cont: nat)
      requires bs.Branch? && JumpsOkB(bs, canBreak, canContinue) && Targets(Now(), canBreak, canContinue, cont)
      modifies this, builder
      ensures Now() == BranchWork(bs, old(Now()), cont)
      decreases bs, 0
    {
      hide AddTop, CodeE, CodeS, Breaks, Continues, FunTable;
      ghost var w := Now();
      var o := VisitExpr(bs.cond);
      var jmpz := |builder.ir|;
      builder.Push(Ins1(JMPZ, o));
      assert Now() == Tested(bs.cond, w);
      VisitStmt(bs.block, canBreak, canContinue, cont);
      jmps := AddTop(jmps, [|builder.ir|]);
      builder.Push(Ins0(JMP));
      builder.SetOp2(jmpz, |builder.ir|);
    }

    /** `break` jumps are patched at the end, the loop's own first instruction with them. */
    method VisitWhile(s: Stmt, ghost cont: nat)
      requires s.Loop? && !s.isFor && JumpsOk(s, false, false)
      modifies this, builder
      ensures Now() == Done(s, old(Now()), cont)
      decreases s, 0
    {
      hide Done, PatchAt, Inside, CodeE, SizeE, PoolE, TmpsE, OpE;
      ghost var w := Now();
      var start := |builder.ir|;
      var o := VisitExpr(s.cond.e);
      var jmpz := |builder.ir|;
      builder.Push(Ins1(JMPZ, o));
      conts := conts + [[]];
      brks := brks + [[start]];
      assert Now() == LoopOpen(s, w);
      VisitStmt(s.body, true, true, start);
      WhileDone(s, w, cont);
      builder.PatchAll(Last(brks), |builder.ir| + 1);
      conts := Init(conts);
      brks := Init(brks);
      builder.Push(Ins1(JMP, Addr(start)));
      builder.SetOp2(jmpz, |builder.ir|);
    }

    /** The condition of a for loop is optional.  Returns the address of its test. */
    method VisitCond(c: Cond) returns (jmpz: nat)
      modifies builder
      ensures builder.Snap() == GenC(c, old(builder.Snap()))
      ensures c.When? ==> jmpz == old(|builder.ir|) + SizeE(c.e)
      decreases c
    {
      hide CodeE;
      jmpz := |builder.ir|;
      if c.When? {
        var o := VisitExpr(c.e);
        jmpz := |builder.ir|;
        builder.Push(Ins1(JMPZ, o));
      }
    }

    /** The test, if there is one, goes to the present end when it fails. */
    method SetExitOf(c: Cond, jmpz: nat, ghost pc: nat)
      requires (c.When? ==> jmpz == pc + SizeE(c.e)) && pc + SizeC(c) <= |builder.ir|
      modifies builder
      ensures builder.Snap() == old(builder.Snap()).(ir := SetExit(old(builder.ir), c, pc, |old(builder.ir)|))
    {
      if c.When? {
        builder.SetOp2(jmpz, |builder.ir|);
      }
    }

    /** `continue` jumps are patched before the update is generated, `break` jumps at the end. */
    method VisitFor(s: Stmt, ghost cont: nat)
      requires s.Loop? && s.isFor && JumpsOk(s, false, false)
      modifies this, builder
      ensures Now() == Done(s, old(Now()), cont)
      decreases s, 0
    {
      hide Done, GenS, CodeS, PatchAt, Inside, CodeE, ForBody, Breaks, Continues, FunTable;
      ghost var w := Now();
      var start := |builder.ir|;
      var jmpz := VisitCond(s.cond);
      conts := conts + [[]];
      brks := brks + [[start]];
      assert Now() == LoopOpen(s, w);
      VisitStmt(s.body, true, true, start);
      ForBodyDone(s, w);
      builder.PatchAll(Last(conts), |builder.ir|);
      conts := Init(conts);
      assert Now() == ForBody(s, w);
      VisitStmt(s.update, false, false, 0);
      builder.Push(Ins1(JMP, Addr(start)));
      ForDone(s, w, cont);
      SetExitOf(s.cond, jmpz, start);
      builder.PatchAll(Last(brks), |builder.ir|);
      brks := Init(brks);
    }

    /** The jump after each body goes to the next body, the last failing test to the default. */
    method VisitSwitch(s: Stmt, ghost cont: nat)
      requires s.Switch? && JumpsOk(s, false, false)
      modifies this, builder
      ensures Now() == Done(s, old(Now()), cont)
      decreases s, 0
    {
      hide Done, DoneK, PatchAt, Inside, LastTest, DefaultAddr, CodeE;
      ghost var w := Now();
      var subject := VisitExpr(s.e);
      brks := brks + [[]];
      ghost var env, w1 := SwitchEnv(subject, None, Lone(s.cases), 0), Now();
      var lastJmp: Option<nat>, lastJmpz: Option<nat>, defaultAddr := None, None, 0;
      if Lone(s.cases) {
        LoneDone(s.cases, w1, env);
        VisitStmt(s.cases.body, true, false, 0);
      } else {
        lastJmp, lastJmpz, defaultAddr := VisitCases(s.cases, subject, env);
      }
      if lastJmp.Some? {
        builder.SetOp1(lastJmp.value, Addr(|builder.ir|));
      }
      NoCaseDone(Now(), env);
      assert Now() == DoneK(s.cases, w1, env);
      SwitchDone(s, w, env, cont);
      if defaultAddr != 0 && lastJmpz.Some? {
        builder.SetOp2(lastJmpz.value, defaultAddr);
      }
      builder.PatchAll(Last(brks), |builder.ir|);
      brks := Init(brks);
    }

    /** Returns the address of the jump after the last body, of the last test, and of the default's body. */
    method VisitCases(cases: Cases, subject: Operand, ghost env: SwitchEnv)
        returns (lastJmp: Option<nat>, lastJmpz: Option<nat>, defaultAddr: nat)
      requires JumpsOkK(cases) && Defaults(cases) <= 1 && env == SwitchEnv(subject, None, false, 0) && brks != []
      modifies this, builder
      ensures lastJmp.Some? ==> lastJmp.value < |builder.ir|
      ensures DoneK(NoCase, Filled(Now(), lastJmp, |builder.ir|), env) == DoneK(cases, old(Now()), env)
      ensures lastJmpz == LastTest(cases, old(|builder.ir|))
      ensures DefaultAddr(cases, old(|builder.ir|), false) == if defaultAddr == 0 then None else Some(defaultAddr)
      decreases cases, 2
    {
      hide Done, DoneK, CodeE, JumpsOk, SizeS, SizeE;
      ghost var w := Now();
      lastJmp, lastJmpz, defaultAddr := None, None, 0;
      var cur := cases;
      while !cur.NoCase?
        invariant cur == cases || cur < cases
        invariant JumpsOkK(cur) && Defaults(cur) + (if defaultAddr == 0 then 0 else 1) <= 1
        invariant brks != [] && (lastJmp.Some? ==> lastJmp.value < |builder.ir|)
        invariant DoneK(cur, Filled(Now(), lastJmp, NextBody(cur, |builder.ir|)), env) == DoneK(cases, w, env)
        invariant LaterOf(LastTest(cur, |builder.ir|), lastJmpz) == LastTest(cases, |w.g.ir|)
        invariant FirstDefault(defaultAddr, cur, |builder.ir|) == DefaultAddr(cases, |w.g.ir|, false)
        decreases cur
      {
        if cur.Case? {
          var l, z := VisitCase(cur, subject, lastJmp, env);
          lastJmp, lastJmpz := Some(l), Some(z);
        } else {
          var a, l := VisitDefault(cur, lastJmp, env);
          defaultAddr, lastJmp := a, Some(l);
        }
        cur := cur.rest;
      }
    }

    /** A labelled case.  Returns the addresses of the jump after its body and of its test. */
    method VisitCase(cs: Cases, subject: Operand, lastJmp: Option<nat>, ghost env: SwitchEnv)
        returns (jmp: nat, jmpz: nat)
      requires cs.Case? && JumpsOkK(cs) && env == SwitchEnv(subject, None, false, 0)
      requires brks != [] && (lastJmp.Some? ==> lastJmp.value < |builder.ir|)
      modifies this, builder
      ensures |builder.ir| == old(|builder.ir|) + HeadSize(cs) && jmp < |builder.ir| && brks != []
      ensures jmpz == old(|builder.ir|) + SizeE(cs.lbl) + 1
      ensures DoneK(cs.rest, Filled(Now(), Some(jmp), NextBody(cs.rest, |builder.ir|)), env)
              == DoneK(cs, Filled(old(Now()), lastJmp, NextBody(cs, old(|builder.ir|))), env)
      decreases cs, 0
    {
      hide Done, DoneK, CodeE, CodeS, CodeK, SizeS, JumpsOkB, OpE, PoolE, TmpsE;
      ghost var w := Now();
      var o := VisitExpr(cs.lbl);
      var tmp := PushResult(Ins2(COMPARE(Eq), subject, o));
      jmpz := |builder.ir|;
      builder.Push(Ins1(JMPZ, tmp));
      assert Now() == LabelWork(cs, w, subject);
      LabelDone(cs, w, lastJmp, subject);
      if lastJmp.Some? {
        builder.SetOp1(lastJmp.value, Addr(|builder.ir|));
      }
      ghost var w1 := Filled(w, lastJmp, NextBody(cs, |w.g.ir|));
      assert Now() == LabelWork(cs, w1, subject);
      CaseDone(cs, w1, env);
      VisitStmt(cs.body, true, false, 0);
      jmp := |builder.ir|;
      builder.Push(Ins0(JMP));
      builder.SetOp2(jmpz, |builder.ir|);
    }

    /** A default among other cases.  Returns the address of its body and of the jump after it. */
    method VisitDefault(cs: Cases, lastJmp: Option<nat>, ghost env: SwitchEnv) returns (bodyAddr: nat, jmp: nat)
      requires cs.DefaultCase? && JumpsOkK(cs) && !env.lone && env.dflt.None? && env.end == 0
      requires brks != [] && (lastJmp.Some? ==> lastJmp.value < |builder.ir|)
      modifies this, builder
      ensures |builder.ir| == old(|builder.ir|) + HeadSize(cs) && jmp < |builder.ir| && brks != []
      ensures bodyAddr == old(|builder.ir|) + 1
      ensures DoneK(cs.rest, Filled(Now(), Some(jmp), NextBody(cs.rest, |builder.ir|)), env)
              == DoneK(cs, Filled(old(Now()), lastJmp, NextBody(cs, old(|builder.ir|))), env)
      decreases cs, 0
    {
      hide Done, DoneK, CodeE, CodeS, CodeK;
      ghost var w := Now();
      DefaultDone(cs, w, lastJmp, env);
      var skip := |builder.ir|;
      builder.Push(Ins0(JMP));
      bodyAddr := |builder.ir|;
      if lastJmp.Some? {
        builder.SetOp1(lastJmp.value, Addr(bodyAddr));
      }
      assert Now() == Emitted(Filled(w, lastJmp, bodyAddr), Ins0(JMP));
      VisitStmt(cs.body, true, false, 0);
      jmp := |builder.ir|;
      builder.Push(Ins0(JMP));
      builder.SetOp1(skip, Addr(|builder.ir|));
    }

    method VisitTry(s: Stmt, ghost canBreak: bool, ghost canContinue: bool, ghost cont: nat)
      requires s.Try? && JumpsOk(s, canBreak, canContinue) && Targets(Now(), canBreak, canContinue, cont)
      modifies this, builder
      ensures Now() == Done(s, old(Now()), cont)
      decreases s, 1
    {
      hide Done, Targets, TryWork, HandlerWork, SizeS;
      TryDone(s, Now(), cont);
      TryTargets(s, Now(), canBreak, canContinue, cont);
      VisitGuarded(s, canBreak, canContinue, cont);
      VisitHandler(s, canBreak, canContinue, cont);
      VisitStmt(s.finalizer, canBreak, canContinue, cont);
      builder.Push(Ins0(ETRY));
    }

    /** From OP_TRY, which gets the handler's address, to OP_CATCH. */
    method VisitGuarded(s: Stmt, ghost canBreak: bool, ghost canContinue: bool, ghost cont: nat)
      requires s.Try? && JumpsOk(s.body, canBreak, canContinue)
      requires Targets(Emitted(Now(), Ins0(TRY)), canBreak, canContinue, cont)
      modifies this, builder
      ensures Now() == TryWork(s, old(Now()), cont)
      decreases s, 0
    {
      hide Done, Targets, SizeS;
      var tryAt := |builder.ir|;
      ghost var w := Now();
      builder.Push(Ins0(TRY));
      assert Now() == Emitted(w, Ins0(TRY));
      VisitStmt(s.body, canBreak, canContinue, cont);
      builder.Push(Ins0(JMP));
      builder.SetOp1(tryAt, Addr(|builder.ir|));
      builder.Push(Ins0(CATCH));
    }

    /** The handler; then OP_CATCH gets its variable and the jump around the handler its target. */
    method VisitHandler(s: Stmt, ghost canBreak: bool, ghost canContinue: bool, ghost cont: nat)
      requires s.Try? && JumpsOk(s.handler, canBreak, canContinue) && Targets(Now(), canBreak, canContinue, cont)
      requires |builder.ir| >= 2
      modifies this, builder
      ensures Now() == HandlerWork(s, old(Now()), cont)
      decreases s, 0
    {
      hide Done, Targets, SizeS;
      var catchAt := |builder.ir| - 1;
      VisitStmt(s.handler, canBreak, canContinue, cont);
      builder.SetOp1(catchAt, VarOp(s.x));
      builder.SetOp1(catchAt - 1, Addr(|builder.ir|));
    }

    /** The clauses after the first: OP_CATCH gets its variable once the clause has been visited. */
    method VisitCatches(s: Stmt, ghost canBreak: bool, ghost canContinue: bool, ghost cont: nat)
      requires s.Catches? && JumpsOk(s, canBreak, canContinue) && Targets(Now(), canBreak, canContinue, cont)
      modifies this, builder
      ensures Now() == Done(s, old(Now()), cont)
      decreases s, 0
    {
      hide Done, Targets, SizeS;
      ghost var w := Now();
      CatchesDone(s, w, cont);
      TargetsKept(s.first, w, canBreak, canContinue, cont);
      VisitStmt(s.first, canBreak, canContinue, cont);
      TargetsEmitted(Now(), Ins0(CATCH), canBreak, canContinue, cont);
      var catchAt := |builder.ir|;
      builder.Push(Ins0(CATCH));
      assert Now() == Emitted(Done(s.first, w, cont), Ins0(CATCH));
      VisitStmt(s.rest, canBreak, canContinue, cont);
      builder.SetOp1(catchAt, VarOp(s.y));
    }

    /** A function's code is stepped over by a jump; its temporaries are its own. */
    method VisitFunDecl(s: Stmt, ghost cont: nat)
      requires s.FunDecl? && JumpsOk(s, false, false)
      modifies this, builder
      ensures Now() == Done(s, old(Now()), cont)
      decreases s, 0
    {
      hide Done;
      FunDone(s, Now(), cont);
      var start := |builder.ir|;
      builder.Push(Ins1(JMP, Addr(0)));
      var at := Pos(|builder.ir|, |builder.consts|, 0);
      var saved := builder.temps;
      builder.NewTempEnv();
      VisitStmt(s.prologue, false, false, 0);
      VisitStmt(s.body, false, false, 0);
      builder.Push(Ins0(LEAVE));
      builder.SetOp1(start, Addr(|builder.ir|));
      entries := entries[s.f := Entry(at, builder.temps)];
      builder.SetTempEnv(saved);
    }
  }
}
