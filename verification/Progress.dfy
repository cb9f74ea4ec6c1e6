/** The generator's whole state as a value, and what visiting a statement makes of it. */
module Progress {
  import opened Values
  import opened Ast
  import opened Machine
  import opened Layout
  import opened Backpatch
  import opened Emission

  /** What a visitor changes: the code, the three stacks of lists of jumps without a target, and the
      functions compiled so far. */
  datatype Work = Work(g: Gen, jmps: seq<seq<nat>>, brks: seq<seq<nat>>, conts: seq<seq<nat>>, entries: map<nat, Entry>)

  /** After a statement: its final code except that loose breaks go to 0 and loose continues to `cont`; the
      loose jumps are recorded, and all stacks have their old depth. */
  function Done(s: Stmt, w: Work, cont: nat): (r: Work)
    ensures |r.g.ir| == |w.g.ir| + SizeS(s)
  {
    Work(GenS(s, w.g, 0, cont), w.jmps, AddTop(w.brks, Breaks(s, |w.g.ir|)), AddTop(w.conts, Continues(s, |w.g.ir|)),
         w.entries + FunTable(s, Here(w.g)))
  }

  /** After the branches of an if statement, the jumps at their ends recorded too. */
  function DoneB(bs: Branches, w: Work, cont: nat): Work {
    Work(GenB(bs, w.g, cont), AddTop(w.jmps, ExitSites(bs, |w.g.ir|)), AddTop(w.brks, BreaksB(bs, |w.g.ir|)),
         AddTop(w.conts, ContinuesB(bs, |w.g.ir|)), w.entries + FunTableB(bs, Here(w.g)))
  }

  /** After the cases of a switch, the default still unknown to the tests. */
  function DoneK(cs: Cases, w: Work, env: SwitchEnv): Work {
    Work(GenK(cs, w.g, env), w.jmps, AddTop(w.brks, BreaksK(cs, |w.g.ir|, env.lone)), w.conts,
         w.entries + FunTableK(cs, Here(w.g), env.lone))
  }

  /** One instruction more. */
  function Emitted(w: Work, i: IR): Work { w.(g := w.g.(ir := w.g.ir + [i])) }

  /** The stacks have what loose jumps need. */
  predicate Targets(w: Work, canBreak: bool, canContinue: bool, cont: nat) {
    && (canBreak ==> w.brks != [])
    && (canContinue ==> w.conts != [] && w.brks != [] && Last(w.brks) != [] && Last(w.brks)[0] == cont)
  }

  lemma TargetsKept(s: Stmt, w: Work, canBreak: bool, canContinue: bool, cont: nat)
    requires Targets(w, canBreak, canContinue, cont)
    ensures Targets(Done(s, w, cont), canBreak, canContinue, cont)
  {
    hide GenS, Breaks, Continues, FunTable;
  }

  lemma TargetsEmitted(w: Work, i: IR, canBreak: bool, canContinue: bool, cont: nat)
    requires Targets(w, canBreak, canContinue, cont)
    ensures Targets(Emitted(w, i), canBreak, canContinue, cont)
  {
  }

  // ----- jump lists -----

  /** Adds addresses to the innermost list. */
  function AddTop(stack: seq<seq<nat>>, sites: seq<nat>): (r: seq<seq<nat>>)
    ensures |r| == |stack|
  {
    if stack == [] then stack else Init(stack) + [Last(stack) + sites]
  }

  lemma NoAdd(stack: seq<seq<nat>>)
    ensures AddTop(stack, []) == stack
  {
    if stack != [] {
      assert Last(stack) + [] == Last(stack);
    }
  }

  lemma AddTwice(stack: seq<seq<nat>>, a: seq<nat>, b: seq<nat>)
    ensures AddTop(AddTop(stack, a), b) == AddTop(stack, a + b)
  {
    if stack != [] {
      assert Last(stack) + a + b == Last(stack) + (a + b);
    }
  }

  lemma MergeTwice(m: map<nat, Entry>, a: map<nat, Entry>, b: map<nat, Entry>)
    ensures m + a + b == m + (a + b)
  {
  }

  lemma AddThrice(stack: seq<seq<nat>>, a: seq<nat>, b: seq<nat>, c: seq<nat>)
    ensures AddTop(AddTop(AddTop(stack, a), b), c) == AddTop(stack, a + b + c)
  {
    AddTwice(stack, a, b);
    AddTwice(stack, a + b, c);
  }

  /** A statement without loose jumps and functions only adds code. */
  lemma NoAdds(w: Work)
    ensures w.(brks := AddTop(w.brks, []), conts := AddTop(w.conts, []), entries := w.entries + map[]) == w
  {
    NoAdd(w.brks);
    NoAdd(w.conts);
    assert w.entries + map[] == w.entries;
  }

  /** Where generation continues after each construct. */
  lemma SHere(s: Stmt, g: Gen, cont: nat)
    ensures Here(GenS(s, g, 0, cont)) == AfterS(s, Here(g))
  {
  }

  lemma EHere(e: Expr, g: Gen)
    ensures Here(GenE(e, g)) == AfterE(e, Here(g))
    ensures Here(GenC(When(e), g)) == AfterC(When(e), Here(g))
  {
  }

  // ----- simple statements -----

  lemma SkipDone(w: Work, cont: nat)
    ensures Done(Skip, w, cont) == w
  {
    NoAdds(w);
    SkipCode(w.g, cont);
  }

  lemma SeqDone(s: Stmt, w: Work, cont: nat)
    requires s.Seq?
    ensures Done(s.s2, Done(s.s1, w, cont), cont) == Done(s, w, cont)
  {
    hide GenS, AddTop, CodeS;
    SeqCode(s, w.g, cont);
    var pc := |w.g.ir|;
    AddTwice(w.brks, Breaks(s.s1, pc), Breaks(s.s2, pc + SizeS(s.s1)));
    AddTwice(w.conts, Continues(s.s1, pc), Continues(s.s2, pc + SizeS(s.s1)));
    MergeTwice(w.entries, FunTable(s.s1, Here(w.g)), FunTable(s.s2, AfterS(s.s1, Here(w.g))));
  }

  lemma CatchesDone(s: Stmt, w: Work, cont: nat)
    requires s.Catches?
    ensures var w1 := Done(s.first, w, cont);
            var w2 := Done(s.rest, Emitted(w1, Ins0(CATCH)), cont);
            && |w1.g.ir| < |w2.g.ir|
            && w2.(g := w2.g.(ir := w2.g.ir[|w1.g.ir| := w2.g.ir[|w1.g.ir|].(op1 := VarOp(s.y))])) == Done(s, w, cont)
  {
    hide GenS, AddTop, CodeS;
    CatchesCode(s, w.g, cont);
    var pc, at := |w.g.ir|, Past(AfterS(s.first, Here(w.g)), 1);
    AddTwice(w.brks, Breaks(s.first, pc), Breaks(s.rest, pc + SizeS(s.first) + 1));
    AddTwice(w.conts, Continues(s.first, pc), Continues(s.rest, pc + SizeS(s.first) + 1));
    MergeTwice(w.entries, FunTable(s.first, Here(w.g)), FunTable(s.rest, at));
  }

  lemma BlockDone(s: Stmt, w: Work, cont: nat)
    requires s.Block?
    ensures Emitted(Done(s.s, Emitted(w, Ins0(BSCOPE)), cont), Ins0(ESCOPE)) == Done(s, w, cont)
  {
    hide GenS, AddTop, CodeS;
    BlockCode(s, w.g, cont);
  }

  lemma SimpleDone(s: Stmt, w: Work, cont: nat)
    requires s.Do? || s.Assign? || s.ReturnVal? || s.Throw?
    ensures var w1 := w.(g := GenE(s.e, w.g));
            var o := OpE(s.e, Here(w.g));
            Done(s, w, cont) ==
            if s.Do? then w1
            else Emitted(w1, if s.Assign? then Ins2(ASSIGN, VarOp(s.x), o)
                             else if s.ReturnVal? then Ins1(RET, o) else Ins1(THROW, o))
  {
    hide GenS, GenE, AddTop, CodeS, CodeE;
    SimpleCode(s, w.g, cont);
    NoAdds(w);
  }

  lemma UnlessDone(s: Stmt, w: Work, cont: nat)
    requires s.AssignUnless?
    ensures var w1 := Emitted(w, Ins2(JMPNZ, VarOp(s.x), Addr(|w.g.ir| + 2)));
            Done(s, w, cont) == Emitted(w1.(g := GenE(s.e, w1.g)), Ins2(ASSIGN, VarOp(s.x), OpE(s.e, Here(w1.g))))
  {
    hide GenS, GenE, AddTop, CodeS, CodeE;
    UnlessCode(s, w.g, cont);
    NoAdds(w);
  }

  lemma JumpDone(s: Stmt, w: Work, cont: nat)
    requires s.Break? || s.Continue? || s.Return?
    ensures Done(s, w, cont) ==
            match s
            case Break => Emitted(w.(brks := AddTop(w.brks, [|w.g.ir|])), Ins1(JMP, Addr(0)))
            case Continue => Emitted(w.(conts := AddTop(w.conts, [|w.g.ir|])), Ins1(JMP, Addr(cont)))
            case _ => Emitted(w, Ins0(RET))
  {
    hide GenS, AddTop, CodeS;
    JumpCode(s, w.g, cont);
    NoAdds(w);
  }

  // ----- if statements -----

  /** Generating a test: the jump's exit is not known yet. */
  function Tested(e: Expr, w: Work): Work {
    w.(g := GenC(When(e), w.g))
  }

  /** Setting the second operand of an instruction. */
  function Exiting(w: Work, i: nat, a: nat): Work
    requires i < |w.g.ir|
  {
    w.(g := w.g.(ir := w.g.ir[i := w.g.ir[i].(op2 := Addr(a))]))
  }

  /** A branch's own part of the work. */
  function BranchWork(bs: Branches, w: Work, cont: nat): Work
    requires bs.Branch?
  {
    var w2 := Done(bs.block, Tested(bs.cond, w), cont);
    var w3 := Emitted(w2.(jmps := AddTop(w2.jmps, [|w2.g.ir|])), Ins0(JMP));
    Exiting(w3, |w.g.ir| + SizeE(bs.cond), |w3.g.ir|)
  }

  lemma BranchDone(bs: Branches, w: Work, cont: nat)
    requires bs.Branch?
    ensures DoneB(bs.rest, BranchWork(bs, w, cont), cont) == DoneB(bs, w, cont)
  {
    hide GenS, GenE, GenB, AddTop, CodeS, CodeE, CodeB;
    BranchCode(bs, w.g, cont);
    var at := Here(w.g);
    EHere(bs.cond, w.g);
    SHere(bs.block, Tested(bs.cond, w).g, cont);
    var pc, pc2 := at.pc + SizeE(bs.cond) + 1, RestAt(bs, at).pc;
    AddTwice(w.jmps, [pc2 - 1], ExitSites(bs.rest, pc2));
    AddTwice(w.brks, Breaks(bs.block, pc), BreaksB(bs.rest, pc2));
    AddTwice(w.conts, Continues(bs.block, pc), ContinuesB(bs.rest, pc2));
    MergeTwice(w.entries, FunTable(bs.block, Past(AfterE(bs.cond, at), 1)), FunTableB(bs.rest, RestAt(bs, at)));
  }

  lemma BranchTargets(bs: Branches, w: Work, canBreak: bool, canContinue: bool, cont: nat)
    requires bs.Branch? && Targets(w, canBreak, canContinue, cont)
    ensures Targets(BranchWork(bs, w, cont), canBreak, canContinue, cont)
  {
    hide Done, GenC;
    TargetsKept(bs.block, Tested(bs.cond, w), canBreak, canContinue, cont);
  }

  lemma ElseDone(s: Stmt, w: Work, cont: nat)
    ensures DoneB(Else(s), w, cont) == Done(s, w, cont)
  {
    NoAdd(w.jmps);
  }

  lemma IfDone(s: Stmt, w: Work, cont: nat)
    requires s.If?
    ensures var w1 := DoneB(s.branches, w.(jmps := w.jmps + [[]]), cont);
            && w1.jmps != []
            && Inside(Last(w1.jmps), 0, |w1.g.ir|)
            && Done(s, w, cont) == w1.(g := w1.g.(ir := AimAt(w1.g.ir, 0, Last(w1.jmps), |w1.g.ir|)),
                                       jmps := Init(w1.jmps))
  {
    hide GenS, GenB, CodeS, CodeB, Inside, AimAt;
    IfCode(s, w.g, cont);
    TopOfPushed(w.jmps, [], ExitSites(s.branches, |w.g.ir|));
  }

  /** Popping a list that was pushed and added to. */
  lemma TopOfPushed(stack: seq<seq<nat>>, l: seq<nat>, sites: seq<nat>)
    ensures AddTop(stack + [l], sites) == stack + [l + sites]
    ensures Last(stack + [l + sites]) == l + sites && Init(stack + [l + sites]) == stack
    ensures [] + sites == sites
  {
  }

  // ----- loops -----

  /** What a loop pushes before its body. */
  function LoopOpen(s: Stmt, w: Work): Work
    requires s.Loop?
  {
    w.(g := GenC(s.cond, w.g), brks := w.brks + [[|w.g.ir|]], conts := w.conts + [[]])
  }

  /** After the body of a while loop. */
  function WhileBody(s: Stmt, w: Work): Work
    requires s.Loop?
  {
    var g1 := GenC(s.cond, w.g);
    Work(GenS(s.body, g1, 0, |w.g.ir|), w.jmps, w.brks + [[|w.g.ir|] + Breaks(s.body, |g1.ir|)],
         w.conts + [Continues(s.body, |g1.ir|)], w.entries + FunTable(s.body, Here(g1)))
  }

  lemma WhileBodyDone(s: Stmt, w: Work)
    requires s.Loop?
    ensures Done(s.body, LoopOpen(s, w), |w.g.ir|) == WhileBody(s, w)
  {
    hide GenS, GenC, Breaks, Continues, FunTable, AddTop, SizeS;
    var g1 := GenC(s.cond, w.g);
    TopOfPushed(w.brks, [|w.g.ir|], Breaks(s.body, |g1.ir|));
    TopOfPushed(w.conts, [], Continues(s.body, |g1.ir|));
  }

  /** A loop is no loose jump itself, and declares what its parts declare. */
  lemma LoopLists(s: Stmt, w: Work, cont: nat)
    requires s.Loop?
    ensures Done(s, w, cont) == w.(g := GenS(s, w.g, 0, 0), entries := w.entries + FunTable(s, Here(w.g)))
  {
    hide GenS, GenC, FunTable;
    LoopGen(s, w.g, cont);
    NoAdds(w);
  }

  lemma WhileTable(s: Stmt, at: Pos)
    requires s.Loop? && !s.isFor && JumpsOk(s, false, false)
    ensures FunTable(s, at) == FunTable(s.body, AfterC(s.cond, at))
  {
    assert FunTable(s, at) == FunTable(s.body, AfterC(s.cond, at)) + map[];
  }

  lemma WhileDone(s: Stmt, w: Work, cont: nat)
    requires s.Loop? && !s.isFor && JumpsOk(s, false, false)
    ensures var w1 := Done(s.body, LoopOpen(s, w), |w.g.ir|);
            var end := |w1.g.ir| + 1;
            && w1.brks != [] && w1.conts != []
            && Inside(Last(w1.brks), 0, |w1.g.ir|)
            && |w.g.ir| + SizeC(s.cond) < end
            && Done(s, w, cont) ==
               w1.(g := w1.g.(ir := SetExit(PatchAt(w1.g.ir, 0, Last(w1.brks), end) + [Ins1(JMP, Addr(|w.g.ir|))],
                                            s.cond, |w.g.ir|, end)),
                   brks := Init(w1.brks), conts := Init(w1.conts))
  {
    hide GenS, GenC, CodeS, CodeC, Inside, PatchAt, SetExit, Done, LoopOpen, FunTable, Breaks, Continues, JumpsOk;
    WhileBodyDone(s, w);
    WhileCode(s, w.g);
    LoopLists(s, w, cont);
    WhileTable(s, Here(w.g));
    var g1 := GenC(s.cond, w.g);
    TopOfPushed(w.brks, [|w.g.ir|], Breaks(s.body, |g1.ir|));
    TopOfPushed(w.conts, [], Continues(s.body, |g1.ir|));
    SizeCond(s, w.g);
  }

  lemma SizeCond(s: Stmt, g: Gen)
    requires s.Loop?
    ensures |g.ir| + SizeC(s.cond) == |GenC(s.cond, g).ir| <= |GenS(s.body, GenC(s.cond, g), 0, |g.ir|).ir|
  {
    hide CodeS, CodeC;
  }

  /** After the body of a for loop, its continues patched. */
  function ForBody(s: Stmt, w: Work): Work
    requires s.Loop?
  {
    var w1 := LoopOpen(s, w);
    w1.(g := GenS(s.body, w1.g, 0, ContinueAddr(s, Here(w.g))),
        brks := w.brks + [[|w.g.ir|] + Breaks(s.body, |w1.g.ir|)],
        conts := w.conts, entries := w.entries + FunTable(s.body, Here(w1.g)))
  }

  lemma ForBodyDone(s: Stmt, w: Work)
    requires s.Loop? && s.isFor && JumpsOk(s, false, false)
    ensures var w1 := Done(s.body, LoopOpen(s, w), |w.g.ir|);
            && w1.conts != []
            && Inside(Last(w1.conts), 0, |w1.g.ir|)
            && w1.(g := w1.g.(ir := PatchAt(w1.g.ir, 0, Last(w1.conts), |w1.g.ir|)), conts := Init(w1.conts))
               == ForBody(s, w)
  {
    hide GenS, GenC, CodeS, CodeC, Inside, PatchAt, SetExit;
    ForBodyCode(s, w.g);
    CondCode(s, w.g);
    var pc := |w.g.ir| + SizeC(s.cond);
    TopOfPushed(w.brks, [|w.g.ir|], Breaks(s.body, pc));
    TopOfPushed(w.conts, [], Continues(s.body, pc));
  }

  lemma ForDone(s: Stmt, w: Work, cont: nat)
    requires s.Loop? && s.isFor && JumpsOk(s, false, false)
    ensures var w1 := Emitted(Done(s.update, ForBody(s, w), 0), Ins1(JMP, Addr(|w.g.ir|)));
            && |w.g.ir| + SizeC(s.cond) <= |w1.g.ir|
            && (var ir := SetExit(w1.g.ir, s.cond, |w.g.ir|, |w1.g.ir|);
                && w1.brks != []
                && Inside(Last(w1.brks), 0, |ir|)
                && Done(s, w, cont) == w1.(g := w1.g.(ir := PatchAt(ir, 0, Last(w1.brks), |ir|)),
                                           brks := Init(w1.brks)))
  {
    hide GenS, GenC, CodeS, CodeC, Inside, PatchAt, SetExit;
    ForCode(s, w.g);
    LoopGen(s, w.g, cont);
    CondCode(s, w.g);
    var w1 := ForBody(s, w);
    ForBodyCode(s, w.g);
    SHere(s.body, GenC(s.cond, w.g), ContinueAddr(s, Here(w.g)));
    SHere(s.update, w1.g, 0);
    ForUpdate(s.update, w1);
    TopOfPushed(w.brks, [|w.g.ir|], Breaks(s.body, |w.g.ir| + SizeC(s.cond)));
    NoAdds(w);
    MergeTwice(w.entries, FunTable(s.body, AfterC(s.cond, Here(w.g))), FunTable(s.update, Here(w1.g)));
  }

  /** The update has no loose jumps. */
  lemma ForUpdate(s: Stmt, w: Work)
    requires JumpsOk(s, false, false)
    ensures Done(s, w, 0) == w.(g := GenS(s, w.g, 0, 0), entries := w.entries + FunTable(s, Here(w.g)))
  {
    NoneBreak(s, |w.g.ir|, false);
    NoneContinue(s, |w.g.ir|, false);
    NoAdds(w);
  }

  // ----- switches -----

  /** The jump at the end of the previous body gets its target. */
  function Filled(w: Work, last: Option<nat>, a: nat): Work
    requires last.Some? ==> last.value < |w.g.ir|
  {
    w.(g := Fill(w.g, last, a))
  }

  /** Label, comparison and test of a case. */
  function LabelWork(cs: Cases, w: Work, subject: Operand): Work
    requires cs.Case?
  {
    w.(g := CaseTest(cs, w.g, subject))
  }

  lemma LabelDone(cs: Cases, w: Work, last: Option<nat>, subject: Operand)
    requires cs.Case? && (last.Some? ==> last.value < |w.g.ir|)
    ensures |LabelWork(cs, w, subject).g.ir| == |w.g.ir| + SizeE(cs.lbl) + 2
    ensures var a := |w.g.ir| + SizeE(cs.lbl) + 2;
            Filled(LabelWork(cs, w, subject), last, a) == LabelWork(cs, Filled(w, last, a), subject)
  {
    CaseTestCode(cs, w.g, last, subject);
  }

  lemma CaseDone(cs: Cases, w: Work, env: SwitchEnv)
    requires cs.Case? && !env.lone && env.dflt.None? && env.end == 0 && JumpsOk(cs.body, true, false)
    ensures var w2 := Done(cs.body, LabelWork(cs, w, env.subject), 0);
            var w3 := Emitted(w2, Ins0(JMP));
            var w4 := Exiting(w3, |w.g.ir| + SizeE(cs.lbl) + 1, |w3.g.ir|);
            && |w4.g.ir| == |w.g.ir| + HeadSize(cs)
            && DoneK(cs.rest, Filled(w4, Some(|w2.g.ir|), NextBody(cs.rest, |w4.g.ir|)), env) == DoneK(cs, w, env)
            && (w.brks != [] ==> w4.brks != [])
  {
    hide GenS, GenE, GenK, AddTop, CodeS, CodeE, CodeK;
    CaseCode(cs, w.g, env);
    SHere(cs.body, CaseTest(cs, w.g, env.subject), 0);
    CaseSizes(cs, w.g);
    HeadLists(cs, w, env);
    CaseTestCode(cs, w.g, None, env.subject);
  }

  lemma CaseSizes(cs: Cases, g: Gen)
    requires !cs.NoCase?
    ensures LaterAt(cs, Here(g)).pc == |g.ir| + HeadSize(cs)
    ensures BodyAt(cs, Here(g), false).pc + SizeS(cs.body) + 1 == LaterAt(cs, Here(g)).pc
  {
  }

  lemma DefaultDone(cs: Cases, w: Work, last: Option<nat>, env: SwitchEnv)
    requires cs.DefaultCase? && !env.lone && env.dflt.None? && env.end == 0 && JumpsOk(cs.body, true, false)
    requires last.Some? ==> last.value < |w.g.ir|
    ensures var w0 := Filled(w, last, |w.g.ir| + 1);
            var w1 := Emitted(w0, Ins0(JMP));
            var w2 := Done(cs.body, w1, 0);
            var w3 := Emitted(w2, Ins0(JMP));
            var w4 := w3.(g := w3.g.(ir := w3.g.ir[|w.g.ir| := w3.g.ir[|w.g.ir|].(op1 := Addr(|w3.g.ir|))]));
            && Filled(Emitted(w, Ins0(JMP)), last, |w.g.ir| + 1) == w1
            && |w4.g.ir| == |w.g.ir| + HeadSize(cs)
            && DoneK(cs.rest, Filled(w4, Some(|w2.g.ir|), NextBody(cs.rest, |w4.g.ir|)), env) == DoneK(cs, w0, env)
            && (w.brks != [] ==> w4.brks != [])
  {
    hide GenS, GenE, GenK, AddTop, CodeS, CodeE, CodeK;
    DefaultTestCode(w.g, last);
    var w0 := Filled(w, last, |w.g.ir| + 1);
    DefaultCode(cs, w0.g, env);
    SHere(cs.body, Emitted(w0, Ins0(JMP)).g, 0);
    CaseSizes(cs, w0.g);
    HeadLists(cs, w0, env);
  }

  /** The lists after the first case and after the others. */
  lemma HeadLists(cs: Cases, w: Work, env: SwitchEnv)
    requires !cs.NoCase? && !env.lone && JumpsOk(cs.body, true, false)
    ensures var pc := BodyAt(cs, Here(w.g), false).pc;
            && BreaksK(cs, |w.g.ir|, false) == Breaks(cs.body, pc) + BreaksK(cs.rest, LaterAt(cs, Here(w.g)).pc, false)
            && AddTop(AddTop(w.brks, Breaks(cs.body, pc)), BreaksK(cs.rest, LaterAt(cs, Here(w.g)).pc, false))
               == AddTop(w.brks, BreaksK(cs, |w.g.ir|, false))
            && AddTop(w.conts, Continues(cs.body, pc)) == w.conts
            && w.entries + FunTable(cs.body, BodyAt(cs, Here(w.g), false))
               + FunTableK(cs.rest, LaterAt(cs, Here(w.g)), false)
               == w.entries + FunTableK(cs, Here(w.g), false)
  {
    var at := Here(w.g);
    var pc := BodyAt(cs, at, false).pc;
    AddTwice(w.brks, Breaks(cs.body, pc), BreaksK(cs.rest, LaterAt(cs, at).pc, false));
    NoneContinue(cs.body, pc, true);
    NoAdd(w.conts);
    MergeTwice(w.entries, FunTable(cs.body, BodyAt(cs, at, false)), FunTableK(cs.rest, LaterAt(cs, at), false));
  }

  lemma LoneDone(cs: Cases, w: Work, env: SwitchEnv)
    requires Lone(cs) && env.lone && env.end == 0 && JumpsOk(cs.body, true, false)
    ensures DoneK(NoCase, Done(cs.body, w, 0), env) == DoneK(cs, w, env)
  {
    hide GenS, GenK, AddTop, CodeS;
    LoneCode(cs, w.g, env);
    NoneContinue(cs.body, |w.g.ir|, true);
    NoAdd(w.conts);
    AddTwice(w.brks, Breaks(cs.body, |w.g.ir|), []);
    assert Breaks(cs.body, |w.g.ir|) + [] == Breaks(cs.body, |w.g.ir|);
    assert FunTable(cs.body, Here(w.g)) + map[] == FunTable(cs.body, Here(w.g));
    MergeTwice(w.entries, FunTable(cs.body, Here(w.g)), map[]);
  }

  lemma NoCaseDone(w: Work, env: SwitchEnv)
    ensures DoneK(NoCase, w, env) == w
  {
    NoAdds(w);
  }

  /** What a switch pushes after its subject. */
  function SwitchOpen(s: Stmt, w: Work): Work
    requires s.Switch?
  {
    w.(g := GenE(s.e, w.g), brks := w.brks + [[]])
  }

  lemma SwitchDone(s: Stmt, w: Work, env: SwitchEnv, cont: nat)
    requires s.Switch? && JumpsOk(s, false, false) && env == SwitchEnv(OpE(s.e, Here(w.g)), None, Lone(s.cases), 0)
    ensures var w1 := SwitchOpen(s, w);
            var w2 := DoneK(s.cases, w1, env);
            var d := DefaultAddr(s.cases, |w1.g.ir|, env.lone);
            var z := LastTest(s.cases, |w1.g.ir|);
            && w2.brks != []
            && Inside(Last(w2.brks), 0, |w2.g.ir|)
            && (z.Some? ==> z.value < |w2.g.ir|)
            && (env.lone ==> z.None?)
            && (var ir := SetTest(w2.g.ir, if d.Some? then z else None, if d.Some? then d.value else 0);
                Done(s, w, cont) == w2.(g := w2.g.(ir := PatchAt(ir, 0, Last(w2.brks), |ir|)), brks := Init(w2.brks)))
  {
    hide GenS, GenE, GenK, CodeS, CodeE, CodeK, Inside, PatchAt, SetTest, LastTest;
    SwitchCode(s, w.g, env, cont);
    SubjectCode(s, w.g);
    TopOfPushed(w.brks, [], BreaksK(s.cases, |w.g.ir| + SizeE(s.e), env.lone));
    NoAdds(w);
  }

  // ----- try statements and functions -----

  /** Setting the first operand of an instruction. */
  function Aimed(w: Work, i: nat, o: Operand): Work
    requires i < |w.g.ir|
  {
    w.(g := w.g.(ir := w.g.ir[i := w.g.ir[i].(op1 := o)]))
  }

  /** From the start of a try statement to the start of its handler. */
  function TryWork(s: Stmt, w: Work, cont: nat): Work
    requires s.Try?
  {
    var w2 := Emitted(Done(s.body, Emitted(w, Ins0(TRY)), cont), Ins0(JMP));
    Emitted(Aimed(w2, |w.g.ir|, Addr(|w2.g.ir|)), Ins0(CATCH))
  }

  /** The handler, and the operands that were waiting for it. */
  function HandlerWork(s: Stmt, w: Work, cont: nat): Work
    requires s.Try? && |w.g.ir| >= 2
  {
    var catchAt := |w.g.ir| - 1;
    var w2 := Done(s.handler, w, cont);
    Aimed(Aimed(w2, catchAt, VarOp(s.x)), catchAt - 1, Addr(|w2.g.ir|))
  }

  lemma TryDone(s: Stmt, w: Work, cont: nat)
    requires s.Try?
    ensures |TryWork(s, w, cont).g.ir| >= 2
    ensures Emitted(Done(s.finalizer, HandlerWork(s, TryWork(s, w, cont), cont), cont), Ins0(ETRY)) == Done(s, w, cont)
  {
    hide GenS, AddTop, CodeS, CodeTry, Breaks, Continues, FunTable;
    TryGen(s, w, cont);
    var at := Here(w.g);
    var p1, p2, p3 := Past(at, 1), Past(HandlerAt(s, at), 1), FinallyAt(s, at);
    TryLists(s, at);
    AddThrice(w.brks, Breaks(s.body, p1.pc), Breaks(s.handler, p2.pc), Breaks(s.finalizer, p3.pc));
    AddThrice(w.conts, Continues(s.body, p1.pc), Continues(s.handler, p2.pc), Continues(s.finalizer, p3.pc));
    MergeThrice(w.entries, FunTable(s.body, p1), FunTable(s.handler, p2), FunTable(s.finalizer, p3));
  }

  lemma TryTargets(s: Stmt, w: Work, canBreak: bool, canContinue: bool, cont: nat)
    requires s.Try? && Targets(w, canBreak, canContinue, cont)
    ensures Targets(Emitted(w, Ins0(TRY)), canBreak, canContinue, cont)
    ensures Targets(TryWork(s, w, cont), canBreak, canContinue, cont)
    ensures |TryWork(s, w, cont).g.ir| >= 2
    ensures Targets(HandlerWork(s, TryWork(s, w, cont), cont), canBreak, canContinue, cont)
  {
    hide Done;
    TargetsKept(s.body, Emitted(w, Ins0(TRY)), canBreak, canContinue, cont);
    TargetsKept(s.handler, TryWork(s, w, cont), canBreak, canContinue, cont);
  }

  lemma MergeThrice(m: map<nat, Entry>, a: map<nat, Entry>, b: map<nat, Entry>, c: map<nat, Entry>)
    ensures m + a + b + c == m + (a + b + c)
  {
  }

  lemma TryLists(s: Stmt, at: Pos)
    requires s.Try?
    ensures var p1, p2, p3 := Past(at, 1), Past(HandlerAt(s, at), 1), FinallyAt(s, at);
            && Breaks(s, at.pc) == Breaks(s.body, p1.pc) + Breaks(s.handler, p2.pc) + Breaks(s.finalizer, p3.pc)
            && Continues(s, at.pc) == Continues(s.body, p1.pc) + Continues(s.handler, p2.pc)
               + Continues(s.finalizer, p3.pc)
            && FunTable(s, at) == FunTable(s.body, p1) + FunTable(s.handler, p2) + FunTable(s.finalizer, p3)
  {
    hide SizeS, PoolS, TmpsS, HandlerAt, FinallyAt;
    TryPositions(s, at);
    TryBreaks(s, at.pc);
  }

  lemma TryBreaks(s: Stmt, pc: nat)
    requires s.Try?
    ensures var p2 := pc + SizeS(s.body) + 3;
            && Breaks(s, pc) == Breaks(s.body, pc + 1) + Breaks(s.handler, p2)
               + Breaks(s.finalizer, p2 + SizeS(s.handler))
            && Continues(s, pc) == Continues(s.body, pc + 1) + Continues(s.handler, p2)
               + Continues(s.finalizer, p2 + SizeS(s.handler))
  {
    hide SizeS;
  }

  lemma TryPositions(s: Stmt, at: Pos)
    requires s.Try?
    ensures Past(HandlerAt(s, at), 1).pc == at.pc + SizeS(s.body) + 3
    ensures FinallyAt(s, at).pc == at.pc + SizeS(s.body) + 3 + SizeS(s.handler)
  {
  }

  lemma TryGen(s: Stmt, w: Work, cont: nat)
    requires s.Try?
    ensures var w1 := TryWork(s, w, cont);
            && |w1.g.ir| >= 2
            && Here(w1.g) == Past(HandlerAt(s, Here(w.g)), 1)
            && (var w2 := HandlerWork(s, w1, cont);
                && Here(w2.g) == FinallyAt(s, Here(w.g))
                && Emitted(Done(s.finalizer, w2, cont), Ins0(ETRY)).g == GenS(s, w.g, 0, cont))
  {
    hide GenS, AddTop, CodeS, CodeTry, Breaks, Continues, FunTable;
    var g1 := GenS(s.body, w.g.(ir := w.g.ir + [Ins0(TRY)]), 0, cont);
    SHere(s.body, w.g.(ir := w.g.ir + [Ins0(TRY)]), cont);
    SHere(s.handler, TryWork(s, w, cont).g, cont);
    TryCode(s, w.g, cont);
  }

  /** What a function declaration does before its body. */
  function FunOpen(w: Work): Work {
    var w1 := Emitted(w, Ins1(JMP, Addr(0)));
    w1.(g := w1.g.(temps := 0))
  }

  /** The function's code, and the jump around it. */
  function FunWork(s: Stmt, w: Work): Work
    requires s.FunDecl?
  {
    var w3 := Emitted(Done(s.body, Done(s.prologue, FunOpen(w), 0), 0), Ins0(LEAVE));
    Aimed(w3, |w.g.ir|, Addr(|w3.g.ir|))
  }

  lemma FunDone(s: Stmt, w: Work, cont: nat)
    requires s.FunDecl? && JumpsOk(s, false, false)
    ensures var w1 := FunWork(s, w);
            Done(s, w, cont) ==
            w1.(g := w1.g.(temps := w.g.temps), entries := w1.entries[s.f := Entry(Here(FunOpen(w).g), w1.g.temps)])
  {
    hide GenS, AddTop, CodeS, FunTable;
    FunCodeGen(s, w.g, cont);
    var w1 := FunOpen(w);
    FunSizes(s, w1.g);
    ForUpdate(s.prologue, w1);
    ForUpdate(s.body, Done(s.prologue, w1, 0));
    FunEntries(s, w);
    NoAdds(w);
  }

  lemma FunEntries(s: Stmt, w: Work)
    requires s.FunDecl?
    ensures var at := FunEntry(Here(w.g));
            var a, b := FunTable(s.prologue, at), FunTable(s.body, AfterS(s.prologue, at));
            (w.entries + a + b)[s.f := Entry(at, TmpsS(s.prologue) + TmpsS(s.body))]
              == w.entries + FunTable(s, Here(w.g))
  {
  }

  lemma FunSizes(s: Stmt, g: Gen)
    requires s.FunDecl? && g.temps == 0
    ensures var g1 := GenS(s.prologue, g, 0, 0);
            && Here(g1) == AfterS(s.prologue, Here(g))
            && GenS(s.body, g1, 0, 0).temps == TmpsS(s.prologue) + TmpsS(s.body)
  {
  }
}
