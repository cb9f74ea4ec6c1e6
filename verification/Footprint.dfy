/** What code without calls can change, cell by cell: only the variables that it names as targets.  Such code
    never ends by an exception out of a deeper frame. */
module Footprint {
  import opened Values
  import opened Store
  import opened Ast
  import opened Semantics
  import opened Isolation

  // ----- the syntax -----

  predicate CallFreeE(e: Expr) {
    match e
    case Binary(_, l, r) => CallFreeE(l) && CallFreeE(r)
    case Comparison(_, l, r) => CallFreeE(l) && CallFreeE(r)
    case Logic(_, l, r) => CallFreeE(l) && CallFreeE(r)
    case Boolean(_, l, r) => CallFreeE(l) && CallFreeE(r)
    case Augmented(_, _, r) => CallFreeE(r)
    case Negate(a) => CallFreeE(a)
    case Complement(a) => CallFreeE(a)
    case AssignTo(_, a) => CallFreeE(a)
    case Call(_, _) => false
    case _ => true
  }

  predicate CallFree(s: Stmt) {
    match s
    case Seq(s1, s2) => CallFree(s1) && CallFree(s2)
    case Block(b) => CallFree(b)
    case Do(e) => CallFreeE(e)
    case Assign(_, e) => CallFreeE(e)
    case AssignUnless(_, e) => CallFreeE(e)
    case If(bs) => CallFreeB(bs)
    case Loop(_, cond, update, body) => (cond.When? ==> CallFreeE(cond.e)) && CallFree(update) && CallFree(body)
    case Switch(e, cases) => CallFreeE(e) && CallFreeK(cases)
    case ReturnVal(e) => CallFreeE(e)
    case Throw(e) => CallFreeE(e)
    case Try(body, _, handler, finalizer) => CallFree(body) && CallFree(handler) && CallFree(finalizer)
    case Catches(h1, _, h2) => CallFree(h1) && CallFree(h2)
    case _ => true
  }

  predicate CallFreeB(bs: Branches) {
    match bs
    case Else(s) => CallFree(s)
    case Branch(c, block, rest) => CallFreeE(c) && CallFree(block) && CallFreeB(rest)
  }

  predicate CallFreeK(cs: Cases) {
    match cs
    case NoCase => true
    case Case(lbl, body, rest) => CallFreeE(lbl) && CallFree(body) && CallFreeK(rest)
    case DefaultCase(body, rest) => CallFree(body) && CallFreeK(rest)
  }

  /** The variables that an expression assigns. */
  function TargetsE(e: Expr): set<Off> {
    match e
    case Binary(_, l, r) => TargetsE(l) + TargetsE(r)
    case Comparison(_, l, r) => TargetsE(l) + TargetsE(r)
    case Logic(_, l, r) => TargetsE(l) + TargetsE(r)
    case Boolean(_, l, r) => TargetsE(l) + TargetsE(r)
    case Augmented(_, x, r) => {x} + TargetsE(r)
    case Negate(a) => TargetsE(a)
    case Complement(a) => TargetsE(a)
    case IncDec(_, x) => {x}
    case AssignTo(x, a) => {x} + TargetsE(a)
    case _ => {}
  }

  function Targets(s: Stmt): set<Off> {
    match s
    case Seq(s1, s2) => Targets(s1) + Targets(s2)
    case Block(b) => Targets(b)
    case Do(e) => TargetsE(e)
    case Assign(x, e) => {x} + TargetsE(e)
    case AssignUnless(x, e) => {x} + TargetsE(e)
    case If(bs) => TargetsB(bs)
    case Loop(_, cond, update, body) => (if cond.When? then TargetsE(cond.e) else {}) + Targets(update) + Targets(body)
    case Switch(e, cases) => TargetsE(e) + TargetsK(cases)
    case ReturnVal(e) => TargetsE(e)
    case Throw(e) => TargetsE(e)
    case Try(body, x, handler, finalizer) => {x} + Targets(body) + Targets(handler) + Targets(finalizer)
    case Catches(h1, _, h2) => Targets(h1) + Targets(h2)
    case _ => {}
  }

  function TargetsB(bs: Branches): set<Off> {
    match bs
    case Else(s) => Targets(s)
    case Branch(c, block, rest) => TargetsE(c) + Targets(block) + TargetsB(rest)
  }

  function TargetsK(cs: Cases): set<Off> {
    match cs
    case NoCase => {}
    case Case(lbl, body, rest) => TargetsE(lbl) + Targets(body) + TargetsK(rest)
    case DefaultCase(body, rest) => Targets(body) + TargetsK(rest)
  }

  // ----- stores -----

  /** The cell is that of one of the variables. */
  ghost predicate Named(h: Heap, env: nat, xs: set<Off>, at: (nat, nat)) {
    exists x :: x in xs && Locate(h, env, x) == Some(at)
  }

  /** No environment is added, and only cells of the given variables differ. */
  ghost predicate Only(h: Heap, h': Heap, env: nat, xs: set<Off>) {
    && |h'| == |h|
    && (forall e :: 0 <= e < |h| ==> SameShape(h[e], h'[e]))
    && forall e, k :: 0 <= e < |h| && 0 <= k < |h[e].cells| && !Named(h, env, xs, (e, k)) ==>
         h'[e].cells[k] == h[e].cells[k]
  }

  lemma OnlySelf(h: Heap, env: nat, xs: set<Off>)
    ensures Only(h, h, env, xs)
  {
  }

  lemma {:induction false} WalkSame(h: Heap, h': Heap, env: nat, hops: nat)
    requires |h'| == |h| && forall e :: 0 <= e < |h| ==> SameShape(h[e], h'[e])
    ensures Walk(h', env, hops) == Walk(h, env, hops)
    decreases hops
  {
    if env < |h| && hops > 0 {
      assert SameShape(h[env], h'[env]);
      if h[env].outer.Some? {
        WalkSame(h, h', h[env].outer.value, hops - 1);
      }
    }
  }

  lemma LocateSame(h: Heap, h': Heap, env: nat, x: Off)
    requires |h'| == |h| && forall e :: 0 <= e < |h| ==> SameShape(h[e], h'[e])
    ensures Locate(h', env, x) == Locate(h, env, x)
  {
    WalkSame(h, h', env, x.hops);
    var w := Walk(h, env, x.hops);
    if w.Some? && w.value < |h| {
      assert SameShape(h[w.value], h'[w.value]);
    }
  }

  lemma OnlyTrans(a: Heap, b: Heap, c: Heap, env: nat, xs: set<Off>)
    requires Only(a, b, env, xs) && Only(b, c, env, xs)
    ensures Only(a, c, env, xs)
  {
    hide Locate;
    forall e | 0 <= e < |a| ensures SameShape(a[e], c[e]) {
      assert SameShape(a[e], b[e]) && SameShape(b[e], c[e]);
    }
    forall e, k | 0 <= e < |a| && 0 <= k < |a[e].cells| && !Named(a, env, xs, (e, k))
      ensures c[e].cells[k] == a[e].cells[k] {
      assert SameShape(a[e], b[e]);
      if Named(b, env, xs, (e, k)) {
        var x :| x in xs && Locate(b, env, x) == Some((e, k));
        LocateSame(a, b, env, x);
      }
    }
  }

  lemma WriteOnly(h: Heap, env: nat, x: Off, v: Val, xs: set<Off>)
    requires x in xs
    ensures WriteVar(h, env, x, v).Some? ==> Only(h, WriteVar(h, env, x, v).value, env, xs)
  {
    var at := Locate(h, env, x);
    if at.Some? {
      assert Named(h, env, xs, at.value);
    }
  }

  /** An outcome that changes nothing else, and is no exception out of a call. */
  ghost predicate Foot(h: Heap, o: Out, env: nat, xs: set<Off>) {
    !o.Abort? && (After(o).Some? ==> Only(h, After(o).value, env, xs))
  }

  lemma FootLater(a: Heap, b: Heap, o: Out, env: nat, xs: set<Off>)
    requires Only(a, b, env, xs) && Foot(b, o, env, xs)
    ensures Foot(a, o, env, xs)
  {
    hide Only;
    if After(o).Some? {
      OnlyTrans(a, b, After(o).value, env, xs);
    }
  }

  lemma WritesOnly(a: Heap, b: Heap, env: nat, x: Off, xs: set<Off>)
    requires Only(a, b, env, xs) && x in xs
    ensures forall v :: WriteVar(b, env, x, v).Some? ==> Only(a, WriteVar(b, env, x, v).value, env, xs)
  {
    hide Only, WriteVar;
    forall v ensures WriteVar(b, env, x, v).Some? ==> Only(a, WriteVar(b, env, x, v).value, env, xs) {
      WriteOnly(b, env, x, v, xs);
      if WriteVar(b, env, x, v).Some? {
        OnlyTrans(a, b, WriteVar(b, env, x, v).value, env, xs);
      }
    }
  }

  // ----- expressions -----

  /** A call-free expression changes only the variables it assigns. */
  lemma {:induction false} FootE(g: seq<FunDef>, fuel: nat, e: Expr, h: Heap, env: nat, xs: set<Off>)
    requires CallFreeE(e) && TargetsE(e) <= xs
    ensures Foot(h, Eval(g, fuel, e, h, env), env, xs)
    decreases e, 1
  {
    hide Only, WriteVar;
    OnlySelf(h, env, xs);
    match e
    case Literal(_) =>
    case Ident(_) =>
    case Binary(_, _, _) => FootBoth(g, fuel, e, h, env, xs);
    case Comparison(_, _, _) => FootBoth(g, fuel, e, h, env, xs);
    case Augmented(_, x, r) =>
      FootE(g, fuel, r, h, env, xs);
      var o := Eval(g, fuel, r, h, env);
      if o.Norm? {
        WritesOnly(h, o.h, env, x, xs);
      }
    case Logic(_, _, _) => FootShort(g, fuel, e, h, env, xs);
    case Boolean(_, _, _) => FootShort(g, fuel, e, h, env, xs);
    case Negate(a) => FootE(g, fuel, a, h, env, xs);
    case Complement(a) => FootE(g, fuel, a, h, env, xs);
    case IncDec(_, x) => WritesOnly(h, h, env, x, xs);
    case AssignTo(x, a) => FootPut(g, fuel, x, a, h, env, xs);
  }

  lemma FootPut(g: seq<FunDef>, fuel: nat, x: Off, e: Expr, h: Heap, env: nat, xs: set<Off>)
    requires CallFreeE(e) && TargetsE(e) <= xs && x in xs
    ensures var o := Eval(g, fuel, e, h, env);
            Foot(h, if o.Norm? then Put(o.res, o.h, env, x) else o, env, xs)
    decreases e, 2
  {
    hide Only, WriteVar, Eval;
    FootE(g, fuel, e, h, env, xs);
    var o := Eval(g, fuel, e, h, env);
    if o.Norm? {
      WritesOnly(h, o.h, env, x, xs);
    }
  }

  lemma FootBoth(g: seq<FunDef>, fuel: nat, e: Expr, h: Heap, env: nat, xs: set<Off>)
    requires (e.Binary? || e.Comparison?) && CallFreeE(e) && TargetsE(e) <= xs
    ensures var r := EvalBoth(g, fuel, e, h, env);
            if r.Both? then Only(h, r.h, env, xs) else Foot(h, r.o, env, xs)
    decreases e, 0
  {
    hide Only, Eval;
    FootE(g, fuel, e.l, h, env, xs);
    var o1 := Eval(g, fuel, e.l, h, env);
    if o1.Norm? {
      FootE(g, fuel, e.r, o1.h, env, xs);
      FootLater(h, o1.h, Eval(g, fuel, e.r, o1.h, env), env, xs);
    }
  }

  lemma FootShort(g: seq<FunDef>, fuel: nat, e: Expr, h: Heap, env: nat, xs: set<Off>)
    requires (e.Logic? || e.Boolean?) && CallFreeE(e) && TargetsE(e) <= xs
    ensures Foot(h, EvalShort(g, fuel, e, h, env), env, xs)
    decreases e, 0
  {
    hide Only, Eval;
    FootE(g, fuel, e.l, h, env, xs);
    var o1 := Eval(g, fuel, e.l, h, env);
    if o1.Norm? {
      FootE(g, fuel, e.r, o1.h, env, xs);
      FootLater(h, o1.h, Eval(g, fuel, e.r, o1.h, env), env, xs);
    }
  }

  // ----- statements -----

  /** A call-free statement changes only the variables it assigns, and never ends by an exception out of a call. */
  lemma {:induction false} FootS(g: seq<FunDef>, fuel: nat, s: Stmt, h: Heap, env: nat, xs: set<Off>)
    requires CallFree(s) && Targets(s) <= xs
    ensures Foot(h, Exec(g, fuel, s, h, env), env, xs)
    decreases fuel, s, 6
  {
    hide Only, Eval;
    OnlySelf(h, env, xs);
    match s
    case Skip =>
    case Seq(s1, s2) => FootSeq(g, fuel, s1, s2, h, env, xs);
    case Block(b) => FootS(g, fuel, b, h, env, xs);
    case Do(e) => FootE(g, fuel, e, h, env, xs);
    case Assign(x, e) => FootPut(g, fuel, x, e, h, env, xs);
    case AssignUnless(x, e) => FootPut(g, fuel, x, e, h, env, xs);
    case If(bs) => FootB(g, fuel, bs, h, env, xs);
    case Loop(_, _, _, _) => FootLoop(g, fuel, s, h, env, xs);
    case Switch(_, _) => FootSwitch(g, fuel, s, h, env, xs);
    case Break =>
    case Continue =>
    case Return =>
    case ReturnVal(e) => FootE(g, fuel, e, h, env, xs);
    case Throw(e) => FootE(g, fuel, e, h, env, xs);
    case Try(_, _, _, _) => FootTry(g, fuel, s, h, env, xs);
    case Catches(_, _, _) =>
    case FunDecl(_, _, _) =>
  }

  lemma FootSeq(g: seq<FunDef>, fuel: nat, s1: Stmt, s2: Stmt, h: Heap, env: nat, xs: set<Off>)
    requires CallFree(s1) && CallFree(s2) && Targets(s1) <= xs && Targets(s2) <= xs
    ensures var o := Exec(g, fuel, s1, h, env);
            Foot(h, o, env, xs) && (o.Norm? ==> Foot(h, Exec(g, fuel, s2, o.h, env), env, xs))
    decreases fuel, Ast.Seq(s1, s2), 0
  {
    hide Only, Exec;
    FootS(g, fuel, s1, h, env, xs);
    var o := Exec(g, fuel, s1, h, env);
    if o.Norm? {
      FootS(g, fuel, s2, o.h, env, xs);
      FootLater(h, o.h, Exec(g, fuel, s2, o.h, env), env, xs);
    }
  }

  lemma {:induction false} FootB(g: seq<FunDef>, fuel: nat, bs: Branches, h: Heap, env: nat, xs: set<Off>)
    requires CallFreeB(bs) && TargetsB(bs) <= xs
    ensures Foot(h, ExecIf(g, fuel, bs, h, env), env, xs)
    decreases fuel, bs, 0
  {
    hide Only, Eval, Exec;
    match bs
    case Else(s) => FootS(g, fuel, s, h, env, xs);
    case Branch(c, block, rest) =>
      FootE(g, fuel, c, h, env, xs);
      var o := Eval(g, fuel, c, h, env);
      if o.Norm? {
        FootS(g, fuel, block, o.h, env, xs);
        FootLater(h, o.h, Exec(g, fuel, block, o.h, env), env, xs);
        FootB(g, fuel, rest, o.h, env, xs);
        FootLater(h, o.h, ExecIf(g, fuel, rest, o.h, env), env, xs);
      }
  }

  lemma FootLoop(g: seq<FunDef>, fuel: nat, s: Stmt, h: Heap, env: nat, xs: set<Off>)
    requires s.Loop? && CallFree(s) && Targets(s) <= xs
    ensures Foot(h, Exec(g, fuel, s, h, env), env, xs)
    decreases fuel, s, 4
  {
    hide Only, Eval, Iterate;
    if WellMade(s) && fuel > 0 {
      if s.cond.Always? {
        FootIterate(g, fuel, s, h, env, xs);
      } else {
        FootE(g, fuel, s.cond.e, h, env, xs);
        var o := Eval(g, fuel, s.cond.e, h, env);
        if o.Norm? {
          FootIterate(g, fuel, s, o.h, env, xs);
          FootLater(h, o.h, Iterate(g, fuel, s, o.h, env), env, xs);
        }
      }
    }
  }

  lemma FootIterate(g: seq<FunDef>, fuel: nat, s: Stmt, h: Heap, env: nat, xs: set<Off>)
    requires s.Loop? && fuel > 0 && CallFree(s) && Targets(s) <= xs
    ensures Foot(h, Iterate(g, fuel, s, h, env), env, xs)
    decreases fuel, s, 3
  {
    hide Only, Exec, Repeat;
    FootS(g, fuel, s.body, h, env, xs);
    var o := Exec(g, fuel, s.body, h, env);
    if o.Norm? || o.Cont? {
      FootRepeat(g, fuel, s, o.h, env, xs);
      FootLater(h, o.h, Repeat(g, fuel, s, o.h, env), env, xs);
    }
  }

  lemma FootRepeat(g: seq<FunDef>, fuel: nat, s: Stmt, h: Heap, env: nat, xs: set<Off>)
    requires s.Loop? && fuel > 0 && CallFree(s) && Targets(s) <= xs
    ensures Foot(h, Repeat(g, fuel, s, h, env), env, xs)
    decreases fuel, s, 2
  {
    hide Only, Exec;
    FootS(g, fuel, s.update, h, env, xs);
    var o := Exec(g, fuel, s.update, h, env);
    if o.Norm? {
      FootS(g, fuel - 1, s, o.h, env, xs);
      FootLater(h, o.h, Exec(g, fuel - 1, s, o.h, env), env, xs);
    }
  }

  lemma FootSwitch(g: seq<FunDef>, fuel: nat, s: Stmt, h: Heap, env: nat, xs: set<Off>)
    requires s.Switch? && CallFree(s) && Targets(s) <= xs
    ensures Foot(h, Exec(g, fuel, s, h, env), env, xs)
    decreases fuel, s, 4
  {
    hide Only, Eval, Select, ExecCases;
    FootE(g, fuel, s.e, h, env, xs);
    var o := Eval(g, fuel, s.e, h, env);
    if Defaults(s.cases) <= 1 && o.Norm? {
      FootSelect(g, fuel, s.cases, o.res, o.h, env, xs);
      var c := Select(g, fuel, s.cases, o.res, o.h, env);
      if c.ChoiceFail? {
        FootLater(h, o.h, c.o, env, xs);
      } else {
        OnlyTrans(h, o.h, c.h, env, xs);
        var skip := if c.Chosen? then c.skip else DefaultIndex(s.cases);
        FootCases(g, fuel, s.cases, skip, c.h, env, xs);
        FootLater(h, c.h, ExecCases(g, fuel, s.cases, skip, c.h, env), env, xs);
      }
    }
  }

  lemma {:induction false} FootSelect(g: seq<FunDef>, fuel: nat, cs: Cases, r: Res, h: Heap, env: nat, xs: set<Off>)
    requires CallFreeK(cs) && TargetsK(cs) <= xs
    ensures var c := Select(g, fuel, cs, r, h, env);
            if c.ChoiceFail? then Foot(h, c.o, env, xs) else Only(h, c.h, env, xs)
    decreases cs
  {
    hide Only, Eval;
    match cs
    case NoCase => OnlySelf(h, env, xs);
    case DefaultCase(_, rest) => FootSelect(g, fuel, rest, r, h, env, xs);
    case Case(lbl, _, rest) =>
      FootE(g, fuel, lbl, h, env, xs);
      var o := Eval(g, fuel, lbl, h, env);
      if o.Norm? {
        FootSelect(g, fuel, rest, r, o.h, env, xs);
        var c := Select(g, fuel, rest, r, o.h, env);
        if c.ChoiceFail? {
          FootLater(h, o.h, c.o, env, xs);
        } else {
          OnlyTrans(h, o.h, c.h, env, xs);
        }
      }
  }

  lemma {:induction false} FootCases(g: seq<FunDef>, fuel: nat, cs: Cases, skip: nat, h: Heap, env: nat, xs: set<Off>)
    requires CallFreeK(cs) && TargetsK(cs) <= xs
    ensures Foot(h, ExecCases(g, fuel, cs, skip, h, env), env, xs)
    decreases fuel, cs, 0
  {
    hide Only, Exec;
    if cs.NoCase? {
      OnlySelf(h, env, xs);
    } else if skip > 0 {
      FootCases(g, fuel, cs.rest, skip - 1, h, env, xs);
    } else {
      FootS(g, fuel, cs.body, h, env, xs);
      var o := Exec(g, fuel, cs.body, h, env);
      if o.Norm? {
        FootCases(g, fuel, cs.rest, 0, o.h, env, xs);
        FootLater(h, o.h, ExecCases(g, fuel, cs.rest, 0, o.h, env), env, xs);
      }
    }
  }

  lemma FootTry(g: seq<FunDef>, fuel: nat, s: Stmt, h: Heap, env: nat, xs: set<Off>)
    requires s.Try? && CallFree(s) && Targets(s) <= xs
    ensures Foot(h, ExecTry(g, fuel, s, h, env), env, xs)
    decreases fuel, s, 5
  {
    hide Only, ExecGuarded, ExecHandler;
    FootGuarded(g, fuel, s, h, env, xs);
    var o := ExecGuarded(g, fuel, s, h, env);
    if o.Thr? {
      FootHandler(g, fuel, s, o.ex, o.h, env, xs);
      FootLater(h, o.h, ExecHandler(g, fuel, s, o.ex, o.h, env), env, xs);
    }
  }

  lemma FootGuarded(g: seq<FunDef>, fuel: nat, s: Stmt, h: Heap, env: nat, xs: set<Off>)
    requires s.Try? && CallFree(s) && Targets(s) <= xs
    ensures Foot(h, ExecGuarded(g, fuel, s, h, env), env, xs)
    decreases fuel, s, 3
  {
    hide Only, Exec;
    FootS(g, fuel, s.body, h, env, xs);
    var o := Exec(g, fuel, s.body, h, env);
    if o.Norm? {
      FootS(g, fuel, s.finalizer, o.h, env, xs);
      FootLater(h, o.h, Exec(g, fuel, s.finalizer, o.h, env), env, xs);
    }
  }

  lemma {:induction false} FootClauses(g: seq<FunDef>, fuel: nat, s: Stmt, h: Heap, env: nat, xs: set<Off>)
    requires CallFree(s) && Targets(s) <= xs
    ensures Foot(h, ExecClauses(g, fuel, s, h, env), env, xs)
    decreases fuel, s, 7
  {
    hide Only, Exec;
    if s.Catches? {
      FootS(g, fuel, s.first, h, env, xs);
      var o := Exec(g, fuel, s.first, h, env);
      if o.Norm? {
        FootClauses(g, fuel, s.rest, o.h, env, xs);
        FootLater(h, o.h, ExecClauses(g, fuel, s.rest, o.h, env), env, xs);
      }
    } else {
      FootS(g, fuel, s, h, env, xs);
    }
  }

  lemma {:induction false} FootHandler(g: seq<FunDef>, fuel: nat, s: Stmt, ex: Val, h: Heap, env: nat, xs: set<Off>)
    requires s.Try? && CallFree(s) && Targets(s) <= xs
    ensures Foot(h, ExecHandler(g, fuel, s, ex, h, env), env, xs)
    decreases fuel, s, 4
  {
    hide Only, ExecCaught;
    FootCaught(g, fuel, s, ex, h, env, xs);
    var o := ExecCaught(g, fuel, s, ex, h, env);
    if o.Thr? && o.dirty && fuel > 0 {
      FootHandler(g, fuel - 1, s, o.ex, o.h, env, xs);
      FootLater(h, o.h, ExecHandler(g, fuel - 1, s, o.ex, o.h, env), env, xs);
    }
  }

  lemma FootCaught(g: seq<FunDef>, fuel: nat, s: Stmt, ex: Val, h: Heap, env: nat, xs: set<Off>)
    requires s.Try? && CallFree(s) && Targets(s) <= xs
    ensures Foot(h, ExecCaught(g, fuel, s, ex, h, env), env, xs)
    decreases fuel, s, 3
  {
    hide Only, Exec, ExecClauses, WriteVar;
    WriteOnly(h, env, s.x, ex, xs);
    var h2 := WriteVar(h, env, s.x, ex);
    if h2.Some? {
      FootClauses(g, fuel, s.handler, h2.value, env, xs);
      var o := ExecClauses(g, fuel, s.handler, h2.value, env);
      FootLater(h, h2.value, o, env, xs);
      if o.Norm? {
        FootS(g, fuel, s.finalizer, o.h, env, xs);
        FootLater(h, o.h, Exec(g, fuel, s.finalizer, o.h, env), env, xs);
      }
    }
  }
}
