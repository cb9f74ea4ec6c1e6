/** Code without try statements: its exceptions leave no entry behind on the try stack. */
module CleanCode {
  import opened Values
  import opened Store
  import opened Ast
  import opened Semantics

  predicate TryFree(s: Stmt) {
    match s
    case Seq(s1, s2) => TryFree(s1) && TryFree(s2)
    case Block(b) => TryFree(b)
    case If(bs) => TryFreeB(bs)
    case Loop(_, _, update, body) => TryFree(update) && TryFree(body)
    case Switch(_, cases) => TryFreeK(cases)
    case Try(_, _, _, _) => false
    case Catches(h1, _, h2) => TryFree(h1) && TryFree(h2)
    case _ => true
  }

  predicate TryFreeB(bs: Branches) {
    match bs
    case Else(s) => TryFree(s)
    case Branch(_, block, rest) => TryFree(block) && TryFreeB(rest)
  }

  predicate TryFreeK(cs: Cases) {
    match cs
    case NoCase => true
    case Case(_, body, rest) => TryFree(body) && TryFreeK(rest)
    case DefaultCase(body, rest) => TryFree(body) && TryFreeK(rest)
  }

  /** A declared function's own try statements count where it is called. */
  predicate AllTryFree(g: seq<FunDef>) {
    forall f :: 0 <= f < |g| ==> TryFree(g[f].prologue) && TryFree(g[f].body)
  }

  predicate Clean(o: Out) {
    o.Thr? || o.Abort? ==> !o.dirty
  }

  // ----- expressions -----

  lemma {:induction false} CleanE(g: seq<FunDef>, fuel: nat, e: Expr, h: Heap, env: nat)
    requires AllTryFree(g)
    ensures Clean(Eval(g, fuel, e, h, env))
    decreases fuel, 1, e, 2
  {
    hide AllTryFree;
    match e
    case Literal(_) =>
    case Ident(_) =>
    case Binary(_, _, _) => CleanBoth(g, fuel, e, h, env);
    case Comparison(_, _, _) => CleanBoth(g, fuel, e, h, env);
    case Augmented(_, _, r) => CleanE(g, fuel, r, h, env);
    case Logic(_, _, _) => CleanShort(g, fuel, e, h, env);
    case Boolean(_, _, _) => CleanShort(g, fuel, e, h, env);
    case Negate(a) => CleanE(g, fuel, a, h, env);
    case Complement(a) => CleanE(g, fuel, a, h, env);
    case IncDec(_, _) =>
    case AssignTo(_, a) => CleanE(g, fuel, a, h, env);
    case Call(_, _) => CleanCall(g, fuel, e, h, env);
  }

  lemma CleanBoth(g: seq<FunDef>, fuel: nat, e: Expr, h: Heap, env: nat)
    requires AllTryFree(g) && (e.Binary? || e.Comparison?)
    ensures var r := EvalBoth(g, fuel, e, h, env); r.Neither? ==> Clean(r.o)
    decreases fuel, 1, e, 0
  {
    hide AllTryFree, Eval;
    CleanE(g, fuel, e.l, h, env);
    var o := Eval(g, fuel, e.l, h, env);
    if o.Norm? {
      CleanE(g, fuel, e.r, o.h, env);
    }
  }

  lemma CleanShort(g: seq<FunDef>, fuel: nat, e: Expr, h: Heap, env: nat)
    requires AllTryFree(g) && (e.Logic? || e.Boolean?)
    ensures Clean(EvalShort(g, fuel, e, h, env))
    decreases fuel, 1, e, 0
  {
    hide AllTryFree, Eval;
    CleanE(g, fuel, e.l, h, env);
    var o := Eval(g, fuel, e.l, h, env);
    if o.Norm? {
      CleanE(g, fuel, e.r, o.h, env);
    }
  }

  lemma CleanCall(g: seq<FunDef>, fuel: nat, e: Expr, h: Heap, env: nat)
    requires AllTryFree(g) && e.Call?
    ensures Clean(EvalCall(g, fuel, e, h, env))
    decreases fuel, 1, e, 0
  {
    hide AllTryFree, Eval, Invoke, Deref, DerefAll;
    CleanE(g, fuel, e.callee, h, env);
    var o := Eval(g, fuel, e.callee, h, env);
    if o.Norm? {
      CleanArgs(g, fuel, e.args, o.h, env);
      var a := EvalArgs(g, fuel, e.args, o.h, env);
      if a.Args? {
        var fval, vs := Deref(o.res, a.h, env), DerefAll(a.rs, a.h, env);
        if fval.Some? && vs.Some? {
          CleanInvoke(g, fuel, fval.value, vs.value, a.h);
        }
      }
    }
  }

  lemma {:induction false} CleanArgs(g: seq<FunDef>, fuel: nat, es: Exprs, h: Heap, env: nat)
    requires AllTryFree(g)
    ensures var r := EvalArgs(g, fuel, es, h, env); r.ArgsFail? ==> Clean(r.o)
    decreases fuel, 1, es
  {
    hide AllTryFree, Eval;
    if es.Exprs? {
      CleanE(g, fuel, es.head, h, env);
      var o := Eval(g, fuel, es.head, h, env);
      if o.Norm? {
        CleanArgs(g, fuel, es.rest, o.h, env);
      }
    }
  }

  lemma CleanInvoke(g: seq<FunDef>, fuel: nat, fval: Val, args: seq<Val>, h: Heap)
    requires AllTryFree(g)
    ensures Clean(Invoke(g, fuel, fval, args, h))
    decreases fuel, 0
  {
    hide Exec, Activate, ArityOk;
    if fval.Func? && fval.id < |g| && fuel > 0 {
      var f := g[fval.id];
      var h1 := Activate(h, f.header, args);
      if h1.Some? {
        CleanS(g, fuel - 1, Ast.Seq(f.prologue, f.body), h1.value, |h|);
      }
    }
  }

  // ----- statements -----

  lemma {:induction false} CleanS(g: seq<FunDef>, fuel: nat, s: Stmt, h: Heap, env: nat)
    requires AllTryFree(g) && TryFree(s)
    ensures Clean(Exec(g, fuel, s, h, env))
    decreases fuel, 1, s, 9
  {
    hide AllTryFree, Eval;
    match s
    case Seq(s1, s2) =>
      CleanS(g, fuel, s1, h, env);
      var o := Exec(g, fuel, s1, h, env);
      if o.Norm? {
        CleanS(g, fuel, s2, o.h, env);
      }
    case Block(b) => CleanS(g, fuel, b, h, env);
    case Do(e) => CleanE(g, fuel, e, h, env);
    case Assign(_, e) => CleanE(g, fuel, e, h, env);
    case AssignUnless(_, e) => CleanE(g, fuel, e, h, env);
    case If(bs) => CleanB(g, fuel, bs, h, env);
    case Loop(_, _, _, _) => CleanLoop(g, fuel, s, h, env);
    case Switch(_, _) => CleanSwitch(g, fuel, s, h, env);
    case ReturnVal(e) => CleanE(g, fuel, e, h, env);
    case Throw(e) => CleanE(g, fuel, e, h, env);
    case _ =>
  }

  /** Catch clauses too, although they belong to a try statement. */
  lemma {:induction false} CleanClauses(g: seq<FunDef>, fuel: nat, s: Stmt, h: Heap, env: nat)
    requires AllTryFree(g) && TryFree(s)
    ensures Clean(ExecClauses(g, fuel, s, h, env))
    decreases s
  {
    hide AllTryFree, Exec;
    if s.Catches? {
      CleanS(g, fuel, s.first, h, env);
      var o := Exec(g, fuel, s.first, h, env);
      if o.Norm? {
        CleanClauses(g, fuel, s.rest, o.h, env);
      }
    } else {
      CleanS(g, fuel, s, h, env);
    }
  }

  lemma {:induction false} CleanB(g: seq<FunDef>, fuel: nat, bs: Branches, h: Heap, env: nat)
    requires AllTryFree(g) && TryFreeB(bs)
    ensures Clean(ExecIf(g, fuel, bs, h, env))
    decreases fuel, 1, bs
  {
    hide AllTryFree, Eval, Exec;
    match bs
    case Else(s) => CleanS(g, fuel, s, h, env);
    case Branch(c, block, rest) =>
      CleanE(g, fuel, c, h, env);
      var r := Demand(Eval(g, fuel, c, h, env), env);
      if r.Got? {
        if Truthy(r.v) {
          CleanS(g, fuel, block, r.h, env);
        } else {
          CleanB(g, fuel, rest, r.h, env);
        }
      }
  }

  lemma CleanLoop(g: seq<FunDef>, fuel: nat, s: Stmt, h: Heap, env: nat)
    requires s.Loop? && AllTryFree(g) && TryFree(s)
    ensures Clean(Exec(g, fuel, s, h, env))
    decreases fuel, 1, s, 3
  {
    hide AllTryFree, Eval, Iterate;
    if fuel > 0 {
      if s.cond.Always? {
        CleanIterate(g, fuel, s, h, env);
      } else {
        CleanE(g, fuel, s.cond.e, h, env);
        var r := Demand(Eval(g, fuel, s.cond.e, h, env), env);
        if r.Got? {
          CleanIterate(g, fuel, s, r.h, env);
        }
      }
    }
  }

  lemma CleanIterate(g: seq<FunDef>, fuel: nat, s: Stmt, h: Heap, env: nat)
    requires s.Loop? && fuel > 0 && AllTryFree(g) && TryFree(s)
    ensures Clean(Iterate(g, fuel, s, h, env))
    decreases fuel, 1, s, 1
  {
    hide AllTryFree, Exec, Repeat;
    CleanS(g, fuel, s.body, h, env);
    var o := Exec(g, fuel, s.body, h, env);
    if o.Norm? || o.Cont? {
      CleanRepeat(g, fuel, s, o.h, env);
    }
  }

  lemma CleanRepeat(g: seq<FunDef>, fuel: nat, s: Stmt, h: Heap, env: nat)
    requires s.Loop? && fuel > 0 && AllTryFree(g) && TryFree(s)
    ensures Clean(Repeat(g, fuel, s, h, env))
    decreases fuel, 1, s, 0
  {
    hide AllTryFree, Exec;
    CleanS(g, fuel, s.update, h, env);
    var o := Exec(g, fuel, s.update, h, env);
    if o.Norm? {
      CleanS(g, fuel - 1, s, o.h, env);
    }
  }

  lemma CleanSwitch(g: seq<FunDef>, fuel: nat, s: Stmt, h: Heap, env: nat)
    requires s.Switch? && AllTryFree(g) && TryFree(s)
    ensures Clean(Exec(g, fuel, s, h, env))
    decreases fuel, 1, s, 3
  {
    hide AllTryFree, Eval, Select, ExecCases;
    CleanE(g, fuel, s.e, h, env);
    var o := Eval(g, fuel, s.e, h, env);
    if o.Norm? {
      CleanSelect(g, fuel, s.cases, o.res, o.h, env);
      var c := Select(g, fuel, s.cases, o.res, o.h, env);
      if !c.ChoiceFail? {
        CleanCases(g, fuel, s.cases, if c.Chosen? then c.skip else DefaultIndex(s.cases), c.h, env);
      }
    }
  }

  lemma {:induction false} CleanSelect(g: seq<FunDef>, fuel: nat, cs: Cases, r: Res, h: Heap, env: nat)
    requires AllTryFree(g)
    ensures var c := Select(g, fuel, cs, r, h, env); c.ChoiceFail? ==> Clean(c.o)
    decreases fuel, 1, cs
  {
    hide AllTryFree, Eval;
    if cs.Case? {
      CleanE(g, fuel, cs.lbl, h, env);
      var o := Eval(g, fuel, cs.lbl, h, env);
      if o.Norm? {
        CleanSelect(g, fuel, cs.rest, r, o.h, env);
      }
    } else if cs.DefaultCase? {
      CleanSelect(g, fuel, cs.rest, r, h, env);
    }
  }

  lemma {:induction false} CleanCases(g: seq<FunDef>, fuel: nat, cs: Cases, skip: nat, h: Heap, env: nat)
    requires AllTryFree(g) && TryFreeK(cs)
    ensures Clean(ExecCases(g, fuel, cs, skip, h, env))
    decreases fuel, 1, cs
  {
    hide AllTryFree, Exec;
    if !cs.NoCase? {
      if skip > 0 {
        CleanCases(g, fuel, cs.rest, skip - 1, h, env);
      } else {
        CleanS(g, fuel, cs.body, h, env);
        var o := Exec(g, fuel, cs.body, h, env);
        if o.Norm? {
          CleanCases(g, fuel, cs.rest, 0, o.h, env);
        }
      }
    }
  }
}
