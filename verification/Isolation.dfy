/** Frame isolation: which environments running code can change.

    Code reaches its own environment and the outer links from there; a call runs in a fresh clone of the
    callee's blueprint and reaches the blueprint's outer links.  So any set of environments that neither
    can enter keeps all its cells, however deep the calls and recursion go.  Outer links and the number of
    slots, which static offsets rely on, never change at all. */
module Isolation {
  import opened Values
  import opened Store
  import opened Ast
  import opened Semantics

  /** No outer link leads into `kept` from outside, and no function's environment hangs off it. */
  ghost predicate Sealed(g: seq<FunDef>, h: Heap, kept: set<nat>) {
    && (forall e :: e in kept ==> e < |h|)
    && (forall e :: 0 <= e < |h| && e !in kept && h[e].outer.Some? ==> h[e].outer.value !in kept)
    && (forall f :: 0 <= f < |g| && g[f].header.env < |h| && h[g[f].header.env].outer.Some?
          ==> h[g[f].header.env].outer.value !in kept)
  }

  /** The same slots and the same outer link. */
  predicate SameShape(a: Env, b: Env) {
    && a.outer == b.outer && |a.cells| == |b.cells|
    && forall i :: 0 <= i < |a.cells| ==> a.cells[i].isConst == b.cells[i].isConst
  }

  /** The environment has the shape of some function's blueprint. */
  ghost predicate FromBlueprint(g: seq<FunDef>, h: Heap, e: nat)
    requires e < |h|
  {
    exists f :: 0 <= f < |g| && g[f].header.env < |h| && SameShape(h[g[f].header.env], h[e])
  }

  /** `h'` may follow `h`: environments are only added, as activations of functions, keep their shape, and
      `kept` is untouched. */
  ghost predicate Follows(g: seq<FunDef>, h: Heap, h': Heap, kept: set<nat>) {
    && Sealed(g, h', kept)
    && |h| <= |h'|
    && (forall e :: 0 <= e < |h| ==> SameShape(h[e], h'[e]))
    && (forall e :: |h| <= e < |h'| ==> FromBlueprint(g, h', e))
    && (forall e :: e in kept ==> e < |h| && h'[e] == h[e])
  }

  lemma FollowsSelf(g: seq<FunDef>, h: Heap, kept: set<nat>)
    requires Sealed(g, h, kept)
    ensures Follows(g, h, h, kept)
  {
  }

  lemma FollowsTrans(g: seq<FunDef>, a: Heap, b: Heap, c: Heap, kept: set<nat>)
    requires Follows(g, a, b, kept) && Follows(g, b, c, kept)
    ensures Follows(g, a, c, kept)
  {
    hide Sealed;
    forall e | 0 <= e < |a| ensures SameShape(a[e], c[e]) {
      assert SameShape(a[e], b[e]) && SameShape(b[e], c[e]);
    }
    forall e | |a| <= e < |b| ensures FromBlueprint(g, c, e) {
      assert FromBlueprint(g, b, e);
      var f :| 0 <= f < |g| && g[f].header.env < |b| && SameShape(b[g[f].header.env], b[e]);
      assert SameShape(b[e], c[e]) && SameShape(b[g[f].header.env], c[g[f].header.env]);
      assert SameShape(c[g[f].header.env], c[e]);
    }
  }

  /** The store an outcome carries. */
  function After(o: Out): Option<Heap> {
    match o
    case Norm(_, h) => Some(h)
    case Brk(h) => Some(h)
    case Cont(h) => Some(h)
    case Ret(_, h) => Some(h)
    case Thr(_, _, h) => Some(h)
    case Abort(_, _, h, _) => Some(h)
    case Error(h) => Some(h)
    case _ => None
  }

  ghost predicate Leaves(g: seq<FunDef>, h: Heap, o: Out, kept: set<nat>) {
    After(o).Some? ==> Follows(g, h, After(o).value, kept)
  }

  /** Where execution starts: an environment outside the kept set. */
  ghost predicate Enters(g: seq<FunDef>, h: Heap, env: nat, kept: set<nat>) {
    Sealed(g, h, kept) && env !in kept
  }

  lemma LeavesLater(g: seq<FunDef>, a: Heap, b: Heap, o: Out, kept: set<nat>)
    requires Follows(g, a, b, kept) && Leaves(g, b, o, kept)
    ensures Leaves(g, a, o, kept)
  {
    hide Follows;
    if After(o).Some? {
      FollowsTrans(g, a, b, After(o).value, kept);
    }
  }

  lemma EntersLater(g: seq<FunDef>, a: Heap, b: Heap, env: nat, kept: set<nat>)
    requires Enters(g, a, env, kept) && Follows(g, a, b, kept)
    ensures Enters(g, b, env, kept)
  {
  }

  // ----- writes and activations -----

  lemma {:induction false} WalkStaysOut(g: seq<FunDef>, h: Heap, env: nat, hops: nat, kept: set<nat>)
    requires Enters(g, h, env, kept)
    ensures Walk(h, env, hops).Some? ==> Walk(h, env, hops).value !in kept
    decreases hops
  {
    if env < |h| && hops > 0 && h[env].outer.Some? {
      WalkStaysOut(g, h, h[env].outer.value, hops - 1, kept);
    }
  }

  lemma WriteFollows(g: seq<FunDef>, h: Heap, env: nat, x: Off, v: Val, kept: set<nat>)
    requires Enters(g, h, env, kept)
    ensures WriteVar(h, env, x, v).Some? ==> Follows(g, h, WriteVar(h, env, x, v).value, kept)
  {
    WalkStaysOut(g, h, env, x.hops, kept);
  }

  lemma ActivateFollows(g: seq<FunDef>, h: Heap, f: nat, args: seq<Val>, kept: set<nat>)
    requires Sealed(g, h, kept) && f < |g|
    ensures var r := Activate(h, g[f].header, args);
            r.Some? ==> Follows(g, h, r.value, kept) && Enters(g, r.value, |h|, kept)
  {
    var r := Activate(h, g[f].header, args);
    if r.Some? {
      assert SameShape(r.value[g[f].header.env], r.value[|h|]);
      assert FromBlueprint(g, r.value, |h|);
    }
  }

  // ----- expressions -----

  lemma {:induction false} EvalIsolated(g: seq<FunDef>, fuel: nat, e: Expr, h: Heap, env: nat, kept: set<nat>)
    requires Enters(g, h, env, kept)
    ensures Leaves(g, h, Eval(g, fuel, e, h, env), kept)
    decreases fuel, 1, e, 1
  {
    hide Follows;
    FollowsSelf(g, h, kept);
    match e
    case Literal(_) =>
    case Ident(_) =>
    case Binary(_, _, _) => BothIsolated(g, fuel, e, h, env, kept);
    case Comparison(_, _, _) => BothIsolated(g, fuel, e, h, env, kept);
    case Augmented(_, x, r) =>
      EvalIsolated(g, fuel, r, h, env, kept);
      var o := Eval(g, fuel, r, h, env);
      if o.Norm? {
        EntersLater(g, h, o.h, env, kept);
        forall v ensures WriteVar(o.h, env, x, v).Some? ==> Follows(g, h, WriteVar(o.h, env, x, v).value, kept) {
          WriteLater(g, h, o.h, env, x, v, kept);
        }
      }
    case Logic(_, _, _) => ShortIsolated(g, fuel, e, h, env, kept);
    case Boolean(_, _, _) => ShortIsolated(g, fuel, e, h, env, kept);
    case Negate(a) => EvalIsolated(g, fuel, a, h, env, kept);
    case Complement(a) => EvalIsolated(g, fuel, a, h, env, kept);
    case IncDec(_, x) =>
      forall v ensures WriteVar(h, env, x, v).Some? ==> Follows(g, h, WriteVar(h, env, x, v).value, kept) {
        WriteFollows(g, h, env, x, v, kept);
      }
    case AssignTo(x, a) => PutIsolated(g, fuel, x, a, h, env, kept);
    case Call(_, _) => CallIsolated(g, fuel, e, h, env, kept);
  }

  lemma WriteLater(g: seq<FunDef>, a: Heap, b: Heap, env: nat, x: Off, v: Val, kept: set<nat>)
    requires Follows(g, a, b, kept) && Enters(g, b, env, kept)
    ensures WriteVar(b, env, x, v).Some? ==> Follows(g, a, WriteVar(b, env, x, v).value, kept)
  {
    hide Follows;
    WriteFollows(g, b, env, x, v, kept);
    if WriteVar(b, env, x, v).Some? {
      FollowsTrans(g, a, b, WriteVar(b, env, x, v).value, kept);
    }
  }

  lemma PutIsolated(g: seq<FunDef>, fuel: nat, x: Off, e: Expr, h: Heap, env: nat, kept: set<nat>)
    requires Enters(g, h, env, kept)
    ensures var o := Eval(g, fuel, e, h, env);
            Leaves(g, h, if o.Norm? then Put(o.res, o.h, env, x) else o, kept)
    decreases fuel, 1, e, 2
  {
    hide Follows, Eval;
    EvalIsolated(g, fuel, e, h, env, kept);
    var o := Eval(g, fuel, e, h, env);
    if o.Norm? {
      EntersLater(g, h, o.h, env, kept);
      forall v ensures WriteVar(o.h, env, x, v).Some? ==> Follows(g, h, WriteVar(o.h, env, x, v).value, kept) {
        WriteLater(g, h, o.h, env, x, v, kept);
      }
    }
  }

  lemma BothIsolated(g: seq<FunDef>, fuel: nat, e: Expr, h: Heap, env: nat, kept: set<nat>)
    requires (e.Binary? || e.Comparison?) && Enters(g, h, env, kept)
    ensures var r := EvalBoth(g, fuel, e, h, env);
            if r.Both? then Follows(g, h, r.h, kept) else Leaves(g, h, r.o, kept)
    decreases fuel, 1, e, 0
  {
    hide Follows, Eval;
    EvalIsolated(g, fuel, e.l, h, env, kept);
    var o1 := Eval(g, fuel, e.l, h, env);
    if o1.Norm? {
      EntersLater(g, h, o1.h, env, kept);
      EvalIsolated(g, fuel, e.r, o1.h, env, kept);
      LeavesLater(g, h, o1.h, Eval(g, fuel, e.r, o1.h, env), kept);
    }
  }

  lemma ShortIsolated(g: seq<FunDef>, fuel: nat, e: Expr, h: Heap, env: nat, kept: set<nat>)
    requires (e.Logic? || e.Boolean?) && Enters(g, h, env, kept)
    ensures Leaves(g, h, EvalShort(g, fuel, e, h, env), kept)
    decreases fuel, 1, e, 0
  {
    hide Follows, Eval;
    EvalIsolated(g, fuel, e.l, h, env, kept);
    var o1 := Eval(g, fuel, e.l, h, env);
    if o1.Norm? {
      EntersLater(g, h, o1.h, env, kept);
      EvalIsolated(g, fuel, e.r, o1.h, env, kept);
      LeavesLater(g, h, o1.h, Eval(g, fuel, e.r, o1.h, env), kept);
    }
  }

  lemma {:induction false} ArgsIsolated(g: seq<FunDef>, fuel: nat, es: Exprs, h: Heap, env: nat, kept: set<nat>)
    requires Enters(g, h, env, kept)
    ensures var r := EvalArgs(g, fuel, es, h, env);
            if r.Args? then Follows(g, h, r.h, kept) else Leaves(g, h, r.o, kept)
    decreases fuel, 1, es, 0
  {
    hide Follows, Eval;
    match es
    case NoExpr => FollowsSelf(g, h, kept);
    case Exprs(e, rest) =>
      EvalIsolated(g, fuel, e, h, env, kept);
      var o := Eval(g, fuel, e, h, env);
      if o.Norm? {
        EntersLater(g, h, o.h, env, kept);
        ArgsIsolated(g, fuel, rest, o.h, env, kept);
        var r := EvalArgs(g, fuel, rest, o.h, env);
        if r.Args? {
          FollowsTrans(g, h, o.h, r.h, kept);
        } else {
          LeavesLater(g, h, o.h, r.o, kept);
        }
      }
  }

  lemma CallIsolated(g: seq<FunDef>, fuel: nat, e: Expr, h: Heap, env: nat, kept: set<nat>)
    requires e.Call? && Enters(g, h, env, kept)
    ensures Leaves(g, h, EvalCall(g, fuel, e, h, env), kept)
    decreases fuel, 1, e, 0
  {
    hide Follows, Eval, EvalArgs, Invoke;
    EvalIsolated(g, fuel, e.callee, h, env, kept);
    var o1 := Eval(g, fuel, e.callee, h, env);
    if o1.Norm? {
      EntersLater(g, h, o1.h, env, kept);
      ArgsIsolated(g, fuel, e.args, o1.h, env, kept);
      var r := EvalArgs(g, fuel, e.args, o1.h, env);
      if r.Args? {
        FollowsTrans(g, h, o1.h, r.h, kept);
        EntersLater(g, h, r.h, env, kept);
        forall fval, vs ensures Leaves(g, h, Invoke(g, fuel, fval, vs, r.h), kept) {
          CallKeeps(g, fuel, fval, vs, r.h, kept);
          LeavesLater(g, h, r.h, Invoke(g, fuel, fval, vs, r.h), kept);
        }
      } else {
        LeavesLater(g, h, o1.h, r.o, kept);
      }
    }
  }

  /** A call changes only environments it can reach through the outer links of function environments: every
      other one, the caller's activations included, is as before, slot by slot. */
  lemma {:induction false} CallKeeps(g: seq<FunDef>, fuel: nat, fval: Val, args: seq<Val>, h: Heap, kept: set<nat>)
    requires Sealed(g, h, kept)
    ensures Leaves(g, h, Invoke(g, fuel, fval, args, h), kept)
    decreases fuel, 0, 0, 0
  {
    if fval.Func? && fval.id < |g| && ArityOk(g[fval.id].header, |args|) && fuel > 0 {
      hide Follows, Exec, Activate;
      var f := g[fval.id];
      ActivateFollows(g, h, fval.id, args, kept);
      var h1 := Activate(h, f.header, args);
      if h1.Some? {
        ExecIsolated(g, fuel - 1, Ast.Seq(f.prologue, f.body), h1.value, |h|, kept);
        LeavesLater(g, h, h1.value, Exec(g, fuel - 1, Ast.Seq(f.prologue, f.body), h1.value, |h|), kept);
      }
    }
  }

  // ----- statements -----

  lemma {:induction false} ExecIsolated(g: seq<FunDef>, fuel: nat, s: Stmt, h: Heap, env: nat, kept: set<nat>)
    requires Enters(g, h, env, kept)
    ensures Leaves(g, h, Exec(g, fuel, s, h, env), kept)
    decreases fuel, 1, s, 6
  {
    hide Follows, Eval;
    FollowsSelf(g, h, kept);
    match s
    case Skip =>
    case Seq(s1, s2) => SeqIsolated(g, fuel, s1, s2, h, env, kept);
    case Block(b) => ExecIsolated(g, fuel, b, h, env, kept);
    case Do(e) => EvalIsolated(g, fuel, e, h, env, kept);
    case Assign(x, e) => PutIsolated(g, fuel, x, e, h, env, kept);
    case AssignUnless(x, e) => PutIsolated(g, fuel, x, e, h, env, kept);
    case If(bs) => IfIsolated(g, fuel, bs, h, env, kept);
    case Loop(_, _, _, _) => LoopIsolated(g, fuel, s, h, env, kept);
    case Switch(_, _) => SwitchIsolated(g, fuel, s, h, env, kept);
    case Break =>
    case Continue =>
    case Return =>
    case ReturnVal(e) => EvalIsolated(g, fuel, e, h, env, kept);
    case Throw(e) => EvalIsolated(g, fuel, e, h, env, kept);
    case Try(_, _, _, _) => TryIsolated(g, fuel, s, h, env, kept);
    case Catches(_, _, _) =>
    case FunDecl(_, _, _) =>
  }

  /** Two statements in sequence. */
  lemma SeqIsolated(g: seq<FunDef>, fuel: nat, s1: Stmt, s2: Stmt, h: Heap, env: nat, kept: set<nat>)
    requires Enters(g, h, env, kept)
    ensures var o := Exec(g, fuel, s1, h, env);
            Leaves(g, h, o, kept) && (o.Norm? ==> Leaves(g, h, Exec(g, fuel, s2, o.h, env), kept))
    decreases fuel, 1, Ast.Seq(s1, s2), 0
  {
    hide Follows, Exec;
    ExecIsolated(g, fuel, s1, h, env, kept);
    var o := Exec(g, fuel, s1, h, env);
    if o.Norm? {
      EntersLater(g, h, o.h, env, kept);
      ExecIsolated(g, fuel, s2, o.h, env, kept);
      LeavesLater(g, h, o.h, Exec(g, fuel, s2, o.h, env), kept);
    }
  }

  lemma {:induction false} IfIsolated(g: seq<FunDef>, fuel: nat, bs: Branches, h: Heap, env: nat, kept: set<nat>)
    requires Enters(g, h, env, kept)
    ensures Leaves(g, h, ExecIf(g, fuel, bs, h, env), kept)
    decreases fuel, 1, bs, 0
  {
    hide Follows, Eval, Exec;
    match bs
    case Else(s) => ExecIsolated(g, fuel, s, h, env, kept);
    case Branch(c, block, rest) =>
      EvalIsolated(g, fuel, c, h, env, kept);
      var o := Eval(g, fuel, c, h, env);
      if o.Norm? {
        EntersLater(g, h, o.h, env, kept);
        ExecIsolated(g, fuel, block, o.h, env, kept);
        LeavesLater(g, h, o.h, Exec(g, fuel, block, o.h, env), kept);
        IfIsolated(g, fuel, rest, o.h, env, kept);
        LeavesLater(g, h, o.h, ExecIf(g, fuel, rest, o.h, env), kept);
      }
  }

  lemma LoopIsolated(g: seq<FunDef>, fuel: nat, s: Stmt, h: Heap, env: nat, kept: set<nat>)
    requires s.Loop? && Enters(g, h, env, kept)
    ensures Leaves(g, h, Exec(g, fuel, s, h, env), kept)
    decreases fuel, 1, s, 4
  {
    hide Follows, Eval, Iterate;
    if WellMade(s) && fuel > 0 {
      if s.cond.Always? {
        IterateIsolated(g, fuel, s, h, env, kept);
      } else {
        EvalIsolated(g, fuel, s.cond.e, h, env, kept);
        var o := Eval(g, fuel, s.cond.e, h, env);
        if o.Norm? {
          EntersLater(g, h, o.h, env, kept);
          IterateIsolated(g, fuel, s, o.h, env, kept);
          LeavesLater(g, h, o.h, Iterate(g, fuel, s, o.h, env), kept);
        }
      }
    }
  }

  lemma IterateIsolated(g: seq<FunDef>, fuel: nat, s: Stmt, h: Heap, env: nat, kept: set<nat>)
    requires s.Loop? && fuel > 0 && Enters(g, h, env, kept)
    ensures Leaves(g, h, Iterate(g, fuel, s, h, env), kept)
    decreases fuel, 1, s, 3
  {
    hide Follows, Exec, Repeat;
    ExecIsolated(g, fuel, s.body, h, env, kept);
    var o := Exec(g, fuel, s.body, h, env);
    if o.Norm? || o.Cont? {
      EntersLater(g, h, o.h, env, kept);
      RepeatIsolated(g, fuel, s, o.h, env, kept);
      LeavesLater(g, h, o.h, Repeat(g, fuel, s, o.h, env), kept);
    }
  }

  lemma RepeatIsolated(g: seq<FunDef>, fuel: nat, s: Stmt, h: Heap, env: nat, kept: set<nat>)
    requires s.Loop? && fuel > 0 && Enters(g, h, env, kept)
    ensures Leaves(g, h, Repeat(g, fuel, s, h, env), kept)
    decreases fuel, 1, s, 2
  {
    hide Follows, Exec;
    ExecIsolated(g, fuel, s.update, h, env, kept);
    var o := Exec(g, fuel, s.update, h, env);
    if o.Norm? {
      EntersLater(g, h, o.h, env, kept);
      ExecIsolated(g, fuel - 1, s, o.h, env, kept);
      LeavesLater(g, h, o.h, Exec(g, fuel - 1, s, o.h, env), kept);
    }
  }

  lemma SwitchIsolated(g: seq<FunDef>, fuel: nat, s: Stmt, h: Heap, env: nat, kept: set<nat>)
    requires s.Switch? && Enters(g, h, env, kept)
    ensures Leaves(g, h, Exec(g, fuel, s, h, env), kept)
    decreases fuel, 1, s, 4
  {
    hide Follows, Eval, Select, ExecCases;
    EvalIsolated(g, fuel, s.e, h, env, kept);
    var o := Eval(g, fuel, s.e, h, env);
    if Defaults(s.cases) <= 1 && o.Norm? {
      EntersLater(g, h, o.h, env, kept);
      SelectIsolated(g, fuel, s.cases, o.res, o.h, env, kept);
      var c := Select(g, fuel, s.cases, o.res, o.h, env);
      if c.ChoiceFail? {
        LeavesLater(g, h, o.h, c.o, kept);
      } else {
        FollowsTrans(g, h, o.h, c.h, kept);
        EntersLater(g, h, c.h, env, kept);
        var skip := if c.Chosen? then c.skip else DefaultIndex(s.cases);
        CasesIsolated(g, fuel, s.cases, skip, c.h, env, kept);
        LeavesLater(g, h, c.h, ExecCases(g, fuel, s.cases, skip, c.h, env), kept);
      }
    }
  }

  lemma {:induction false} SelectIsolated(g: seq<FunDef>, fuel: nat, cs: Cases, r: Res, h: Heap, env: nat,
                                          kept: set<nat>)
    requires Enters(g, h, env, kept)
    ensures var c := Select(g, fuel, cs, r, h, env);
            if c.ChoiceFail? then Leaves(g, h, c.o, kept) else Follows(g, h, c.h, kept)
    decreases fuel, 1, cs, 0
  {
    hide Follows, Eval;
    match cs
    case NoCase => FollowsSelf(g, h, kept);
    case DefaultCase(_, rest) => SelectIsolated(g, fuel, rest, r, h, env, kept);
    case Case(lbl, _, rest) =>
      EvalIsolated(g, fuel, lbl, h, env, kept);
      var o := Eval(g, fuel, lbl, h, env);
      if o.Norm? {
        EntersLater(g, h, o.h, env, kept);
        SelectIsolated(g, fuel, rest, r, o.h, env, kept);
        var c := Select(g, fuel, rest, r, o.h, env);
        if c.ChoiceFail? {
          LeavesLater(g, h, o.h, c.o, kept);
        } else {
          FollowsTrans(g, h, o.h, c.h, kept);
        }
      }
  }

  lemma {:induction false} CasesIsolated(g: seq<FunDef>, fuel: nat, cs: Cases, skip: nat, h: Heap, env: nat,
                                         kept: set<nat>)
    requires Enters(g, h, env, kept)
    ensures Leaves(g, h, ExecCases(g, fuel, cs, skip, h, env), kept)
    decreases fuel, 1, cs, 0
  {
    hide Follows, Exec;
    if cs.NoCase? {
      FollowsSelf(g, h, kept);
    } else if skip > 0 {
      CasesIsolated(g, fuel, cs.rest, skip - 1, h, env, kept);
    } else {
      ExecIsolated(g, fuel, cs.body, h, env, kept);
      var o := Exec(g, fuel, cs.body, h, env);
      if o.Norm? {
        EntersLater(g, h, o.h, env, kept);
        CasesIsolated(g, fuel, cs.rest, 0, o.h, env, kept);
        LeavesLater(g, h, o.h, ExecCases(g, fuel, cs.rest, 0, o.h, env), kept);
      }
    }
  }

  lemma TryIsolated(g: seq<FunDef>, fuel: nat, s: Stmt, h: Heap, env: nat, kept: set<nat>)
    requires s.Try? && Enters(g, h, env, kept)
    ensures Leaves(g, h, ExecTry(g, fuel, s, h, env), kept)
    decreases fuel, 1, s, 5
  {
    hide Follows, ExecGuarded, ExecHandler;
    GuardedIsolated(g, fuel, s, h, env, kept);
    var o := ExecGuarded(g, fuel, s, h, env);
    if o.Thr? {
      HandlerIsolated(g, fuel, s, o.ex, h, o.h, env, kept);
    }
  }

  lemma GuardedIsolated(g: seq<FunDef>, fuel: nat, s: Stmt, h: Heap, env: nat, kept: set<nat>)
    requires s.Try? && Enters(g, h, env, kept)
    ensures Leaves(g, h, ExecGuarded(g, fuel, s, h, env), kept)
    decreases fuel, 1, s, 3
  {
    hide Follows, Exec;
    ExecIsolated(g, fuel, s.body, h, env, kept);
    var o := Exec(g, fuel, s.body, h, env);
    if o.Norm? {
      FinallyIsolated(g, fuel, s, h, o.h, env, kept);
    }
  }

  lemma {:induction false} HandlerIsolated(g: seq<FunDef>, fuel: nat, s: Stmt, ex: Val, h: Heap, h1: Heap, env: nat,
                                           kept: set<nat>)
    requires s.Try? && Enters(g, h, env, kept) && Follows(g, h, h1, kept)
    ensures Leaves(g, h, ExecHandler(g, fuel, s, ex, h1, env), kept)
    decreases fuel, 1, s, 4
  {
    hide Follows, ExecCaught;
    CaughtIsolated(g, fuel, s, ex, h, h1, env, kept);
    var o := ExecCaught(g, fuel, s, ex, h1, env);
    if o.Thr? && o.dirty && fuel > 0 {
      HandlerIsolated(g, fuel - 1, s, o.ex, h, o.h, env, kept);
    }
  }

  lemma CaughtIsolated(g: seq<FunDef>, fuel: nat, s: Stmt, ex: Val, h: Heap, h1: Heap, env: nat, kept: set<nat>)
    requires s.Try? && Enters(g, h, env, kept) && Follows(g, h, h1, kept)
    ensures Leaves(g, h, ExecCaught(g, fuel, s, ex, h1, env), kept)
    decreases fuel, 1, s, 3
  {
    hide Follows, ExecClauses, Exec, WriteVar;
    EntersLater(g, h, h1, env, kept);
    WriteLater(g, h, h1, env, s.x, ex, kept);
    var h2 := WriteVar(h1, env, s.x, ex);
    if h2.Some? {
      EntersLater(g, h, h2.value, env, kept);
      ClausesIsolated(g, fuel, s.handler, h2.value, env, kept);
      var o := ExecClauses(g, fuel, s.handler, h2.value, env);
      LeavesLater(g, h, h2.value, o, kept);
      if o.Norm? {
        FinallyIsolated(g, fuel, s, h, o.h, env, kept);
      }
    }
  }

  lemma {:induction false} ClausesIsolated(g: seq<FunDef>, fuel: nat, s: Stmt, h: Heap, env: nat, kept: set<nat>)
    requires Enters(g, h, env, kept)
    ensures Leaves(g, h, ExecClauses(g, fuel, s, h, env), kept)
    decreases fuel, 1, s, 7
  {
    hide Follows, Exec;
    if s.Catches? {
      ExecIsolated(g, fuel, s.first, h, env, kept);
      var o := Exec(g, fuel, s.first, h, env);
      if o.Norm? {
        EntersLater(g, h, o.h, env, kept);
        ClausesIsolated(g, fuel, s.rest, o.h, env, kept);
        LeavesLater(g, h, o.h, ExecClauses(g, fuel, s.rest, o.h, env), kept);
      }
    } else {
      ExecIsolated(g, fuel, s, h, env, kept);
    }
  }

  lemma FinallyIsolated(g: seq<FunDef>, fuel: nat, s: Stmt, h: Heap, h1: Heap, env: nat, kept: set<nat>)
    requires s.Try? && Enters(g, h, env, kept) && Follows(g, h, h1, kept)
    ensures Leaves(g, h, Exec(g, fuel, s.finalizer, h1, env), kept)
    decreases fuel, 1, s, 2
  {
    hide Follows, Exec;
    EntersLater(g, h, h1, env, kept);
    ExecIsolated(g, fuel, s.finalizer, h1, env, kept);
    LeavesLater(g, h, h1, Exec(g, fuel, s.finalizer, h1, env), kept);
  }

  // ----- activations -----

  /** An activation no function environment hangs off and no other environment links to. */
  ghost predicate Private(g: seq<FunDef>, h: Heap, env: nat) {
    && env < |h|
    && (forall e :: 0 <= e < |h| ==> h[e].outer != Some(env))
    && (forall f :: 0 <= f < |g| ==> g[f].header.env < |h|)
  }

  /** The caller's own activation survives any call, recursive ones included, cell for cell: the callee's
      result reaches it only through the result temporary. */
  lemma CallerUntouched(g: seq<FunDef>, fuel: nat, fval: Val, args: seq<Val>, h: Heap, env: nat)
    requires Private(g, h, env)
    ensures var o := Invoke(g, fuel, fval, args, h);
            After(o).Some? ==> env < |After(o).value| && After(o).value[env] == h[env]
  {
    hide Invoke;
    assert Sealed(g, h, {env});
    CallKeeps(g, fuel, fval, args, h, {env});
  }

  /** A fresh activation has the blueprint's shape, is nobody's outer environment, and differs from the
      blueprint exactly in the bound parameters. */
  lemma ActivationFresh(g: seq<FunDef>, f: nat, args: seq<Val>, h: Heap)
    requires f < |g| && Activate(h, g[f].header, args).Some?
    requires forall e :: 0 <= e < |h| && h[e].outer.Some? ==> h[e].outer.value < |h|
    requires forall k :: 0 <= k < |g| ==> g[k].header.env < |h|
    ensures var h1 := Activate(h, g[f].header, args).value;
            var header := g[f].header;
            && |h1| == |h| + 1 && h1[..|h|] == h
            && SameShape(h[header.env], h1[|h|])
            && Private(g, h1, |h|)
            && forall i :: 0 <= i < |h1[|h|].cells| ==>
                 h1[|h|].cells[i].v == (if i < header.params && i < |args| then args[i]
                                        else if header.variadic && i == header.params
                                        then Arr(if |args| < header.params then [] else args[header.params..])
                                        else h[header.env].cells[i].v)
  {
  }
}
