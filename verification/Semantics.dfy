/** What a program means, without reference to code addresses, temporaries or the call stack.

    A fuelled big-step evaluator.  An expression yields a result that is read only when the enclosing
    operator executes: `Ref(x)` for a variable, `Held(v)` for a value held in a constant or a temporary,
    and `Junk` for a temporary that the operator left unwritten.  `Stuck` marks programs outside the
    fragment (an unwritten result is used, an assertion of the source would fail, control jumps out of a
    try block, a handler is entered in the frame of a callee, ...); nothing is claimed about those.
    `Timeout` means the fuel, which bounds calls, loop iterations and returns to a handler in depth, was not
    enough. */
module Semantics {
  import opened Values
  import opened Store
  import opened Ast

  datatype Res = Ref(x: Off) | Held(v: Val) | Junk

  /** `Thr` is an exception leaving the fragment inside its own frame, dirty when it was thrown by a catch
      block or a finally block after it; `Abort` is one that has left at least one call, dirty likewise, with
      the environment it was thrown in. */
  datatype Out =
    | Norm(res: Res, h: Heap)
    | Brk(h: Heap)
    | Cont(h: Heap)
    | Ret(res: Res, h: Heap)
    | Thr(ex: Val, dirty: bool, h: Heap)
    | Abort(ex: Val, dirty: bool, h: Heap, thrower: nat)
    | Error(h: Heap)
    | Stuck
    | Timeout

  datatype ArgsOut = Args(rs: seq<Res>, h: Heap) | ArgsFail(o: Out)

  datatype Choice = Chosen(skip: nat, h: Heap) | NoMatch(h: Heap) | ChoiceFail(o: Out)

  function LitVal(l: Lit): Val {
    match l
    case NullLit => Null
    case TrueLit => Bool(true)
    case FalseLit => Bool(false)
    case IntLit(n) => Int(n)
  }

  /** Reading a result at the moment it is used. */
  function Deref(r: Res, h: Heap, env: nat): Option<Val> {
    match r
    case Ref(x) => ReadVar(h, env, x)
    case Held(v) => Some(v)
    case Junk => None
  }

  function DerefAll(rs: seq<Res>, h: Heap, env: nat): Option<seq<Val>> {
    if rs == [] then Some([])
    else
      match (Deref(rs[0], h, env), DerefAll(rs[1..], h, env))
      case (Some(v), Some(vs)) => Some([v] + vs)
      case _ => None
  }

  /** An operator whose result goes to a fresh temporary. */
  function Produce(e: Effect, h: Heap): Out {
    match e
    case Write(v) => Norm(Held(v), h)
    case NoWrite => Norm(Junk, h)
    case Raise(ex) => Thr(ex, false, h)
    case Fail => Error(h)
    case Foreign => Stuck
  }

  /** An operator whose result goes back to the variable `x`. */
  function Update(e: Effect, h: Heap, env: nat, x: Off): Out {
    match e
    case Write(v) =>
      (match WriteVar(h, env, x, v)
       case Some(h1) => Norm(Ref(x), h1)
       case None => Stuck)
    case NoWrite => Norm(Ref(x), h)
    case Raise(ex) => Thr(ex, false, h)
    case Fail => Error(h)
    case Foreign => Stuck
  }

  /** Plain assignment of an evaluated right-hand side. */
  function Put(r: Res, h: Heap, env: nat, x: Off): Out {
    match (Assignable(h, env, x), Deref(r, h, env))
    case (Some(true), Some(v)) =>
      (match WriteVar(h, env, x, v)
       case Some(h1) => Norm(Held(v), h1)
       case None => Stuck)
    case (Some(false), Some(_)) => Error(h)
    case _ => Stuck
  }

  function Bump(step: Step1, x: Off, h: Heap, env: nat): Out {
    match ReadVar(h, env, x)
    case None => Stuck
    case Some(v) =>
      match Stepped(step, v)
      case Write(w) =>
        (match WriteVar(h, env, x, w)
         case Some(h1) => Norm(Held(if IsPre(step) then w else v), h1)
         case None => Stuck)
      case Raise(ex) => Thr(ex, false, h)
      case Fail => Error(h)
      case _ => Stuck
  }

  /** An expression whose value is read as soon as it has been computed. */
  datatype Got = Got(v: Val, h: Heap) | Lost(o: Out)

  function Demand(o: Out, env: nat): (r: Got)
    ensures r.Lost? ==> !r.o.Norm?
  {
    if !o.Norm? then Lost(o)
    else
      match Deref(o.res, o.h, env)
      case None => Lost(Stuck)
      case Some(v) => Got(v, o.h)
  }

  /** Two operands, evaluated from left to right and read after both. */
  datatype Both = Both(a: Val, b: Val, h: Heap) | Neither(o: Out)

  /** The value of a short-circuit expression when its first operand decides it. */
  function Decided(e: Expr, v: Val): Option<Val>
    requires e.Logic? || e.Boolean?
  {
    if Truthy(v) == e.isAnd then None
    else if e.Boolean? then Some(Bool(Truthy(v)))
    else Some(if e.isAnd then Null else v)
  }

  /** Its result once the second operand has been tested: `or` writes nothing for a falsy one. */
  function Settled(e: Expr, v: Val): Res
    requires e.Logic? || e.Boolean?
  {
    if e.Boolean? then Held(Bool(Truthy(v)))
    else if Truthy(v) then Held(v)
    else if e.isAnd then Held(Null)
    else Junk
  }

  // ----- expressions -----

  function Eval(g: seq<FunDef>, fuel: nat, e: Expr, h: Heap, env: nat): (o: Out)
    ensures !o.Brk? && !o.Cont? && !o.Ret?
    decreases fuel, 1, e
  {
    match e
    case Literal(l) => Norm(Held(LitVal(l)), h)
    case Ident(x) => Norm(Ref(x), h)
    case Binary(op, _, _) =>
      (match EvalBoth(g, fuel, e, h, env)
       case Both(a, b, h1) => Produce(Arith(op, a, b), h1)
       case Neither(o) => o)
    case Comparison(cmp, _, _) =>
      (match EvalBoth(g, fuel, e, h, env)
       case Both(a, b, h1) => Produce(Compare(cmp, a, b), h1)
       case Neither(o) => o)
    case Augmented(op, x, r) =>
      (match Demand(Eval(g, fuel, r, h, env), env)
       case Got(b, h1) =>
         (match ReadVar(h1, env, x)
          case Some(a) => Update(Arith(op, a, b), h1, env, x)
          case None => Stuck)
       case Lost(o) => o)
    case Logic(_, _, _) => EvalShort(g, fuel, e, h, env)
    case Boolean(_, _, _) => EvalShort(g, fuel, e, h, env)
    case Negate(a) =>
      (match Demand(Eval(g, fuel, a, h, env), env)
       case Got(v, h1) => Produce(Not(v), h1)
       case Lost(o) => o)
    case Complement(a) =>
      (match Demand(Eval(g, fuel, a, h, env), env)
       case Got(v, h1) => Produce(BwNot(v), h1)
       case Lost(o) => o)
    case IncDec(step, x) => Bump(step, x, h, env)
    case AssignTo(x, a) =>
      var o := Eval(g, fuel, a, h, env);
      if o.Norm? then Put(o.res, o.h, env, x) else o
    case Call(_, _) => EvalCall(g, fuel, e, h, env)
  }

  function EvalBoth(g: seq<FunDef>, fuel: nat, e: Expr, h: Heap, env: nat): (r: Both)
    requires e.Binary? || e.Comparison?
    ensures r.Neither? ==> !r.o.Norm? && !r.o.Brk? && !r.o.Cont? && !r.o.Ret?
    decreases fuel, 1, e, 0
  {
    var o1 := Eval(g, fuel, e.l, h, env);
    if !o1.Norm? then Neither(o1)
    else
      var o2 := Eval(g, fuel, e.r, o1.h, env);
      if !o2.Norm? then Neither(o2)
      else
        match (Deref(o1.res, o2.h, env), Deref(o2.res, o2.h, env))
        case (Some(a), Some(b)) => Both(a, b, o2.h)
        case _ => Neither(Stuck)
  }

  function EvalShort(g: seq<FunDef>, fuel: nat, e: Expr, h: Heap, env: nat): (o: Out)
    requires e.Logic? || e.Boolean?
    ensures !o.Brk? && !o.Cont? && !o.Ret?
    decreases fuel, 1, e, 0
  {
    match Demand(Eval(g, fuel, e.l, h, env), env)
    case Lost(o) => o
    case Got(a, h1) =>
      if Decided(e, a).Some? then Norm(Held(Decided(e, a).value), h1)
      else
        match Demand(Eval(g, fuel, e.r, h1, env), env)
        case Lost(o) => o
        case Got(b, h2) => Norm(Settled(e, b), h2)
  }

  /** Callee first, then the arguments; all of them are read when the call is made. */
  function EvalCall(g: seq<FunDef>, fuel: nat, e: Expr, h: Heap, env: nat): (o: Out)
    requires e.Call?
    ensures !o.Brk? && !o.Cont? && !o.Ret?
    decreases fuel, 1, e, 0
  {
    var o1 := Eval(g, fuel, e.callee, h, env);
    if !o1.Norm? then o1
    else
      match EvalArgs(g, fuel, e.args, o1.h, env)
      case ArgsFail(o) => o
      case Args(rs, h2) =>
        match (Deref(o1.res, h2, env), DerefAll(rs, h2, env))
        case (Some(fval), Some(vs)) => Invoke(g, fuel, fval, vs, h2)
        case _ => Stuck
  }

  function EvalArgs(g: seq<FunDef>, fuel: nat, es: Exprs, h: Heap, env: nat): (r: ArgsOut)
    ensures r.ArgsFail? ==> !r.o.Norm? && !r.o.Brk? && !r.o.Cont? && !r.o.Ret?
    decreases fuel, 1, es
  {
    match es
    case NoExpr => Args([], h)
    case Exprs(e, rest) =>
      var o := Eval(g, fuel, e, h, env);
      if !o.Norm? then ArgsFail(o)
      else
        match EvalArgs(g, fuel, rest, o.h, env)
        case Args(rs, h2) => Args([o.res] + rs, h2)
        case f => f
  }

  /** A call of the value `fval`: the callee runs in a fresh activation at the end of the heap. */
  function Invoke(g: seq<FunDef>, fuel: nat, fval: Val, args: seq<Val>, h: Heap): (o: Out)
    ensures !o.Brk? && !o.Cont? && !o.Ret?
    decreases fuel, 0
  {
    if !fval.Func? then Error(h)
    else if fval.id >= |g| then Stuck
    else
      var f := g[fval.id];
      if !ArityOk(f.header, |args|) then Error(h)
      else
        match Activate(h, f.header, args)
        case None => Stuck
        case Some(h1) =>
          if fuel == 0 then Timeout
          else
            match Exec(g, fuel - 1, Ast.Seq(f.prologue, f.body), h1, |h|)
            case Norm(_, h2) => Norm(Junk, h2)
            case Ret(r, h2) =>
              if r.Junk? then Norm(Junk, h2)
              else
                (match Deref(r, h2, |h|)
                 case Some(v) => Norm(Held(v), h2)
                 case None => Stuck)
            case Thr(ex, dirty, h2) => Abort(ex, dirty, h2, |h|)
            case Brk(_) => Stuck
            case Cont(_) => Stuck
            case o => o
  }

  // ----- statements -----

  /** The default of a parameter is assigned behind a jump of a fixed length, so it must emit no code. */
  predicate Inline(e: Expr) {
    e.Literal? || e.Ident?
  }

  function Exec(g: seq<FunDef>, fuel: nat, s: Stmt, h: Heap, env: nat): Out
    decreases fuel, 1, s, 9
  {
    match s
    case Skip => Norm(Junk, h)
    case Seq(s1, s2) =>
      (match Exec(g, fuel, s1, h, env)
       case Norm(_, h1) => Exec(g, fuel, s2, h1, env)
       case o => o)
    case Block(b) => Exec(g, fuel, b, h, env)
    case Do(e) => Discard(Eval(g, fuel, e, h, env))
    case Assign(x, e) =>
      var o := Eval(g, fuel, e, h, env);
      if o.Norm? then Discard(Put(o.res, o.h, env, x)) else o
    case AssignUnless(x, e) =>
      (match ReadVar(h, env, x)
       case None => Stuck
       case Some(v) =>
         if !Inline(e) then Stuck
         else if Truthy(v) then Norm(Junk, h)
         else
           var o := Eval(g, fuel, e, h, env);
           if o.Norm? then Discard(Put(o.res, o.h, env, x)) else o)
    case If(branches) => ExecIf(g, fuel, branches, h, env)
    case Loop(_, cond, _, _) =>
      if !WellMade(s) then Stuck
      else if fuel == 0 then Timeout
      else if cond.Always? then Iterate(g, fuel, s, h, env)
      else
        (match Demand(Eval(g, fuel, cond.e, h, env), env)
         case Got(v, h1) => if Truthy(v) then Iterate(g, fuel, s, h1, env) else Norm(Junk, h1)
         case Lost(o) => o)
    case Switch(e, cases) =>
      var o := Eval(g, fuel, e, h, env);
      if Defaults(cases) > 1 then Stuck
      else if !o.Norm? then o
      else
        (match Select(g, fuel, cases, o.res, o.h, env)
         case Chosen(i, h2) => LeaveSwitch(ExecCases(g, fuel, cases, i, h2, env))
         case NoMatch(h2) => LeaveSwitch(ExecCases(g, fuel, cases, DefaultIndex(cases), h2, env))
         case ChoiceFail(o2) => o2)
    case Break => Brk(h)
    case Continue => Cont(h)
    case Return => Ret(Junk, h)
    case ReturnVal(e) =>
      var o := Eval(g, fuel, e, h, env);
      if o.Norm? then Ret(o.res, o.h) else o
    case Throw(e) =>
      (match Demand(Eval(g, fuel, e, h, env), env)
       case Got(v, h1) => Thr(v, false, h1)
       case Lost(o) => o)
    case Try(_, _, _, _) => ExecTry(g, fuel, s, h, env)
    case Catches(_, _, _) => Stuck
    case FunDecl(_, _, _) => Norm(Junk, h)
  }

  /** The loops the grammar has: a while loop has a condition and no update, and a body is a block. */
  predicate WellMade(s: Stmt)
    requires s.Loop?
  {
    (s.isFor || (s.update.Skip? && s.cond.When?)) && s.body.Block?
  }

  /** The handler catches what the body throws, and also what the finally block after a completed body
      throws: the statement's entry on the try stack is still there.  In the latter case the finally block
      runs a second time. */
  function ExecTry(g: seq<FunDef>, fuel: nat, s: Stmt, h: Heap, env: nat): Out
    requires s.Try?
    decreases fuel, 1, s, 3
  {
    var o := ExecGuarded(g, fuel, s, h, env);
    if o.Thr? then ExecHandler(g, fuel, s, o.ex, o.h, env) else Confined(o)
  }

  /** The part of a try statement during which its handler is armed. */
  function ExecGuarded(g: seq<FunDef>, fuel: nat, s: Stmt, h: Heap, env: nat): Out
    requires s.Try?
    decreases fuel, 1, s, 0
  {
    match Exec(g, fuel, s.body, h, env)
    case Norm(_, h1) => Discard(Exec(g, fuel, s.finalizer, h1, env))
    case o => o
  }

  /** The handler once more when a dirty exception leaves it: the throw only takes away the entry of the handler
      that threw, so that the next one is the statement's own, in phase 2. */
  function ExecHandler(g: seq<FunDef>, fuel: nat, s: Stmt, ex: Val, h: Heap, env: nat): Out
    requires s.Try?
    decreases fuel, 1, s, 2
  {
    var o := ExecCaught(g, fuel, s, ex, h, env);
    if o.Thr? && o.dirty then if fuel == 0 then Timeout else ExecHandler(g, fuel - 1, s, o.ex, o.h, env)
    else Rethrown(o)
  }

  /** The handler with the exception bound, and the finally block if the handler completes. */
  function ExecCaught(g: seq<FunDef>, fuel: nat, s: Stmt, ex: Val, h: Heap, env: nat): Out
    requires s.Try?
    decreases fuel, 1, s, 1
  {
    match WriteVar(h, env, s.x, ex)
    case None => Stuck
    case Some(h2) =>
      match ExecClauses(g, fuel, s.handler, h2, env)
      case Norm(_, h3) => Discard(Exec(g, fuel, s.finalizer, h3, env))
      case o => o
  }

  /** The clauses run one after the other, all of them; only the first one has its variable bound. */
  function ExecClauses(g: seq<FunDef>, fuel: nat, s: Stmt, h: Heap, env: nat): Out
    decreases fuel, 1, s, 10
  {
    if s.Catches? then
      match Exec(g, fuel, s.first, h, env)
      case Norm(_, h1) => ExecClauses(g, fuel, s.rest, h1, env)
      case o => o
    else Exec(g, fuel, s, h, env)
  }

  function Discard(o: Out): Out {
    if o.Norm? then Norm(Junk, o.h) else o
  }

  /** Jumps must not leave a try statement, and what its handler does in the frame of a callee has no meaning
      here. */
  function Confined(o: Out): Out {
    if o.Brk? || o.Cont? || o.Ret? || o.Abort? then Stuck else o
  }

  /** An exception leaving a catch block, or the finally block after it, leaves the statement's own entry on the
      try stack, in phase 2.  A dirty one goes back to the handler instead. */
  function Rethrown(o: Out): Out {
    match o
    case Thr(v, dirty, h) => if dirty then Stuck else Thr(v, true, h)
    case Abort(v, dirty, h, thrower) => if dirty then Stuck else Abort(v, true, h, thrower)
    case _ => Confined(o)
  }

  /** A break ends the switch; `continue` may not be used inside it. */
  function LeaveSwitch(o: Out): Out {
    match o
    case Norm(_, h) => Norm(Junk, h)
    case Brk(h) => Norm(Junk, h)
    case Cont(_) => Stuck
    case _ => o
  }

  /** One iteration of a loop whose condition held, and the iterations after it. */
  function Iterate(g: seq<FunDef>, fuel: nat, s: Stmt, h: Heap, env: nat): Out
    requires s.Loop? && fuel > 0
    decreases fuel, 1, s, 1
  {
    match Exec(g, fuel, s.body, h, env)
    case Brk(h1) => Norm(Junk, h1)
    case Norm(_, h1) => Repeat(g, fuel, s, h1, env)
    case Cont(h1) => Repeat(g, fuel, s, h1, env)
    case o => o
  }

  function Repeat(g: seq<FunDef>, fuel: nat, s: Stmt, h: Heap, env: nat): Out
    requires s.Loop? && fuel > 0
    decreases fuel, 1, s, 0
  {
    match Exec(g, fuel, s.update, h, env)
    case Norm(_, h1) => Exec(g, fuel - 1, s, h1, env)
    case Brk(_) => Stuck
    case Cont(_) => Stuck
    case o => o
  }

  function ExecIf(g: seq<FunDef>, fuel: nat, bs: Branches, h: Heap, env: nat): Out
    decreases fuel, 1, bs
  {
    match bs
    case Else(s) => Exec(g, fuel, s, h, env)
    case Branch(c, block, rest) =>
      match Demand(Eval(g, fuel, c, h, env), env)
      case Got(v, h1) => if Truthy(v) then Exec(g, fuel, block, h1, env) else ExecIf(g, fuel, rest, h1, env)
      case Lost(o) => o
  }

  /** How many cases precede the first one whose label equals the subject. */
  function Select(g: seq<FunDef>, fuel: nat, cs: Cases, subject: Res, h: Heap, env: nat): Choice
    decreases fuel, 1, cs
  {
    match cs
    case NoCase => NoMatch(h)
    case DefaultCase(_, rest) => Later(Select(g, fuel, rest, subject, h, env))
    case Case(lbl, _, rest) =>
      var o := Eval(g, fuel, lbl, h, env);
      if !o.Norm? then ChoiceFail(o)
      else
        match (Deref(subject, o.h, env), Deref(o.res, o.h, env))
        case (Some(a), Some(b)) =>
          (match Compare(Eq, a, b)
           case Write(v) =>
             if Truthy(v) then Chosen(0, o.h) else Later(Select(g, fuel, rest, subject, o.h, env))
           case _ => ChoiceFail(Stuck))
        case _ => ChoiceFail(Stuck)
  }

  function Later(c: Choice): Choice {
    if c.Chosen? then c.(skip := c.skip + 1) else c
  }

  /** More than one default is a compile error. */
  function Defaults(cs: Cases): nat {
    match cs
    case NoCase => 0
    case DefaultCase(_, rest) => 1 + Defaults(rest)
    case Case(_, _, rest) => Defaults(rest)
  }

  /** How many cases precede the first default; all of them when there is none. */
  function DefaultIndex(cs: Cases): nat {
    match cs
    case NoCase => 0
    case DefaultCase(_, _) => 0
    case Case(_, _, rest) => 1 + DefaultIndex(rest)
  }

  /** The bodies in source order, after skipping `skip` of them: control falls through. */
  function ExecCases(g: seq<FunDef>, fuel: nat, cs: Cases, skip: nat, h: Heap, env: nat): Out
    decreases fuel, 1, cs
  {
    match cs
    case NoCase => Norm(Junk, h)
    case _ =>
      if skip > 0 then ExecCases(g, fuel, cs.rest, skip - 1, h, env)
      else
        match Exec(g, fuel, cs.body, h, env)
        case Norm(_, h1) => ExecCases(g, fuel, cs.rest, 0, h1, env)
        case o => o
  }
}
