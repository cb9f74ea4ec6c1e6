/** The code of every construct with its final addresses: what code generation amounts to once all
    jumps are patched.

    A position says how far generation has come before a construct is visited: the address of its first
    instruction, the size of the constant pool and the number of temporaries allocated.  Statements also
    get the addresses that `break` and `continue` end up jumping to. */
module Layout {
  import opened Values
  import opened Ast
  import opened Machine

  datatype Pos = Pos(pc: nat, k: nat, t: nat)

  // ----- sizes -----

  /** Number of instructions. */
  function SizeE(e: Expr): nat {
    match e
    case Literal(_) => 0
    case Ident(_) => 0
    case Binary(_, l, r) => SizeE(l) + SizeE(r) + 1
    case Augmented(_, _, r) => SizeE(r) + 1
    case Comparison(_, l, r) => SizeE(l) + SizeE(r) + 1
    case Logic(_, l, r) => SizeE(l) + 1 + SizeE(r) + 1
    case Boolean(_, l, r) => SizeE(l) + 1 + SizeE(r) + 1
    case Negate(a) => SizeE(a) + 1
    case Complement(a) => SizeE(a) + 1
    case IncDec(_, _) => 1
    case AssignTo(_, a) => SizeE(a) + 1
    case Call(c, args) => SizeE(c) + SizeA(args) + CountA(args) + 1
  }

  function SizeA(es: Exprs): nat {
    match es
    case NoExpr => 0
    case Exprs(e, rest) => SizeE(e) + SizeA(rest)
  }

  function CountA(es: Exprs): nat {
    match es
    case NoExpr => 0
    case Exprs(_, rest) => 1 + CountA(rest)
  }

  function SizeC(c: Cond): nat {
    match c
    case Always => 0
    case When(e) => SizeE(e) + 1
  }

  function SizeS(s: Stmt): nat {
    match s
    case Skip => 0
    case Seq(s1, s2) => SizeS(s1) + SizeS(s2)
    case Block(b) => SizeS(b) + 2
    case Do(e) => SizeE(e)
    case Assign(_, e) => SizeE(e) + 1
    case AssignUnless(_, e) => 1 + SizeE(e) + 1
    case If(bs) => SizeB(bs)
    case Loop(_, cond, update, body) => SizeC(cond) + SizeS(body) + SizeS(update) + 1
    case Switch(e, cases) => SizeE(e) + SizeK(cases, Lone(cases))
    case Break => 1
    case Continue => 1
    case Return => 1
    case ReturnVal(e) => SizeE(e) + 1
    case Throw(e) => SizeE(e) + 1
    case Try(body, _, handler, finalizer) => 1 + SizeS(body) + 1 + 1 + SizeS(handler) + SizeS(finalizer) + 1
    case Catches(h1, _, h2) => SizeS(h1) + 1 + SizeS(h2)
    case FunDecl(_, prologue, body) => 1 + SizeS(prologue) + SizeS(body) + 1
  }

  function SizeB(bs: Branches): nat {
    match bs
    case Else(s) => SizeS(s)
    case Branch(c, block, rest) => SizeE(c) + 1 + SizeS(block) + 1 + SizeB(rest)
  }

  /** A switch whose only case is a default is compiled to that case's body. */
  predicate Lone(cs: Cases) {
    cs.DefaultCase? && cs.rest.NoCase?
  }

  function SizeK(cs: Cases, lone: bool): nat {
    match cs
    case NoCase => 0
    case Case(lbl, body, rest) => SizeE(lbl) + 2 + SizeS(body) + 1 + SizeK(rest, lone)
    case DefaultCase(body, rest) => if lone then SizeS(body) else 1 + SizeS(body) + 1 + SizeK(rest, lone)
  }

  // ----- constants pushed, in order -----

  function PoolE(e: Expr): seq<Val> {
    match e
    case Literal(l) => if l.IntLit? then [Int(l.n)] else []
    case Ident(_) => []
    case Binary(_, l, r) => PoolE(l) + PoolE(r)
    case Augmented(_, _, r) => PoolE(r)
    case Comparison(_, l, r) => PoolE(l) + PoolE(r)
    case Logic(_, l, r) => PoolE(l) + PoolE(r)
    case Boolean(_, l, r) => PoolE(l) + PoolE(r)
    case Negate(a) => PoolE(a)
    case Complement(a) => PoolE(a)
    case IncDec(_, _) => []
    case AssignTo(_, a) => PoolE(a)
    case Call(c, args) => PoolE(c) + PoolA(args)
  }

  function PoolA(es: Exprs): seq<Val> {
    match es
    case NoExpr => []
    case Exprs(e, rest) => PoolE(e) + PoolA(rest)
  }

  function PoolC(c: Cond): seq<Val> {
    match c
    case Always => []
    case When(e) => PoolE(e)
  }

  function PoolS(s: Stmt): seq<Val> {
    match s
    case Seq(s1, s2) => PoolS(s1) + PoolS(s2)
    case Block(b) => PoolS(b)
    case Do(e) => PoolE(e)
    case Assign(_, e) => PoolE(e)
    case AssignUnless(_, e) => PoolE(e)
    case If(bs) => PoolB(bs)
    case Loop(_, cond, update, body) => PoolC(cond) + PoolS(body) + PoolS(update)
    case Switch(e, cases) => PoolE(e) + PoolK(cases)
    case ReturnVal(e) => PoolE(e)
    case Throw(e) => PoolE(e)
    case Try(body, _, handler, finalizer) => PoolS(body) + PoolS(handler) + PoolS(finalizer)
    case Catches(h1, _, h2) => PoolS(h1) + PoolS(h2)
    case FunDecl(_, prologue, body) => PoolS(prologue) + PoolS(body)
    case _ => []
  }

  function PoolB(bs: Branches): seq<Val> {
    match bs
    case Else(s) => PoolS(s)
    case Branch(c, block, rest) => PoolE(c) + PoolS(block) + PoolB(rest)
  }

  function PoolK(cs: Cases): seq<Val> {
    match cs
    case NoCase => []
    case Case(lbl, body, rest) => PoolE(lbl) + PoolS(body) + PoolK(rest)
    case DefaultCase(body, rest) => PoolS(body) + PoolK(rest)
  }

  // ----- temporaries allocated -----

  function TmpsE(e: Expr): nat {
    match e
    case Literal(_) => 0
    case Ident(_) => 0
    case Binary(_, l, r) => TmpsE(l) + TmpsE(r) + 1
    case Augmented(_, _, r) => TmpsE(r)
    case Comparison(_, l, r) => TmpsE(l) + TmpsE(r) + 1
    case Logic(_, l, r) => TmpsE(l) + 1 + TmpsE(r)
    case Boolean(_, l, r) => TmpsE(l) + 1 + TmpsE(r)
    case Negate(a) => TmpsE(a) + 1
    case Complement(a) => TmpsE(a) + 1
    case IncDec(_, _) => 1
    case AssignTo(_, a) => TmpsE(a) + 1
    case Call(c, args) => TmpsE(c) + TmpsA(args) + 1
  }

  function TmpsA(es: Exprs): nat {
    match es
    case NoExpr => 0
    case Exprs(e, rest) => TmpsE(e) + TmpsA(rest)
  }

  function TmpsC(c: Cond): nat {
    match c
    case Always => 0
    case When(e) => TmpsE(e)
  }

  function TmpsS(s: Stmt): nat {
    match s
    case Seq(s1, s2) => TmpsS(s1) + TmpsS(s2)
    case Block(b) => TmpsS(b)
    case Do(e) => TmpsE(e)
    case Assign(_, e) => TmpsE(e)
    case AssignUnless(_, e) => TmpsE(e)
    case If(bs) => TmpsB(bs)
    case Loop(_, cond, update, body) => TmpsC(cond) + TmpsS(body) + TmpsS(update)
    case Switch(e, cases) => TmpsE(e) + TmpsK(cases)
    case ReturnVal(e) => TmpsE(e)
    case Throw(e) => TmpsE(e)
    case Try(body, _, handler, finalizer) => TmpsS(body) + TmpsS(handler) + TmpsS(finalizer)
    case Catches(h1, _, h2) => TmpsS(h1) + TmpsS(h2)
    case _ => 0
  }

  function TmpsB(bs: Branches): nat {
    match bs
    case Else(s) => TmpsS(s)
    case Branch(c, block, rest) => TmpsE(c) + TmpsS(block) + TmpsB(rest)
  }

  function TmpsK(cs: Cases): nat {
    match cs
    case NoCase => 0
    case Case(lbl, body, rest) => TmpsE(lbl) + 1 + TmpsS(body) + TmpsK(rest)
    case DefaultCase(body, rest) => TmpsS(body) + TmpsK(rest)
  }

  // ----- positions -----

  function AfterE(e: Expr, at: Pos): Pos { Pos(at.pc + SizeE(e), at.k + |PoolE(e)|, at.t + TmpsE(e)) }

  function AfterA(es: Exprs, at: Pos): Pos { Pos(at.pc + SizeA(es), at.k + |PoolA(es)|, at.t + TmpsA(es)) }

  function AfterC(c: Cond, at: Pos): Pos { Pos(at.pc + SizeC(c), at.k + |PoolC(c)|, at.t + TmpsC(c)) }

  function AfterS(s: Stmt, at: Pos): Pos { Pos(at.pc + SizeS(s), at.k + |PoolS(s)|, at.t + TmpsS(s)) }

  /** `n` instructions further on. */
  function Past(at: Pos, n: nat): Pos { at.(pc := at.pc + n) }

  /** One more temporary. */
  function Alloc(at: Pos): Pos { at.(t := at.t + 1) }

  // ----- operands -----

  /** `createOp` of a visited expression node. */
  function OpE(e: Expr, at: Pos): Operand {
    match e
    case Literal(l) =>
      ConstOp(match l case NullLit => 0 case TrueLit => 1 case FalseLit => 2 case IntLit(_) => at.k)
    case Ident(x) => VarOp(x)
    case Augmented(_, x, _) => VarOp(x)
    case _ => TmpOp(at.t + ResultTmp(e))
  }

  /** The temporary that receives the result, counted from the first one of the expression. */
  function ResultTmp(e: Expr): nat {
    match e
    case Binary(_, l, r) => TmpsE(l) + TmpsE(r)
    case Comparison(_, l, r) => TmpsE(l) + TmpsE(r)
    case Logic(_, l, _) => TmpsE(l)
    case Boolean(_, l, _) => TmpsE(l)
    case Negate(a) => TmpsE(a)
    case Complement(a) => TmpsE(a)
    case AssignTo(_, a) => TmpsE(a)
    case Call(c, args) => TmpsE(c) + TmpsA(args)
    case _ => 0
  }

  // ----- code -----

  function CodeE(e: Expr, at: Pos): (c: seq<IR>)
    ensures |c| == SizeE(e)
    decreases e
  {
    match e
    case Literal(_) => []
    case Ident(_) => []
    case Binary(op, l, r) =>
      CodeE(l, at) + CodeE(r, AfterE(l, at)) + [IR(BINARY(op), OpE(l, at), OpE(r, AfterE(l, at)), OpE(e, at))]
    case Augmented(op, x, r) => CodeE(r, at) + [IR(BINARY(op), VarOp(x), OpE(r, at), VarOp(x))]
    case Comparison(cmp, l, r) =>
      CodeE(l, at) + CodeE(r, AfterE(l, at)) + [IR(COMPARE(cmp), OpE(l, at), OpE(r, AfterE(l, at)), OpE(e, at))]
    case Logic(_, l, r) =>
      CodeE(l, at) + [TestCode(e, l, at, at)] + CodeE(r, SecondTest(e, at)) + [TestCode(e, r, SecondTest(e, at), at)]
    case Boolean(_, l, r) =>
      CodeE(l, at) + [TestCode(e, l, at, at)] + CodeE(r, SecondTest(e, at)) + [TestCode(e, r, SecondTest(e, at), at)]
    case Negate(a) => CodeE(a, at) + [IR(NOT, OpE(a, at), NO_OPERAND, OpE(e, at))]
    case Complement(a) => CodeE(a, at) + [IR(BWNOT, OpE(a, at), NO_OPERAND, OpE(e, at))]
    case IncDec(step, x) => [IR(INCDEC(step), VarOp(x), NO_OPERAND, OpE(e, at))]
    case AssignTo(x, a) => CodeE(a, at) + [IR(ASSIGN, VarOp(x), OpE(a, at), OpE(e, at))]
    case Call(c, args) =>
      CodeE(c, at) + CodeA(args, AfterE(c, at)) + Sends(args, AfterE(c, at))
      + [IR(FCALL, OpE(c, at), NO_OPERAND, OpE(e, at))]
  }

  function TestOp(e: Expr): Opcode
    requires e.Logic? || e.Boolean?
  {
    if e.Logic? then (if e.isAnd then AND else OR) else if e.isAnd then JMPZ else JMPNZ
  }

  /** One test of a short-circuit expression: both tests write the same temporary and jump to the end. */
  function TestCode(e: Expr, operand: Expr, operandAt: Pos, at: Pos): IR
    requires e.Logic? || e.Boolean?
  {
    IR(TestOp(e), OpE(operand, operandAt), Addr(at.pc + SizeE(e)), OpE(e, at))
  }

  /** Where the second operand starts: after the first test, and above the result's temporary. */
  function SecondTest(e: Expr, at: Pos): Pos
    requires e.Logic? || e.Boolean?
  {
    Alloc(Past(AfterE(e.l, at), 1))
  }

  function CodeA(es: Exprs, at: Pos): (c: seq<IR>)
    ensures |c| == SizeA(es)
    decreases es
  {
    match es
    case NoExpr => []
    case Exprs(e, rest) => CodeE(e, at) + CodeA(rest, AfterE(e, at))
  }

  function OpsA(es: Exprs, at: Pos): (ops: seq<Operand>)
    ensures |ops| == CountA(es)
  {
    match es
    case NoExpr => []
    case Exprs(e, rest) => [OpE(e, at)] + OpsA(rest, AfterE(e, at))
  }

  /** The argument sends, one per evaluated argument. */
  function Sends(es: Exprs, at: Pos): (c: seq<IR>)
    ensures |c| == CountA(es)
  {
    match es
    case NoExpr => []
    case Exprs(e, rest) => [Ins1(SENDVAL, OpE(e, at))] + Sends(rest, AfterE(e, at))
  }

  /** Patching the first instruction of a loop: `m_brks` starts with the loop's own address. */
  function Sentinel(c: seq<IR>, a: nat): (r: seq<IR>)
    ensures |r| == |c|
  {
    if c == [] then c else c[0 := SetAddr(c[0], a)]
  }

  function CodeC(c: Cond, at: Pos, end: nat): (r: seq<IR>)
    ensures |r| == SizeC(c)
  {
    match c
    case Always => []
    case When(e) => CodeE(e, at) + [Ins2(JMPZ, OpE(e, at), Addr(end))]
  }

  function CodeS(s: Stmt, at: Pos, brk: nat, cont: nat): (c: seq<IR>)
    ensures |c| == SizeS(s)
    decreases s
  {
    hide PoolS, PoolE, PoolK, TmpsS, TmpsE, TmpsK, OpE;
    match s
    case Skip => []
    case Seq(s1, s2) => CodeS(s1, at, brk, cont) + CodeS(s2, AfterS(s1, at), brk, cont)
    case Block(b) => [Ins0(BSCOPE)] + CodeS(b, Past(at, 1), brk, cont) + [Ins0(ESCOPE)]
    case Do(e) => CodeE(e, at)
    case Assign(x, e) => CodeE(e, at) + [Ins2(ASSIGN, VarOp(x), OpE(e, at))]
    case AssignUnless(x, e) =>
      [Ins2(JMPNZ, VarOp(x), Addr(at.pc + 2))] + CodeE(e, Past(at, 1)) + [Ins2(ASSIGN, VarOp(x), OpE(e, at))]
    case If(bs) => CodeB(bs, at, Addr(at.pc + SizeB(bs)), brk, cont)
    case Loop(_, _, _, _) => Sentinel(LoopCode(s, at), at.pc + SizeS(s))
    case Switch(e, cases) => CodeE(e, at) + CodeK(cases, AfterE(e, at), SwitchInfo(s, at), cont)
    case Break => [Ins1(JMP, Addr(brk))]
    case Continue => [Ins1(JMP, Addr(cont))]
    case Return => [Ins0(RET)]
    case ReturnVal(e) => CodeE(e, at) + [Ins1(RET, OpE(e, at))]
    case Throw(e) => CodeE(e, at) + [Ins1(THROW, OpE(e, at))]
    case Try(_, _, _, _) => CodeTry(s, at, brk, cont)
    case Catches(_, _, _) => CodeCatches(s, at, brk, cont)
    case FunDecl(_, _, _) => CodeFun(s, at)
  }

  lemma CallParts(e: Expr, at: Pos)
    requires e.Call?
    ensures var f, args, at1 := e.callee, e.args, AfterE(e.callee, at);
            && CodeE(e, at) == CodeE(f, at) + CodeA(args, at1) + Sends(args, at1)
                               + [IR(FCALL, OpE(f, at), NO_OPERAND, OpE(e, at))]
            && PoolE(e) == PoolE(f) + PoolA(args) && SizeE(e) == SizeE(f) + SizeA(args) + CountA(args) + 1
            && TmpsE(e) == TmpsE(f) + TmpsA(args) + 1 && OpE(e, at) == TmpOp(at.t + TmpsE(f) + TmpsA(args))
  {
  }

  lemma SeqParts(s1: Stmt, s2: Stmt)
    ensures var s := Ast.Seq(s1, s2);
            && SizeS(s) == SizeS(s1) + SizeS(s2) && PoolS(s) == PoolS(s1) + PoolS(s2)
               && TmpsS(s) == TmpsS(s1) + TmpsS(s2)
  {
  }

  lemma SeqCodeParts(s1: Stmt, s2: Stmt, at: Pos, brk: nat, cont: nat)
    ensures CodeS(Ast.Seq(s1, s2), at, brk, cont) == CodeS(s1, at, brk, cont) + CodeS(s2, AfterS(s1, at), brk, cont)
  {
    hide SizeS, PoolS, TmpsS;
  }

  function CodeFun(s: Stmt, at: Pos): (c: seq<IR>)
    requires s.FunDecl?
    ensures |c| == SizeS(s)
    decreases s, 0
  {
    [Ins1(JMP, Addr(at.pc + SizeS(s)))] + CodeS(s.prologue, FunEntry(at), 0, 0)
    + CodeS(s.body, AfterS(s.prologue, FunEntry(at)), 0, 0) + [Ins0(LEAVE)]
  }

  /** A function's code follows the jump around it and counts its temporaries from zero. */
  function FunEntry(at: Pos): Pos { Pos(at.pc + 1, at.k, 0) }

  /** The code of a function from its address on. */
  function FunCode(prologue: Stmt, body: Stmt, at: Pos): seq<IR> {
    CodeS(prologue, at, 0, 0) + CodeS(body, AfterS(prologue, at), 0, 0) + [Ins0(LEAVE)]
  }

  function HandlerAt(s: Stmt, at: Pos): Pos
    requires s.Try?
  {
    Past(AfterS(s.body, Past(at, 1)), 1)
  }

  function FinallyAt(s: Stmt, at: Pos): Pos
    requires s.Try?
  {
    AfterS(s.handler, Past(HandlerAt(s, at), 1))
  }

  /** The handler starts right after the body; both meet at the finally block. */
  function CodeTry(s: Stmt, at: Pos, brk: nat, cont: nat): (c: seq<IR>)
    requires s.Try?
    ensures |c| == SizeS(s)
    decreases s, 0
  {
    [Ins1(TRY, Addr(HandlerAt(s, at).pc))] + CodeS(s.body, Past(at, 1), brk, cont)
    + [Ins1(JMP, Addr(FinallyAt(s, at).pc))]
    + [Ins1(CATCH, VarOp(s.x))] + CodeS(s.handler, Past(HandlerAt(s, at), 1), brk, cont)
    + CodeS(s.finalizer, FinallyAt(s, at), brk, cont) + [Ins0(ETRY)]
  }

  lemma TryParts(s: Stmt, at: Pos, brk: nat, cont: nat)
    requires s.Try?
    ensures var at1, at2, at3 := Past(at, 1), Past(HandlerAt(s, at), 1), FinallyAt(s, at);
            && CodeTry(s, at, brk, cont)
               == [Ins1(TRY, Addr(HandlerAt(s, at).pc))] + CodeS(s.body, at1, brk, cont) + [Ins1(JMP, Addr(at3.pc))]
                  + [Ins1(CATCH, VarOp(s.x))] + CodeS(s.handler, at2, brk, cont) + CodeS(s.finalizer, at3, brk, cont)
                    + [Ins0(ETRY)]
            && at2.pc == at.pc + 3 + SizeS(s.body) && at3.pc == at2.pc + SizeS(s.handler)
  {
    hide CodeS;
  }

  /** The clauses follow each other, with nothing to jump over the later ones. */
  function CodeCatches(s: Stmt, at: Pos, brk: nat, cont: nat): (c: seq<IR>)
    requires s.Catches?
    ensures |c| == SizeS(s)
    decreases s, 0
  {
    CodeS(s.first, at, brk, cont) + [Ins1(CATCH, VarOp(s.y))] + CodeS(s.rest, Past(AfterS(s.first, at), 1), brk, cont)
  }

  /** A loop before its sentinel is patched. */
  function LoopCode(s: Stmt, at: Pos): (c: seq<IR>)
    requires s.Loop?
    ensures |c| == SizeS(s)
    decreases s, 0
  {
    var bodyAt := AfterC(s.cond, at);
    CodeC(s.cond, at, at.pc + SizeS(s))
    + CodeS(s.body, bodyAt, at.pc + SizeS(s), ContinueAddr(s, at))
    + CodeS(s.update, AfterS(s.body, bodyAt), 0, 0)
    + [Ins1(JMP, Addr(at.pc))]
  }

  /** `continue` goes to the update of a for loop and to the condition of a while loop. */
  function ContinueAddr(s: Stmt, at: Pos): nat
    requires s.Loop?
  {
    if s.isFor then at.pc + SizeC(s.cond) + SizeS(s.body) else at.pc
  }

  /** `exit` is the operand of the jumps at the end of each branch. */
  function CodeB(bs: Branches, at: Pos, exit: Operand, brk: nat, cont: nat): (c: seq<IR>)
    ensures |c| == SizeB(bs)
    decreases bs
  {
    match bs
    case Else(s) => CodeS(s, at, brk, cont)
    case Branch(c, block, rest) =>
      CodeE(c, at) + [Ins2(JMPZ, OpE(c, at), Addr(RestAt(bs, at).pc))]
      + CodeS(block, Past(AfterE(c, at), 1), brk, cont) + [Ins1(JMP, exit)]
      + CodeB(rest, RestAt(bs, at), exit, brk, cont)
  }

  /** Where the branches after the first one start. */
  function RestAt(bs: Branches, at: Pos): Pos
    requires bs.Branch?
  {
    Past(AfterS(bs.block, Past(AfterE(bs.cond, at), 1)), 1)
  }

  /** What the code of all cases of one switch shares: the subject's operand, the address of the default
      body, whether that default is the only case, and the address of the end. */
  datatype SwitchEnv = SwitchEnv(subject: Operand, dflt: Option<nat>, lone: bool, end: nat)

  function SwitchInfo(s: Stmt, at: Pos): SwitchEnv
    requires s.Switch?
  {
    SwitchEnv(OpE(s.e, at), DefaultAddr(s.cases, at.pc + SizeE(s.e), Lone(s.cases)), Lone(s.cases), at.pc + SizeS(s))
  }

  predicate HasLabel(cs: Cases) {
    !cs.NoCase? && (cs.Case? || HasLabel(cs.rest))
  }

  /** Address of the first default's body, for cases compiled from `pc` on. */
  function DefaultAddr(cs: Cases, pc: nat, lone: bool): Option<nat> {
    match cs
    case NoCase => None
    case DefaultCase(_, _) => Some(if lone then pc else pc + 1)
    case Case(lbl, body, rest) => DefaultAddr(rest, pc + SizeE(lbl) + 2 + SizeS(body) + 1, lone)
  }

  /** Where the body of the first of these cases starts, or their end when there is none: the target of
      the fall-through before them. */
  function NextBody(cs: Cases, pc: nat): nat {
    match cs
    case NoCase => pc
    case Case(lbl, _, _) => pc + SizeE(lbl) + 2
    case DefaultCase(_, _) => pc + 1
  }

  function BodyAt(cs: Cases, at: Pos, lone: bool): Pos
    requires !cs.NoCase?
  {
    match cs
    case Case(lbl, _, _) => Alloc(Past(AfterE(lbl, at), 2))
    case DefaultCase(_, _) => if lone then at else Past(at, 1)
  }

  /** Where the cases after the first one start. */
  function LaterAt(cs: Cases, at: Pos): Pos
    requires !cs.NoCase?
  {
    Past(AfterS(cs.body, BodyAt(cs, at, false)), 1)
  }

  /** A labelled case tests, and on failure goes to the next test, or to the default if it is the last
      labelled one; a default is stepped over by the tests. */
  function CodeK(cs: Cases, at: Pos, w: SwitchEnv, cont: nat): (c: seq<IR>)
    ensures |c| == SizeK(cs, w.lone)
    decreases cs
  {
    match cs
    case NoCase => []
    case Case(lbl, body, rest) =>
      CodeE(lbl, at) + LabelTest(cs, at, w)
      + CodeS(body, BodyAt(cs, at, false), w.end, cont) + [Ins1(JMP, Addr(NextBody(rest, LaterAt(cs, at).pc)))]
      + CodeK(rest, LaterAt(cs, at), w, cont)
    case DefaultCase(body, rest) =>
      if w.lone then CodeS(body, at, w.end, cont)
      else
        [Ins1(JMP, Addr(LaterAt(cs, at).pc))]
        + CodeS(body, BodyAt(cs, at, false), w.end, cont) + [Ins1(JMP, Addr(NextBody(rest, LaterAt(cs, at).pc)))]
        + CodeK(rest, LaterAt(cs, at), w, cont)
  }

  function LabelTest(cs: Cases, at: Pos, w: SwitchEnv): (c: seq<IR>)
    requires cs.Case?
    ensures |c| == 2
  {
    var tmp := TmpOp(at.t + TmpsE(cs.lbl));
    [IR(COMPARE(Eq), w.subject, OpE(cs.lbl, at), tmp),
     Ins2(JMPZ, tmp, Addr(if HasLabel(cs.rest) || w.dflt.None? then LaterAt(cs, at).pc else w.dflt.value))]
  }
}
