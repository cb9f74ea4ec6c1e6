/** Constant folding: an operator whose two operands are integer literals is replaced by its value.

    The transformation visits node lists, blocks, declarations and right-hand sides, and nothing below
    any other node: in `1 + 2 + 3` and inside branches, loops and functions nothing is folded. */
module Folding {
  import opened Values
  import opened Store
  import opened Ast
  import opened Semantics
  import opened Operators
  import opened Layout
  import opened Backpatch
  import opened Correctness
  import opened Compiler

  predicate Arithmetic(op: Bin) { op.Add? || op.Sub? || op.Mul? || op.Div? || op.Mod? }

  predicate Foldable(e: Expr) {
    && e.Binary? && Arithmetic(e.op)
    && e.l.Literal? && e.l.lit.IntLit? && e.r.Literal? && e.r.lit.IntLit?
  }

  /** The source divides without looking at the divisor. */
  predicate NonzeroE(e: Expr) {
    if Foldable(e) then e.op.Div? || e.op.Mod? ==> e.r.lit.n != 0
    else e.AssignTo? ==> NonzeroE(e.e)
  }

  predicate Nonzero(s: Stmt) {
    match s
    case Seq(s1, s2) => Nonzero(s1) && Nonzero(s2)
    case Block(b) => Nonzero(b)
    case Do(e) => NonzeroE(e)
    case Assign(_, e) => NonzeroE(e)
    case _ => true
  }

  function Value(op: Bin, a: int, b: int): int
    requires Arithmetic(op) && (op.Div? || op.Mod? ==> b != 0)
  {
    match op
    case Add => a + b
    case Sub => a - b
    case Mul => a * b
    case Div => TruncDiv(a, b)
    case _ => TruncMod(a, b)
  }

  function FoldE(e: Expr): Expr
    requires NonzeroE(e)
  {
    if Foldable(e) then Literal(IntLit(Value(e.op, e.l.lit.n, e.r.lit.n)))
    else if e.AssignTo? then AssignTo(e.x, FoldE(e.e))
    else e
  }

  function Fold(s: Stmt): Stmt
    requires Nonzero(s)
  {
    match s
    case Seq(s1, s2) => Ast.Seq(Fold(s1), Fold(s2))
    case Block(b) => Block(Fold(b))
    case Do(e) => Do(FoldE(e))
    case Assign(x, e) => Assign(x, FoldE(e))
    case _ => s
  }

  /** Nothing is left to fold where the transformation looks. */
  predicate FoldedE(e: Expr) {
    !Foldable(e) && (e.AssignTo? ==> FoldedE(e.e))
  }

  predicate Folded(s: Stmt) {
    match s
    case Seq(s1, s2) => Folded(s1) && Folded(s2)
    case Block(b) => Folded(b)
    case Do(e) => FoldedE(e)
    case Assign(_, e) => FoldedE(e)
    case _ => true
  }

  lemma {:induction false} FoldELeavesNone(e: Expr)
    requires NonzeroE(e)
    ensures FoldedE(FoldE(e)) && (FoldE(e) == e <==> FoldedE(e))
  {
    if e.AssignTo? {
      FoldELeavesNone(e.e);
    }
  }

  /** The transformation folds everything there, and leaves a program alone if and only if there was nothing. */
  lemma {:induction false} FoldLeavesNone(s: Stmt)
    requires Nonzero(s)
    ensures Folded(Fold(s)) && (Fold(s) == s <==> Folded(s))
    decreases s
  {
    match s
    case Seq(s1, s2) => FoldLeavesNone(s1); FoldLeavesNone(s2);
    case Block(b) => FoldLeavesNone(b);
    case Do(e) => FoldELeavesNone(e);
    case Assign(_, e) => FoldELeavesNone(e);
    case _ =>
  }

  /** Two integer literals are folded to the operator's value if it is one of the five arithmetic operators, and
      left alone if it is a bitwise one. */
  lemma FoldLiterals(op: Bin, a: int, b: int)
    requires Defined(op, b)
    ensures var e := Binary(op, Literal(IntLit(a)), Literal(IntLit(b)));
            NonzeroE(e) && FoldE(e) == if op in {BwAnd, BwOr, BwXor, Shl, Shr} then e
                                       else Literal(IntLit(Result(op, a, b)))
  {
  }

  // ----- meaning -----

  lemma {:induction false} FoldEKeepsMeaning(g: seq<FunDef>, fuel: nat, e: Expr, h: Heap, env: nat)
    requires NonzeroE(e)
    ensures Eval(g, fuel, FoldE(e), h, env) == Eval(g, fuel, e, h, env)
    decreases e
  {
    if Foldable(e) {
      var l, r := Eval(g, fuel, e.l, h, env), Eval(g, fuel, e.r, h, env);
      assert l == Norm(Held(Int(e.l.lit.n)), h) && r == Norm(Held(Int(e.r.lit.n)), h);
      assert EvalBoth(g, fuel, e, h, env) == Both(Int(e.l.lit.n), Int(e.r.lit.n), h);
    } else if e.AssignTo? {
      FoldEKeepsMeaning(g, fuel, e.e, h, env);
    }
  }

  /** The folded program does what the original does, from every store and with every amount of fuel. */
  lemma {:induction false} FoldKeepsMeaning(g: seq<FunDef>, fuel: nat, s: Stmt, h: Heap, env: nat)
    requires Nonzero(s)
    ensures Exec(g, fuel, Fold(s), h, env) == Exec(g, fuel, s, h, env)
    decreases s
  {
    match s
    case Seq(s1, s2) =>
      FoldKeepsMeaning(g, fuel, s1, h, env);
      var o := Exec(g, fuel, s1, h, env);
      if o.Norm? {
        FoldKeepsMeaning(g, fuel, s2, o.h, env);
      }
    case Block(b) => FoldKeepsMeaning(g, fuel, b, h, env);
    case Do(e) => FoldEKeepsMeaning(g, fuel, e, h, env);
    case Assign(_, e) => FoldEKeepsMeaning(g, fuel, e, h, env);
    case _ =>
  }

  // ----- compiling the folded program -----

  lemma {:induction false} FoldESmaller(e: Expr)
    requires NonzeroE(e)
    ensures SizeE(FoldE(e)) <= SizeE(e) && TmpsE(FoldE(e)) <= TmpsE(e)
    ensures Foldable(e) ==> SizeE(FoldE(e)) < SizeE(e)
  {
    if !Foldable(e) && e.AssignTo? {
      FoldESmaller(e.e);
    }
  }

  /** Folding never adds instructions or temporaries, and keeps the jumps and functions of a program. */
  lemma {:induction false} FoldSmaller(g: seq<FunDef>, s: Stmt, canBreak: bool, canContinue: bool)
    requires Nonzero(s)
    ensures SizeS(Fold(s)) <= SizeS(s) && TmpsS(Fold(s)) <= TmpsS(s)
    ensures JumpsOk(Fold(s), canBreak, canContinue) == JumpsOk(s, canBreak, canContinue)
    ensures Declares(g, Fold(s)) == Declares(g, s)
    decreases s
  {
    match s
    case Seq(s1, s2) => FoldSmaller(g, s1, canBreak, canContinue); FoldSmaller(g, s2, canBreak, canContinue);
    case Block(b) => FoldSmaller(g, b, canBreak, canContinue);
    case Do(e) => FoldESmaller(e);
    case Assign(_, e) => FoldESmaller(e);
    case _ =>
  }

  /** Which functions a statement declares does not depend on where it is compiled. */
  lemma {:induction false} SameFunctions(s: Stmt, at: Pos, at': Pos)
    ensures FunTable(s, at).Keys == FunTable(s, at').Keys
    decreases s
  {
    match s
    case Seq(s1, s2) => SameFunctions(s1, at, at'); SameFunctions(s2, AfterS(s1, at), AfterS(s1, at'));
    case Block(b) => SameFunctions(b, Past(at, 1), Past(at', 1));
    case If(bs) => SameFunctionsB(bs, at, at');
    case Loop(_, cond, update, body) =>
      SameFunctions(body, AfterC(cond, at), AfterC(cond, at'));
      SameFunctions(update, AfterS(body, AfterC(cond, at)), AfterS(body, AfterC(cond, at')));
    case Switch(e, cases) => SameFunctionsK(cases, AfterE(e, at), AfterE(e, at'), Lone(cases));
    case Try(body, _, handler, finalizer) =>
      SameFunctions(body, Past(at, 1), Past(at', 1));
      SameFunctions(handler, Past(HandlerAt(s, at), 1), Past(HandlerAt(s, at'), 1));
      SameFunctions(finalizer, FinallyAt(s, at), FinallyAt(s, at'));
    case Catches(h1, _, h2) =>
      SameFunctions(h1, at, at');
      SameFunctions(h2, Past(AfterS(h1, at), 1), Past(AfterS(h1, at'), 1));
    case FunDecl(f, prologue, body) =>
      SameFunctions(prologue, FunEntry(at), FunEntry(at'));
      SameFunctions(body, AfterS(prologue, FunEntry(at)), AfterS(prologue, FunEntry(at')));
    case _ =>
  }

  lemma {:induction false} SameFunctionsB(bs: Branches, at: Pos, at': Pos)
    ensures FunTableB(bs, at).Keys == FunTableB(bs, at').Keys
    decreases bs
  {
    match bs
    case Else(s) => SameFunctions(s, at, at');
    case Branch(c, block, rest) =>
      SameFunctions(block, Past(AfterE(c, at), 1), Past(AfterE(c, at'), 1));
      SameFunctionsB(rest, RestAt(bs, at), RestAt(bs, at'));
  }

  lemma {:induction false} SameFunctionsK(cs: Cases, at: Pos, at': Pos, lone: bool)
    ensures FunTableK(cs, at, lone).Keys == FunTableK(cs, at', lone).Keys
    decreases cs
  {
    if !cs.NoCase? {
      SameFunctions(cs.body, BodyAt(cs, at, lone), BodyAt(cs, at', lone));
      SameFunctionsK(cs.rest, LaterAt(cs, at), LaterAt(cs, at'), lone);
    }
  }

  lemma {:induction false} FoldFunctions(s: Stmt, at: Pos, at': Pos)
    requires Nonzero(s)
    ensures FunTable(Fold(s), at').Keys == FunTable(s, at).Keys
    decreases s
  {
    match s
    case Seq(s1, s2) => FoldFunctions(s1, at, at'); FoldFunctions(s2, AfterS(s1, at), AfterS(Fold(s1), at'));
    case Block(b) => FoldFunctions(b, Past(at, 1), Past(at', 1));
    case Do(_) =>
    case Assign(_, _) =>
    case _ => SameFunctions(s, at, at');
  }

  lemma FoldCompilable(main: Stmt, g: seq<FunDef>)
    requires Nonzero(main) && Compilable(main, g)
    ensures Compilable(Fold(main), g)
  {
    FoldSmaller(g, main, false, false);
    FoldFunctions(main, START, START);
    forall f | 0 <= f < |g| ensures f in FunTable(Fold(main), START) {
      assert f in FunTable(main, START).Keys;
    }
  }

  /** Folding before code generation is correct: the machine running the folded program's code agrees with
      the meaning of the original program. */
  lemma FoldedCompilerCorrect(main: Stmt, g: seq<FunDef>, h: Heap, fuel: nat)
    requires Nonzero(main) && Compilable(main, g)
    ensures Compilable(Fold(main), g)
    ensures Agrees(Compiled(Fold(main), g), Started(Fold(main), h), Exec(g, fuel, main, h, 0), fuel)
  {
    hide Agrees, Exec, Compilable, Compiled, Fold;
    FoldCompilable(main, g);
    CompilerCorrect(Fold(main), g, h, fuel);
    FoldKeepsMeaning(g, fuel, main, h, 0);
  }

  // ----- the transformer -----

  /** A node list as a statement. */
  function InSequence(nodes: seq<Stmt>): Stmt {
    if nodes == [] then Skip else Ast.Seq(nodes[0], InSequence(nodes[1..]))
  }

  predicate AllNonzero(nodes: seq<Stmt>) {
    forall i :: 0 <= i < |nodes| ==> Nonzero(nodes[i])
  }

  class NodeArray {
    var nodes: seq<Stmt>

    /** Empties the list and appends the transformed nodes. */
    method Transform()
      requires AllNonzero(nodes)
      modifies this
      ensures |nodes| == |old(nodes)| && forall i :: 0 <= i < |nodes| ==> nodes[i] == Fold(old(nodes)[i])
      ensures Nonzero(InSequence(old(nodes))) && InSequence(nodes) == Fold(InSequence(old(nodes)))
    {
      var list := nodes;
      nodes := [];
      for i := 0 to |list|
        invariant |nodes| == i && forall k :: 0 <= k < i ==> nodes[k] == Fold(list[k])
      {
        var n := TransformNode(list[i]);
        nodes := nodes + [n];
      }
      FoldSequence(list, nodes);
    }
  }

  method TransformNode(s: Stmt) returns (r: Stmt)
    requires Nonzero(s)
    ensures r == Fold(s)
    decreases s
  {
    match s
    case Seq(s1, s2) =>
      var r1 := TransformNode(s1);
      var r2 := TransformNode(s2);
      r := Ast.Seq(r1, r2);
    case Block(b) =>
      var rb := TransformNode(b);
      r := Block(rb);
    case Do(e) => r := Do(FoldE(e));
    case Assign(x, e) => r := Assign(x, FoldE(e));
    case _ => r := s;
  }

  lemma {:induction false} FoldSequence(nodes: seq<Stmt>, folded: seq<Stmt>)
    requires AllNonzero(nodes) && |folded| == |nodes| && forall i :: 0 <= i < |nodes| ==> folded[i] == Fold(nodes[i])
    ensures Nonzero(InSequence(nodes)) && InSequence(folded) == Fold(InSequence(nodes))
  {
    if nodes != [] {
      FoldSequence(nodes[1..], folded[1..]);
    }
  }
}
