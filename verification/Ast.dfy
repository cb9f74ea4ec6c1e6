/** The resolved syntax tree: identifiers already carry their (hops, index) offset.

    Node lists are built with `Seq` and `Skip`, which emit no code of their own, so that recursion is
    structural.  `var x;` is an assignment of null: both compile to the same instruction. */
module Ast {
  import opened Values
  import opened Store

  datatype Lit = NullLit | TrueLit | FalseLit | IntLit(n: int)

  datatype Expr =
    | Literal(lit: Lit)
    | Ident(x: Off)
    | Binary(op: Bin, l: Expr, r: Expr)
    | Augmented(op: Bin, x: Off, r: Expr)
    | Comparison(cmp: Cmp, l: Expr, r: Expr)
    | Logic(isAnd: bool, l: Expr, r: Expr)
    | Boolean(isAnd: bool, l: Expr, r: Expr)
    | Negate(e: Expr)
    | Complement(e: Expr)
    | IncDec(step: Step1, x: Off)
    | AssignTo(x: Off, e: Expr)
    | Call(callee: Expr, args: Exprs)

  datatype Exprs = NoExpr | Exprs(head: Expr, rest: Exprs)

  datatype Cond = Always | When(e: Expr)

  /** `while (c) b` is `Loop(false, When(c), Skip, b)`; `for (i; c; u) b` is `i` followed by
      `Loop(true, When(c), u, b)`, or with `Always` when there is no condition.  The handler of a `Try` with
      several catch clauses is `Catches(h1, x2, Catches(h2, x3, h3))` and so on; `Catches` has no meaning
      elsewhere. */
  datatype Stmt =
    | Skip
    | Seq(s1: Stmt, s2: Stmt)
    | Block(s: Stmt)
    | Do(e: Expr)
    | Assign(x: Off, e: Expr)
    | AssignUnless(x: Off, e: Expr)
    | If(branches: Branches)
    | Loop(isFor: bool, cond: Cond, update: Stmt, body: Stmt)
    | Switch(e: Expr, cases: Cases)
    | Break
    | Continue
    | Return
    | ReturnVal(e: Expr)
    | Throw(e: Expr)
    | Try(body: Stmt, x: Off, handler: Stmt, finalizer: Stmt)
    | Catches(first: Stmt, y: Off, rest: Stmt)
    | FunDecl(f: nat, prologue: Stmt, body: Stmt)

  datatype Branches = Else(s: Stmt) | Branch(cond: Expr, block: Stmt, rest: Branches)

  datatype Cases = NoCase | Case(lbl: Expr, body: Stmt, rest: Cases) | DefaultCase(body: Stmt, rest: Cases)

  /** A user function as the evaluator sees it. */
  datatype FunDef = FunDef(header: Header, prologue: Stmt, body: Stmt)
}
