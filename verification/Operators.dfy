/** What the operators compute, as laws that fix it: order, arithmetic, bits, steps and errors. */
module Operators {
  import opened Values
  import opened Store
  import opened Ast
  import opened Semantics

  // ----- comparisons -----

  predicate Holds(op: Cmp, a: Val, b: Val) { Compare(op, a, b) == Write(Bool(true)) }

  /** The value that `++` gives its variable. */
  function After(n: int): int {
    match Stepped(PreInc, Int(n))
    case Write(Int(m)) => m
    case _ => n
  }

  /** On integers `<` is a strict total order in which `++` goes to the next number, and the other five
      comparisons are what `<` and equality make them. */
  lemma IntOrder(a: int, b: int, c: int)
    ensures forall op: Cmp :: Compare(op, Int(a), Int(b)).Write? && Compare(op, Int(a), Int(b)).v.Bool?
    ensures !Holds(Lt, Int(a), Int(a))
            && (Holds(Lt, Int(a), Int(b)) && Holds(Lt, Int(b), Int(c)) ==> Holds(Lt, Int(a), Int(c)))
    ensures a != b ==> (Holds(Lt, Int(a), Int(b)) <==> !Holds(Lt, Int(b), Int(a)))
    ensures Holds(Lt, Int(a), Int(After(a))) && !(Holds(Lt, Int(a), Int(b)) && Holds(Lt, Int(b), Int(After(a))))
    ensures Holds(Eq, Int(a), Int(b)) <==> a == b
    ensures Holds(Gt, Int(a), Int(b)) <==> Holds(Lt, Int(b), Int(a))
    ensures Holds(Ge, Int(a), Int(b)) <==> !Holds(Lt, Int(a), Int(b))
    ensures Holds(Le, Int(a), Int(b)) <==> !Holds(Gt, Int(a), Int(b))
    ensures Holds(Ne, Int(a), Int(b)) <==> !Holds(Eq, Int(a), Int(b))
  {
  }

  /** Exactly one of `<`, `==` and `>` holds. */
  lemma Trichotomy(a: int, b: int)
    ensures Holds(Lt, Int(a), Int(b)) || Holds(Eq, Int(a), Int(b)) || Holds(Gt, Int(a), Int(b))
    ensures !(Holds(Lt, Int(a), Int(b)) && Holds(Eq, Int(a), Int(b)))
            && !(Holds(Lt, Int(a), Int(b)) && Holds(Gt, Int(a), Int(b)))
    ensures !(Holds(Eq, Int(a), Int(b)) && Holds(Gt, Int(a), Int(b)))
  {
  }

  /** A number is below another if and only if `++` leads from it to the other. */
  lemma {:induction false} ReachedByInc(a: int, k: nat)
    ensures Holds(Lt, Int(a), Int(Incremented(a, k + 1))) && !Holds(Lt, Int(Incremented(a, k)), Int(a))
    decreases k
  {
    if k > 0 {
      ReachedByInc(a, k - 1);
      IntOrder(a, Incremented(a, k), Incremented(a, k + 1));
    }
  }

  function Incremented(a: int, k: nat): int {
    if k == 0 then a else After(Incremented(a, k - 1))
  }

  /** Nothing is below null and nothing above; it equals itself alone.  A comparison with it never fails. */
  lemma NullComparisons(v: Val, op: Cmp)
    ensures Compare(op, Null, v).Write? && Compare(op, v, Null).Write?
    ensures Holds(Eq, v, Null) <==> v == Null
    ensures Holds(Eq, Null, v) <==> v == Null
    ensures Holds(Ne, v, Null) <==> v != Null
    ensures Holds(Ne, Null, v) <==> v != Null
    ensures op != Eq && op != Ne ==> !Holds(op, v, Null) && !Holds(op, Null, v)
  {
  }

  /** Booleans are compared for equality alone, functions too; other types beside them are left unwritten or are
      different. */
  lemma EqualityOnly(a: bool, f: nat, r: Val)
    requires r != Null
    ensures Holds(Eq, Bool(a), r) <==> r == Bool(a)
    ensures Holds(Ne, Bool(a), r) <==> r == Bool(!a)
    ensures Compare(Eq, Bool(a), r) == NoWrite <==> !r.Bool?
    ensures Compare(Ne, Bool(a), r) == NoWrite <==> !r.Bool?
    ensures Holds(Eq, Func(f), r) <==> r == Func(f)
    ensures Holds(Ne, Func(f), r) <==> r != Func(f)
    ensures Compare(Eq, Func(f), r).Write? && Compare(Ne, Func(f), r).Write?
  {
  }

  /** A number beside a value of another type is not compared. */
  lemma MixedComparison(n: int, r: Val, op: Cmp)
    requires r != Null
    ensures Compare(op, Int(n), r) == NoWrite <==> !r.Int?
  {
  }

  // ----- arithmetic -----

  /** The operator has a value on two numbers. */
  predicate Defined(op: Bin, b: int) {
    && (op.Div? || op.Mod? ==> b != 0)
    && (op.Shl? || op.Shr? ==> 0 <= b < 64)
  }

  /** That value. */
  function Result(op: Bin, a: int, b: int): int {
    match Arith(op, Int(a), Int(b))
    case Write(Int(n)) => n
    case _ => 0
  }

  /** On two numbers every operator writes a number, except where the source's operator is undefined. */
  lemma IntArithmetic(op: Bin, a: int, b: int)
    ensures Defined(op, b) <==> Arith(op, Int(a), Int(b)) == Write(Int(Result(op, a, b)))
    ensures !Defined(op, b) <==> Arith(op, Int(a), Int(b)) == Foreign
  {
  }

  /** Adding one is `++`, zero changes nothing, and subtraction undoes addition. */
  lemma Addition(a: int, b: int, c: int)
    ensures Result(Add, a, 0) == a && Result(Add, a, 1) == After(a)
    ensures Result(Add, a, b) == Result(Add, b, a)
    ensures Result(Add, a, Result(Add, b, c)) == Result(Add, Result(Add, a, b), c)
    ensures Result(Sub, Result(Add, a, b), b) == a && Result(Add, Result(Sub, a, b), b) == a
  {
  }

  lemma Multiplication(a: int, b: int, c: int)
    ensures Result(Mul, a, 0) == 0 && Result(Mul, a, 1) == a && Result(Mul, a, b) == Result(Mul, b, a)
    ensures Result(Mul, a, Result(Add, b, c)) == Result(Add, Result(Mul, a, b), Result(Mul, a, c))
  {
    assert a * (b + c) == a * b + a * c;
  }

  function Abs(n: int): nat { if n < 0 then -n else n }

  /** Quotient and remainder round toward zero: the remainder has the sign of the dividend. */
  predicate Divides(a: int, b: int, q: int, r: int) {
    a == q * b + r && Abs(r) < Abs(b) && (r == 0 || (r < 0 <==> a < 0))
  }

  lemma Division(a: int, b: int)
    requires b != 0
    ensures Divides(a, b, Result(Div, a, b), Result(Mod, a, b))
  {
    if a < 0 {
      DivideByAny(-a, b);
      assert (-((-a) / b)) * b == -((-a) / b * b);
    } else {
      DivideByAny(a, b);
    }
  }

  lemma DivideByAny(n: nat, b: int)
    requires b != 0
    ensures n == n / b * b + n % b && 0 <= n % b < Abs(b)
  {
  }

  /** No other quotient and remainder have these properties. */
  lemma DivisionUnique(a: int, b: int, q: int, r: int)
    requires b != 0 && Divides(a, b, q, r)
    ensures q == Result(Div, a, b) && r == Result(Mod, a, b)
  {
    Division(a, b);
    var q', r' := Result(Div, a, b), Result(Mod, a, b);
    assert (q - q') * b == r' - r;
    SmallMultiple(q - q', b, r' - r);
  }

  lemma SmallMultiple(k: int, b: int, d: int)
    requires k * b == d && Abs(d) < Abs(b)
    ensures k == 0
  {
    Signs(k, b);
    if k != 0 {
      AtLeast(Abs(k), Abs(b));
    }
  }

  lemma Signs(k: int, b: int)
    ensures Abs(k) * Abs(b) == Abs(k * b)
  {
    assert (-k) * (-b) == k * b && (-k) * b == -(k * b) && k * (-b) == -(k * b);
    if k >= 0 && b >= 0 {
      Positive(k, b);
    } else if k >= 0 {
      Positive(k, -b);
    } else if b >= 0 {
      Positive(-k, b);
    } else {
      Positive(-k, -b);
    }
  }

  lemma Positive(m: nat, n: nat)
    ensures m * n >= 0
  {
  }

  lemma AtLeast(m: nat, n: nat)
    requires m > 0
    ensures m * n >= n
  {
  }

  // ----- bits -----

  /** Bit `i` of a two's complement number of unbounded width. */
  predicate Bit(n: int, i: nat)
    decreases i
  {
    if i == 0 then n % 2 == 1 else Bit(n / 2, i - 1)
  }

  /** A number is its bits. */
  lemma {:induction false} BitsDetermine(a: int, b: int)
    requires forall i: nat :: Bit(a, i) == Bit(b, i)
    ensures a == b
    decreases Abs(a) + Abs(b)
  {
    assert Bit(a, 0) == Bit(b, 0);
    if !((a == 0 || a == -1) && (b == 0 || b == -1)) {
      forall i: nat ensures Bit(a / 2, i) == Bit(b / 2, i) {
        assert Bit(a, i + 1) == Bit(b, i + 1);
      }
      BitsDetermine(a / 2, b / 2);
    }
  }

  lemma {:induction false} BitOf(f: (bool, bool) -> bool, a: int, b: int, i: nat)
    ensures Bit(Bitwise(f, a, b), i) == f(Bit(a, i), Bit(b, i))
    decreases i
  {
    if i > 0 {
      BitOf(f, a / 2, b / 2, i - 1);
      if (a == 0 || a == -1) && (b == 0 || b == -1) {
        assert a / 2 == a && b / 2 == b && Bitwise(f, a, b) / 2 == Bitwise(f, a, b);
      } else {
        assert Bitwise(f, a, b) / 2 == Bitwise(f, a / 2, b / 2);
      }
    }
  }

  /** The three connectives and the complement, bit by bit. */
  lemma Connectives(a: int, b: int, i: nat)
    ensures Bit(Result(BwAnd, a, b), i) == (Bit(a, i) && Bit(b, i))
    ensures Bit(Result(BwOr, a, b), i) == (Bit(a, i) || Bit(b, i))
    ensures Bit(Result(BwXor, a, b), i) == (Bit(a, i) != Bit(b, i))
  {
    BitOf((x, y) => x && y, a, b, i);
    BitOf((x, y) => x || y, a, b, i);
    BitOf((x, y) => x != y, a, b, i);
  }

  lemma {:induction false} ComplementBits(n: int, i: nat)
    ensures BwNot(Int(n)).Write? && BwNot(Int(n)).v.Int? && Bit(BwNot(Int(n)).v.n, i) == !Bit(n, i)
    decreases i
  {
    if i > 0 {
      ComplementBits(n / 2, i - 1);
      assert (-n - 1) / 2 == -(n / 2) - 1;
    }
  }

  /** Shifting moves the bits; from the right come zeros, from the left copies of the sign. */
  lemma {:induction false} ShiftLeft(a: int, k: nat, i: nat)
    requires k < 64
    ensures Bit(Result(Shl, a, k), i) == (i >= k && Bit(a, i - k))
    decreases k
  {
    if k > 0 {
      var m := a * Pow2(k - 1);
      assert Result(Shl, a, k) == 2 * m && Result(Shl, a, k - 1) == m;
      if i > 0 {
        ShiftLeft(a, k - 1, i - 1);
        assert 2 * m / 2 == m;
      }
    }
  }

  lemma {:induction false} ShiftRight(a: int, k: nat, i: nat)
    requires k < 64
    ensures Bit(Result(Shr, a, k), i) == Bit(a, i + k)
    decreases k
  {
    if k > 0 {
      ShiftRight(a / 2, k - 1, i);
      HalfThen(a, Pow2(k - 1));
    }
  }

  lemma HalfThen(a: int, p: nat)
    requires p > 0
    ensures a / (2 * p) == a / 2 / p
  {
    var h, q := a / 2, a / 2 / p;
    var r := h % p;
    assert a == 2 * (p * q + r) + a % 2 == (2 * p) * q + (2 * r + a % 2);
    QuotientIs(a, 2 * p, q, 2 * r + a % 2);
  }

  lemma QuotientIs(x: int, d: nat, q: int, r: int)
    requires d > 0 && x == d * q + r && 0 <= r < d
    ensures x / d == q
  {
    assert d * (x / d - q) == r - x % d;
    SmallMultiple(x / d - q, d, r - x % d);
  }

  // ----- in expressions -----

  /** An operator is applied to its operands in their order, the left one evaluated first. */
  lemma Operands(g: seq<FunDef>, fuel: nat, e: Expr, h: Heap, env: nat, a: int, b: int)
    requires e.Binary? || e.Comparison?
    requires var o := Eval(g, fuel, e.l, h, env);
             o.Norm? && o.res == Held(Int(a)) && var o2 := Eval(g, fuel, e.r, o.h, env);
             o2.Norm? && o2.res == Held(Int(b))
    ensures var h' := Eval(g, fuel, e.r, Eval(g, fuel, e.l, h, env).h, env).h;
            && (e.Binary? && Defined(e.op, b) ==> Eval(g, fuel, e, h, env) == Norm(Held(Int(Result(e.op, a, b))), h'))
            && (e.Comparison? ==> Eval(g, fuel, e, h, env) == Norm(Held(Bool(Holds(e.cmp, Int(a), Int(b)))), h'))
  {
    hide Bitwise, Pow2, TruncDiv, TruncMod;
    assert EvalBoth(g, fuel, e, h, env).Both?;
  }

  /** `x op= e` gives x the value of the operator on what x is once e has been evaluated, and e's value. */
  lemma AugmentedValue(g: seq<FunDef>, fuel: nat, e: Expr, h: Heap, env: nat, a: int, b: int)
    requires e.Augmented? && Defined(e.op, b)
    requires var o := Demand(Eval(g, fuel, e.r, h, env), env);
             o.Got? && o.v == Int(b) && ReadVar(o.h, env, e.x) == Some(Int(a))
    ensures var o := Eval(g, fuel, e, h, env);
            o.Norm? && o.res == Ref(e.x) && ReadVar(o.h, env, e.x) == Some(Int(Result(e.op, a, b)))
  {
    hide Bitwise, Pow2, TruncDiv, TruncMod, Walk, Locate;
    var h1 := Demand(Eval(g, fuel, e.r, h, env), env).h;
    ReadBack(h1, env, e.x, Int(Result(e.op, a, b)));
  }

  // ----- steps -----

  /** `--` undoes `++`, and both are one apart from where they started. */
  lemma StepsInverse(n: int, op: Step1)
    ensures Stepped(op, Int(n)).Write? && Stepped(op, Int(n)).v.Int?
    ensures Stepped(PosInc, Int(n)) == Stepped(PreInc, Int(n)) && Stepped(PosDec, Int(n)) == Stepped(PreDec, Int(n))
    ensures After(Stepped(PreDec, Int(n)).v.n) == n && Stepped(PreDec, Int(After(n))).v.n == n
  {
  }

  /** `++x` and `--x` yield the value that x has afterwards, `x++` and `x--` the one that it had before. */
  lemma PreAndPost(g: seq<FunDef>, fuel: nat, op: Step1, x: Off, n: int, h: Heap, env: nat)
    requires ReadVar(h, env, x) == Some(Int(n))
    ensures var o := Eval(g, fuel, IncDec(op, x), h, env);
            && o.Norm? && o.res.Held? && ReadVar(o.h, env, x).Some?
            && (var now := ReadVar(o.h, env, x).value;
                && (op == PreInc || op == PosInc ==> now == Int(n + 1))
                && (op == PreDec || op == PosDec ==> now == Int(n - 1))
                && (op == PreInc || op == PreDec ==> o.res.v == now)
                && (op == PosInc || op == PosDec ==> o.res.v == Int(n)))
  {
    ReadBack(h, env, x, Int(n + 1));
    ReadBack(h, env, x, Int(n - 1));
  }

  lemma ReadBack(h: Heap, env: nat, x: Off, v: Val)
    requires Locate(h, env, x).Some?
    ensures WriteVar(h, env, x, v).Some? && ReadVar(WriteVar(h, env, x, v).value, env, x) == Some(v)
  {
    WalkAfterSet(h, Locate(h, env, x).value, v, env, x.hops);
  }

  lemma {:induction false} WalkAfterSet(h: Heap, at: (nat, nat), v: Val, env: nat, hops: nat)
    requires at.0 < |h| && at.1 < |h[at.0].cells|
    ensures Walk(SetCell(h, at, v), env, hops) == Walk(h, env, hops)
    decreases hops
  {
    if env < |h| && hops > 0 && h[env].outer.Some? {
      WalkAfterSet(h, at, v, h[env].outer.value, hops - 1);
    }
  }

  /** `!` turns a boolean around and makes every number false. */
  lemma Negation(b: bool, n: int)
    ensures Not(Bool(b)) == Write(Bool(!b)) && Not(Int(n)) == Write(Bool(false)) && Not(Null) == Fail
  {
  }

  // ----- errors -----

  /** An operator on null is a fatal error, whatever the other operand; one on a boolean or a function is an
      exception; a number beside a boolean, a function or an array writes nothing. */
  lemma WrongOperands(op: Bin, n: int, b: bool, f: nat, r: Val)
    ensures Arith(op, Null, r) == Fail && Arith(op, r, Null) == Fail
    ensures r != Null ==> Arith(op, Bool(b), r).Raise? && Arith(op, Func(f), r).Raise?
    ensures r.Bool? || r.Func? || r.Arr? ==> Arith(op, Int(n), r) == NoWrite
    ensures BwNot(Null) == Fail && forall s: Step1 :: Stepped(s, Null) == Fail
  {
  }

  /** The formatter on a text whose only directive with an argument is `%T`, for the type's name. */
  function Format(f: string, ty: string): string {
    if f == "" then ""
    else if f[0] != '%' then [f[0]] + Format(f[1..], ty)
    else if |f| == 1 then ""
    else (if f[1] == '%' then "%" else if f[1] == 'T' then ty else "") + Format(f[2..], ty)
  }

  lemma {:induction false} FormatPlain(s: string, f: string, ty: string)
    requires '%' !in s
    ensures Format(s + f, ty) == s + Format(f, ty)
  {
    if s == "" {
      assert s + f == f;
    } else {
      FormatPlain(s[1..], f, ty);
      assert (s + f)[1..] == s[1..] + f;
      assert [s[0]] + (s[1..] + Format(f, ty)) == s + Format(f, ty);
    }
  }

  /** Every message is the formatted one, the remainder's without its sign. */
  lemma FormattedText(symbol: string, ty: string)
    requires '%' !in symbol || symbol == "%"
    ensures Unsupported(symbol, ty) == Raise(Str(Format("Cannot use " + (symbol + " operator with %T type"), ty)))
  {
    hide Format;
    FormatPlain("Cannot use ", symbol + " operator with %T type", ty);
    FormattedSymbol(symbol, ty);
    assert "Cannot use " + ((if symbol == "%" then "" else symbol + " ") + ("operator with " + ty + " type"))
           == "Cannot use " + (if symbol == "%" then "" else symbol + " ") + "operator with " + ty + " type";
  }

  lemma FormattedSymbol(symbol: string, ty: string)
    requires '%' !in symbol || symbol == "%"
    ensures Format(symbol + " operator with %T type", ty)
            == (if symbol == "%" then "" else symbol + " ") + ("operator with " + ty + " type")
  {
    hide Format;
    if symbol == "%" {
      RemainderText(ty);
    } else {
      FormatPlain(symbol, " operator with %T type", ty);
      FormatPlain(" ", "operator with %T type", ty);
      assert " " + "operator with %T type" == " operator with %T type";
      FormatEnd(ty);
    }
  }

  lemma FormatEnd(ty: string)
    ensures Format("operator with %T type", ty) == "operator with " + ty + " type"
  {
    hide Format;
    FormatPlain("operator with ", "%T type", ty);
    assert "operator with " + "%T type" == "operator with %T type";
    TypeName(" type", ty);
    FormatPlain(" type", "", ty);
    assert " type" + "" == " type" && "%T" + " type" == "%T type";
    FormatNothing(ty);
  }

  lemma FormatNothing(ty: string)
    ensures Format("", ty) == ""
  {
  }

  lemma TypeName(rest: string, ty: string)
    ensures Format("%T" + rest, ty) == ty + Format(rest, ty)
  {
    assert ("%T" + rest)[2..] == rest;
  }

  lemma RemainderText(ty: string)
    ensures Format("%" + " operator with %T type", ty) == "operator with " + ty + " type"
  {
    var f := "%" + " operator with %T type";
    assert f[2..] == "operator with %T type";
    FormatEnd(ty);
  }

  /** Which symbol each operator's message has. */
  lemma ArithmeticTexts(b: bool, f: nat, r: Val)
    requires r != Null
    ensures Arith(Add, Bool(b), r) == Unsupported("+", "Bool") && Arith(Sub, Bool(b), r) == Unsupported("-", "Bool")
    ensures Arith(Mul, Bool(b), r) == Unsupported("*", "Bool") && Arith(Div, Bool(b), r) == Unsupported("/", "Bool")
    ensures Arith(Mod, Bool(b), r) == Unsupported("%", "Bool") && Arith(BwAnd, Bool(b), r) == Unsupported("&", "Bool")
    ensures Arith(BwOr, Bool(b), r) == Unsupported("|", "Bool") && Arith(BwXor, Bool(b), r) == Unsupported("^", "Bool")
    ensures Arith(Shl, Bool(b), r) == Unsupported("<<", "Bool") && Arith(Shr, Bool(b), r) == Unsupported(">>", "Bool")
    ensures Arith(Add, Func(f), r) == Unsupported("+", "Function")
            && Arith(Mod, Func(f), r) == Unsupported("%", "Function")
    ensures BwNot(Bool(b)) == Unsupported("~", "Bool") && BwNot(Func(f)) == Unsupported("~", "Function")
    ensures Not(Func(f)) == Unsupported("!", "Function")
  {
    hide Unsupported;
  }

  lemma OtherTexts(b: bool, f: nat, r: Val)
    requires r != Null
    ensures Compare(Gt, Bool(b), r) == Unsupported(">", "Bool") && Compare(Ge, Bool(b), r) == Unsupported(">=", "Bool")
    ensures Compare(Lt, Bool(b), r) == Unsupported("<", "Bool") && Compare(Le, Bool(b), r) == Unsupported("<=", "Bool")
    ensures Compare(Gt, Func(f), r) == Unsupported(">", "Function")
            && Compare(Ge, Func(f), r) == Unsupported(">=", "Function")
    ensures Compare(Lt, Func(f), r) == Unsupported("<", "Function")
            && Compare(Le, Func(f), r) == Unsupported("<=", "Function")
    ensures Stepped(PreInc, Bool(b)) == Stepped(PosInc, Bool(b)) == Unsupported("++", "Bool")
    ensures Stepped(PreDec, Bool(b)) == Stepped(PosDec, Bool(b)) == Unsupported("--", "Bool")
    ensures Stepped(PreInc, Func(f)) == Stepped(PosInc, Func(f)) == Unsupported("++", "Function")
    ensures Stepped(PreDec, Func(f)) == Stepped(PosDec, Func(f)) == Unsupported("--", "Function")
  {
    hide Unsupported;
  }
}
