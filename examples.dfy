/**
 * Worked examples of the pipeline, on the arithmetic of the real numbers
 * (with a `pow` that is exact on integer exponents), and the laws of that
 * arithmetic.
 */
module Examples {
  import opened Wrappers
  import opened Syntax
  import opened Lexer
  import opened Parser
  import opened Printer
  import opened Derivative
  import opened Simplifier
  import opened Semantics
  import opened RoundTrip

  /** `a` to a natural power. */
  function PowNat(a: real, n: nat): real {
    if n == 0 then 1.0 else a * PowNat(a, n - 1)
  }

  /** Powers with a natural exponent; any other exponent gives 1 (the examples use none). */
  function RealPow(a: real, b: real): real {
    if 0.0 <= b && IsIntegral(b) then PowNat(a, b.Floor) else 1.0
  }

  const RealArith := Arith(
    (a: real, b: real) => a + b, (a: real, b: real) => a - b,
    (a: real, b: real) => a * b, (a: real, b: real) => if b == 0.0 then 0.0 else a / b,
    RealPow)

  lemma {:induction false} PowNatOne(n: nat)
    ensures PowNat(1.0, n) == 1.0
  {
    if n > 0 {
      PowNatOne(n - 1);
    }
  }

  /** The laws the simplifier relies on hold for real arithmetic. */
  lemma RealArithLaws()
    ensures ArithLaws(RealArith)
  {
    forall y: real {
      RealArithAt(y);
    }
  }

  /** The laws of `ArithLaws` at one value. */
  lemma RealArithAt(y: real)
    ensures RealArith.add(0.0, y) == y && RealArith.add(y, 0.0) == y && RealArith.sub(y, 0.0) == y
    ensures RealArith.mul(0.0, y) == 0.0 && RealArith.mul(y, 0.0) == 0.0
    ensures RealArith.mul(1.0, y) == y && RealArith.mul(y, 1.0) == y
    ensures RealArith.div(y, 1.0) == y && (y != 0.0 ==> RealArith.div(0.0, y) == 0.0)
    ensures RealPow(y, 1.0) == y && RealPow(y, 0.0) == 1.0 && RealPow(1.0, y) == 1.0
  {
    assert PowNat(y, 1) == y * PowNat(y, 0);
    if 0.0 <= y && IsIntegral(y) {
      PowNatOne(y.Floor);
    }
  }

  /** Real arithmetic squares with `pow` as the quotient and tangent rules need. */
  lemma RealSquareLaw()
    ensures SquareLaw(RealArith)
  {
    forall y: real
      ensures RealArith.pow(y, 2.0) == RealArith.mul(y, y)
      ensures y != 0.0 ==> RealArith.mul(y, y) != 0.0
    {
      assert PowNat(y, 2) == y * PowNat(y, 1);
      assert PowNat(y, 1) == y * PowNat(y, 0);
    }
  }

  /** Every number up to `d` fits in `d` digits, so the examples' literals are printable. */
  lemma {:induction false} Pow10Exceeds(d: nat)
    ensures d < Pow10(d)
  {
    if d > 0 {
      Pow10Exceeds(d - 1);
    }
  }

  /** An environment at the point `x = v` (the elementary functions are not used here). */
  function At(v: real): Env {
    Env(v, RealArith, _ => 0.0, _ => 0.0, _ => 0.0, _ => 0.0, _ => 0.0)
  }

  const X: Node := Var

  function N(v: real): Node { Num(v) }

  /** d/dx (* 2 x), simplified, is 2. */
  lemma DeriveTwiceX()
    ensures Simplify(Derive(Some(Bin(Star, N(2.0), X))), RealArith) == Some(N(2.0))
  {
  }

  /** d/dx (+ x x), simplified, is 2. */
  lemma DeriveXPlusX()
    ensures Simplify(Derive(Some(Bin(Plus, X, X))), RealArith) == Some(N(2.0))
  {
  }

  /** `derivPow` of (^ x 2), simplified, is (* 2 x). */
  lemma DerivPowSquare()
    ensures Simplify(DerivPow(Bin(Pow, X, N(2.0))), RealArith) == Some(Bin(Star, N(2.0), X))
  {
  }

  /** (/ 1 0) simplifies to an error. */
  lemma DivideByZero()
    ensures Simplify(Some(Bin(Slash, N(1.0), N(0.0))), RealArith) == None
  {
  }

  /** (/ (sin x) 0) is kept: the zero test is made only when the numerator is a literal. */
  lemma DivideCompoundByZero()
    ensures Simplify(Some(Bin(Slash, Un(Sin, X), N(0.0))), RealArith) == Some(Bin(Slash, Un(Sin, X), N(0.0)))
  {
  }

  /** (* 0 (sin x)) simplifies to 0. */
  lemma ZeroTimesSine()
    ensures Simplify(Some(Bin(Star, N(0.0), Un(Sin, X))), RealArith) == Some(N(0.0))
  {
  }

  /**
   * An error in a second operand is taken as an absent operand:
   * (+ 1 (/ 1 0)) simplifies to (+ 1), which is defined nowhere.
   */
  lemma SwallowedError()
    ensures Simplify(Some(Bin(Plus, N(1.0), Bin(Slash, N(1.0), N(0.0)))), RealArith) == Some(Expr(Plus, Some(N(1.0)), None))
    ensures Eval(Some(Expr(Plus, Some(N(1.0)), None)), At(1.0)) == None
  {
  }

  /** (- 0 x) simplifies to x: the sign is lost, so at x = 1 the value changes from -1 to 1. */
  lemma SignLost()
    ensures Simplify(Some(Bin(Minus, N(0.0), X)), RealArith) == Some(X)
    ensures Eval(Some(Bin(Minus, N(0.0), X)), At(1.0)) == Some(-1.0)
    ensures Eval(Some(X), At(1.0)) == Some(1.0)
  {
  }

  /**
   * `derivPow` has no chain rule: for (^ (* 2 x) 2) at x = 1 it gives 4,
   * where the slope is 8.
   */
  lemma PowerRuleWithoutChainRule()
    ensures Eval(DerivPow(Bin(Pow, Bin(Star, N(2.0), X), N(2.0))), At(1.0)) == Some(4.0)
    ensures Dual(Some(Bin(Pow, Bin(Star, N(2.0), X), N(2.0))), At(1.0)) == Some((4.0, 8.0))
  {
  }

  /** A parsed power has no derivative rule. */
  lemma ParsedPowerHasNoRule()
    ensures Lex("(^ x 2)").Success?
    ensures ParseTokens(Lex("(^ x 2)").value) == Success(Some(Bin(Pow, X, N(2.0))))
    ensures !Differentiable(Some(Bin(Pow, X, N(2.0))))
  {
    var e := Some(Bin(Pow, X, N(2.0)));
    assert Print(e) == "(^ x 2)";
    Pow10Exceeds(MaxNumberLength);
    ParseOfPrint(e);
  }

  /** (+ 1 (* 2 x)) reads and prints back unchanged. */
  lemma ReadBack()
    ensures Lex("(+ 1 (* 2 x))").Success?
    ensures ParseTokens(Lex("(+ 1 (* 2 x))").value).Success?
    ensures Print(ParseTokens(Lex("(+ 1 (* 2 x))").value).value) == "(+ 1 (* 2 x))"
  {
    var e := Some(Bin(Plus, N(1.0), Bin(Star, N(2.0), X)));
    assert Print(e) == "(+ 1 (* 2 x))";
    Pow10Exceeds(MaxNumberLength);
    PrintParseLex("(+ 1 (* 2 x))", e);
  }

  /** Tokens of a keyword: `sin` is one token, `(sin x)` three plus `)`. */
  lemma KeywordTokens()
    ensures Lex("(sin x)") == Success([Token(LeftParen, 0.0), Token(Sin, 0.0), Token(Variable, 0.0), Token(RightParen, 0.0)])
  {
    var e := Some(Un(Sin, X));
    assert Print(e) == "(sin x)";
    assert TokensOf(e) == [Token(LeftParen, 0.0), Token(Sin, 0.0), Token(Variable, 0.0), Token(RightParen, 0.0)];
    ParseOfPrint(e);
  }
}
