/**
 * The differentiator: `dispatch` and the `deriv*` rules of symbolicDiff/main.c.
 *
 * The C code stores a function pointer in every node the parser builds and
 * `dispatch` calls it; here `Derive` matches on the node. Result trees share
 * subtrees of the input exactly where the C code reuses a pointer; with
 * values that sharing is invisible.
 */
module Derivative {
  import opened Wrappers
  import opened Syntax

  /**
   * The operators the parser attaches a rule to (main.c:780-791). `^` is not
   * one of them: that line is commented out, so `dispatch` on a parsed power
   * would call a pointer that was never set.
   */
  predicate HasRule(op: TokenType) {
    op == Plus || op == Minus || op == Star || op == Slash ||
    op == Sin || op == Cos || op == Tan || op == Ln || op == Exp
  }

  /** Every node `Derive` visits has a rule: binary rules visit both operands, unary ones the first. */
  predicate Differentiable(e: Option<Node>) {
    match e
    case None => true
    case Some(Num(_)) => true
    case Some(Var) => true
    case Some(Expr(op, a, b)) =>
      HasRule(op) && Differentiable(a) && (IsBinary(op) ==> Differentiable(b))
  }

  /** `dispatch`: the derivative with respect to x; `NULL` differentiates to `NULL`. */
  function Derive(e: Option<Node>): (r: Option<Node>)
    requires Differentiable(e)
    ensures r.Some? <==> e.Some?
    ensures e.Some? ==> (r.value.Expr? <==> e.value.Expr?)
  {
    match e
    case None => None
    case Some(Num(_)) => Some(Num(0.0))                   // derivNum
    case Some(Var) => Some(Num(1.0))                      // derivVar
    case Some(Expr(op, u, v)) =>
      match op
      case Plus => Some(Expr(Plus, Derive(u), Derive(v)))    // derivAdd
      case Minus => Some(Expr(Minus, Derive(u), Derive(v)))  // derivSub
      case Star =>                                           // derivMult: u'v + uv'
        Some(Expr(Plus, Some(Expr(Star, Derive(u), v)), Some(Expr(Star, u, Derive(v)))))
      case Slash =>                                          // derivQuot: (u'v - uv') / v^2
        Some(Expr(Slash,
          Some(Expr(Minus, Some(Expr(Star, Derive(u), v)), Some(Expr(Star, u, Derive(v))))),
          Some(Expr(Pow, v, Some(Num(2.0))))))
      case Sin =>                                            // derivSin: u' * cos u
        Some(Expr(Star, Derive(u), Some(Expr(Cos, u, None))))
      case Cos =>                                            // derivCos: u' * (-1 * sin u)
        Some(Expr(Star, Derive(u), Some(Expr(Star, Some(Num(-1.0)), Some(Expr(Sin, u, None))))))
      case Tan =>                                            // derivTan: u' / (cos u)^2
        Some(Expr(Slash, Derive(u), Some(Expr(Pow, Some(Expr(Cos, u, None)), Some(Num(2.0))))))
      case Ln =>                                             // derivLn: u' / u
        Some(Expr(Slash, Derive(u), u))
      case Exp =>                                            // derivExp: u' * (the node itself)
        Some(Expr(Star, Derive(u), e))
  }

  /**
   * `derivPow` (main.c:511-530), never reached from a parsed tree: the
   * coefficient is the exponent literal, and the power keeps its base with
   * the exponent lowered by one. The base is not differentiated (no chain
   * rule). The C code lowers the exponent of the input node in place and
   * reuses that node; here the lowered power is a new value.
   */
  function DerivPow(e: Node): (r: Option<Node>)
    requires e.Expr? && e.op == Pow && e.op2.Some? && e.op2.value.Num?
    ensures r.Some? && r.value.Expr? && r.value.op == Star
    ensures var p := r.value.op2; p.Some? && p.value.Expr? && p.value.op == Pow && p.value.op1 == e.op1
    ensures Size(r) == Size(Some(e)) + 2
  {
    var n := e.op2.value.value;
    var lowered := Some(Expr(Pow, e.op1, Some(Num(n - 1.0))));
    assert Size(lowered) == Size(Some(e));
    Some(Expr(Star, Some(Num(n)), lowered))
  }

  /** Derivatives of well-formed trees are well-formed. */
  lemma {:induction false} DeriveWellFormed(n: Node)
    requires WellFormed(n) && Differentiable(Some(n))
    ensures Derive(Some(n)).Some? && WellFormed(Derive(Some(n)).value)
  {
    match n
    case Num(_) =>
    case Var =>
    case Expr(op, u, v) =>
      DeriveWellFormed(u.value);
      if IsBinary(op) {
        DeriveWellFormed(v.value);
      }
  }

  /** Some node that `Derive` visits, following the same operands it does, is a power. */
  predicate PowVisited(e: Option<Node>) {
    match e
    case Some(Expr(op, a, b)) => op == Pow || PowVisited(a) || (IsBinary(op) && PowVisited(b))
    case _ => false
  }

  /** A power node has no rule, wherever the derivative would reach it. */
  lemma {:induction false} PowHasNoRule(e: Option<Node>)
    requires PowVisited(e)
    ensures !Differentiable(e)
  {
    var Expr(op, a, b) := e.value;
    if op != Pow {
      if PowVisited(a) {
        PowHasNoRule(a);
      } else {
        PowHasNoRule(b);
      }
    }
  }
}
