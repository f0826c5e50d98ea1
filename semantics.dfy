/**
 * What a tree means: its value at a point, and the value and slope that the
 * rules of differentiation give (forward-mode differentiation with dual
 * numbers). These are the reference against which the differentiator and
 * the simplifier are proved.
 *
 * The arithmetic is that of `Arith`, the same operations the simplifier
 * folds literals with; the elementary functions are parameters too. Only the
 * laws stated below are assumed of them.
 */
module Semantics {
  import opened Wrappers
  import opened Syntax
  import opened Derivative
  import opened Simplifier

  /** A point x, the arithmetic and the elementary functions. */
  datatype Env = Env(
    x: real, ar: Arith,
    sin: real -> real, cos: real -> real, tan: real -> real,
    ln: real -> real, exp: real -> real)

  /** The identities behind the simplifier's rules (main.c:176-358). */
  ghost predicate ArithLaws(ar: Arith) {
    forall y ::
      && ar.add(0.0, y) == y && ar.add(y, 0.0) == y
      && ar.sub(y, 0.0) == y
      && ar.mul(0.0, y) == 0.0 && ar.mul(y, 0.0) == 0.0
      && ar.mul(1.0, y) == y && ar.mul(y, 1.0) == y
      && ar.div(y, 1.0) == y && (y != 0.0 ==> ar.div(0.0, y) == 0.0)
      && ar.pow(y, 1.0) == y && ar.pow(y, 0.0) == 1.0 && ar.pow(1.0, y) == 1.0
  }

  /** The law behind the quotient and tangent rules, which square with `pow`. */
  ghost predicate SquareLaw(ar: Arith) {
    forall y :: ar.pow(y, 2.0) == ar.mul(y, y) && (y != 0.0 ==> ar.mul(y, y) != 0.0)
  }

  function Apply(op: TokenType, v: real, env: Env): real
    requires IsUnary(op)
  {
    match op
    case Sin => env.sin(v)
    case Cos => env.cos(v)
    case Tan => env.tan(v)
    case Ln => env.ln(v)
    case Exp => env.exp(v)
  }

  /** A binary operator on two values; division by zero is undefined. */
  function Combine(op: TokenType, u: real, v: real, ar: Arith): Option<real>
    requires IsBinary(op)
  {
    match op
    case Plus => Some(ar.add(u, v))
    case Minus => Some(ar.sub(u, v))
    case Star => Some(ar.mul(u, v))
    case Slash => if v == 0.0 then None else Some(ar.div(u, v))
    case Pow => Some(ar.pow(u, v))
  }

  /**
   * The value of a tree at `env.x`; `None` where it is undefined: a division
   * by zero, a missing operand, or a token kind that is not an operator. A
   * unary operator looks at its first operand only.
   */
  function Eval(e: Option<Node>, env: Env): Option<real> {
    match e
    case None => None
    case Some(Num(v)) => Some(v)
    case Some(Var) => Some(env.x)
    case Some(Expr(op, a, b)) =>
      var va := Eval(a, env);
      if va.None? then None
      else if IsUnary(op) then Some(Apply(op, va.value, env))
      else if !IsBinary(op) then None
      else
        var vb := Eval(b, env);
        if vb.None? then None else Combine(op, va.value, vb.value, env.ar)
  }

  /**
   * Value and slope of `op u` from those of `u` by the chain rule:
   * sin' = cos, cos' = -1 * sin, tan' = 1 / cos^2, ln' = 1 / u, exp' = exp.
   */
  function ChainRule(op: TokenType, u: real, du: real, env: Env): Option<(real, real)>
    requires IsUnary(op)
  {
    var ar := env.ar;
    match op
    case Sin => Some((env.sin(u), ar.mul(du, env.cos(u))))
    case Cos => Some((env.cos(u), ar.mul(du, ar.mul(-1.0, env.sin(u)))))
    case Tan =>
      var c := env.cos(u);
      if c == 0.0 then None else Some((env.tan(u), ar.div(du, ar.mul(c, c))))
    case Ln => if u == 0.0 then None else Some((env.ln(u), ar.div(du, u)))
    case Exp => Some((env.exp(u), ar.mul(du, env.exp(u))))
  }

  /** Value and slope of `u op v`: the sum, difference, product and quotient rules. */
  function PairRule(op: TokenType, u: real, du: real, v: real, dv: real, ar: Arith): Option<(real, real)>
    requires IsBinary(op) && op != Pow
  {
    match op
    case Plus => Some((ar.add(u, v), ar.add(du, dv)))
    case Minus => Some((ar.sub(u, v), ar.sub(du, dv)))
    case Star => Some((ar.mul(u, v), ar.add(ar.mul(du, v), ar.mul(u, dv))))
    case Slash =>
      if v == 0.0 then None
      else Some((ar.div(u, v), ar.div(ar.sub(ar.mul(du, v), ar.mul(u, dv)), ar.mul(v, v))))
  }

  /**
   * Value and slope at `env.x` by the rules of differentiation, including
   * the power rule with the chain rule for a constant exponent n:
   * (u^n)' = n * u^(n-1) * u'. `None` where the slope is undefined.
   */
  function Dual(e: Option<Node>, env: Env): Option<(real, real)> {
    match e
    case None => None
    case Some(Num(v)) => Some((v, 0.0))
    case Some(Var) => Some((env.x, 1.0))
    case Some(Expr(op, a, b)) =>
      var da := Dual(a, env);
      if da.None? then None
      else if IsUnary(op) then ChainRule(op, da.value.0, da.value.1, env)
      else if op == Pow then
        (if b.Some? && b.value.Num? then
           var n := b.value.value;
           var ar := env.ar;
           Some((ar.pow(da.value.0, n), ar.mul(ar.mul(n, ar.pow(da.value.0, n - 1.0)), da.value.1)))
         else None)
      else if !IsBinary(op) then None
      else
        var db := Dual(b, env);
        if db.None? then None else PairRule(op, da.value.0, da.value.1, db.value.0, db.value.1, env.ar)
  }

  /** The value part of `Dual` is the value of the tree. */
  lemma {:induction false} DualValue(e: Option<Node>, env: Env)
    requires Dual(e, env).Some?
    ensures Eval(e, env) == Some(Dual(e, env).value.0)
  {
    match e
    case None =>
    case Some(Num(_)) =>
    case Some(Var) =>
    case Some(Expr(op, a, b)) =>
      DualValue(a, env);
      if IsBinary(op) && op != Pow {
        DualValue(b, env);
      }
  }

  /**
   * The derivative tree evaluates to the slope that the rules of
   * differentiation give, wherever that slope is defined.
   */
  lemma {:induction false} DeriveCorrect(e: Option<Node>, env: Env)
    requires Differentiable(e) && SquareLaw(env.ar)
    requires Dual(e, env).Some?
    ensures Eval(Derive(e), env) == Some(Dual(e, env).value.1)
  {
    match e
    case None =>
    case Some(Num(_)) =>
    case Some(Var) =>
    case Some(Expr(op, u, v)) =>
      DeriveCorrect(u, env);
      DualValue(u, env);
      if IsBinary(op) {
        DeriveCorrect(v, env);
        DualValue(v, env);
        BinaryStep(op, u, v, env);
      } else {
        UnaryStep(op, u, v, env);
      }
  }

  /** The step of `DeriveCorrect` at a binary node, given the facts about its operands. */
  lemma BinaryStep(op: TokenType, u: Option<Node>, v: Option<Node>, env: Env)
    requires HasRule(op) && IsBinary(op) && Differentiable(u) && Differentiable(v) && SquareLaw(env.ar)
    requires Dual(u, env).Some? && Dual(v, env).Some?
    requires Eval(u, env) == Some(Dual(u, env).value.0) && Eval(Derive(u), env) == Some(Dual(u, env).value.1)
    requires Eval(v, env) == Some(Dual(v, env).value.0) && Eval(Derive(v), env) == Some(Dual(v, env).value.1)
    requires Dual(Some(Expr(op, u, v)), env).Some?
    ensures Eval(Derive(Some(Expr(op, u, v))), env) == Some(Dual(Some(Expr(op, u, v)), env).value.1)
  {
    var ar := env.ar;
    var (uu, du) := Dual(u, env).value;
    var (vv, dv) := Dual(v, env).value;
    assert Dual(Some(Expr(op, u, v)), env) == PairRule(op, uu, du, vv, dv, ar);
    match op
    case Plus =>
    case Minus =>
    case Star => ProductValue(u, Derive(u), v, Derive(v), env, uu, du, vv, dv);
    case Slash => QuotientValue(u, Derive(u), v, Derive(v), env, uu, du, vv, dv);
  }

  /** The two products of the product and quotient rules evaluate to u'v and uv'. */
  lemma ProductsValue(u: Option<Node>, du: Option<Node>, v: Option<Node>, dv: Option<Node>, env: Env,
                      a: real, da: real, b: real, db: real)
    requires Eval(u, env) == Some(a) && Eval(du, env) == Some(da)
    requires Eval(v, env) == Some(b) && Eval(dv, env) == Some(db)
    ensures Eval(Some(Expr(Star, du, v)), env) == Some(env.ar.mul(da, b))
    ensures Eval(Some(Expr(Star, u, dv)), env) == Some(env.ar.mul(a, db))
  {
  }

  /** The tree of the product rule evaluates to u'v + uv'. */
  lemma ProductValue(u: Option<Node>, du: Option<Node>, v: Option<Node>, dv: Option<Node>, env: Env,
                     a: real, da: real, b: real, db: real)
    requires Eval(u, env) == Some(a) && Eval(du, env) == Some(da)
    requires Eval(v, env) == Some(b) && Eval(dv, env) == Some(db)
    ensures Eval(Some(Expr(Plus, Some(Expr(Star, du, v)), Some(Expr(Star, u, dv)))), env) ==
      Some(env.ar.add(env.ar.mul(da, b), env.ar.mul(a, db)))
  {
    ProductsValue(u, du, v, dv, env, a, da, b, db);
  }

  /** The tree of the quotient rule evaluates to (u'v - uv') / (v * v) where v is not 0. */
  lemma QuotientValue(u: Option<Node>, du: Option<Node>, v: Option<Node>, dv: Option<Node>, env: Env,
                      a: real, da: real, b: real, db: real)
    requires SquareLaw(env.ar)
    requires Eval(u, env) == Some(a) && Eval(du, env) == Some(da)
    requires Eval(v, env) == Some(b) && Eval(dv, env) == Some(db)
    requires b != 0.0
    ensures Eval(Some(Expr(Slash,
        Some(Expr(Minus, Some(Expr(Star, du, v)), Some(Expr(Star, u, dv)))),
        Some(Expr(Pow, v, Some(Num(2.0)))))), env) ==
      Some(env.ar.div(env.ar.sub(env.ar.mul(da, b), env.ar.mul(a, db)), env.ar.mul(b, b)))
  {
    var ar := env.ar;
    ProductsValue(u, du, v, dv, env, a, da, b, db);
    var top := Some(Expr(Minus, Some(Expr(Star, du, v)), Some(Expr(Star, u, dv))));
    assert Eval(top, env) == Some(ar.sub(ar.mul(da, b), ar.mul(a, db)));
    assert ar.pow(b, 2.0) == ar.mul(b, b) && ar.mul(b, b) != 0.0;
    assert Eval(Some(Expr(Pow, v, Some(Num(2.0)))), env) == Some(ar.mul(b, b));
  }

  /** The step of `DeriveCorrect` at a unary node, given the facts about its operand. */
  lemma UnaryStep(op: TokenType, u: Option<Node>, v: Option<Node>, env: Env)
    requires HasRule(op) && IsUnary(op) && Differentiable(u) && SquareLaw(env.ar)
    requires Dual(u, env).Some?
    requires Eval(u, env) == Some(Dual(u, env).value.0) && Eval(Derive(u), env) == Some(Dual(u, env).value.1)
    requires Dual(Some(Expr(op, u, v)), env).Some?
    ensures Eval(Derive(Some(Expr(op, u, v))), env) == Some(Dual(Some(Expr(op, u, v)), env).value.1)
  {
    var a := Dual(u, env).value.0;
    var da := Dual(u, env).value.1;
    assert Dual(Some(Expr(op, u, v)), env) == ChainRule(op, a, da, env);
    match op
    case Sin =>
      assert Eval(Some(Expr(Cos, u, None)), env) == Some(env.cos(a));
    case Cos =>
      assert Eval(Some(Expr(Sin, u, None)), env) == Some(env.sin(a));
      assert Eval(Some(Expr(Star, Some(Num(-1.0)), Some(Expr(Sin, u, None)))), env) == Some(env.ar.mul(-1.0, env.sin(a)));
    case Tan =>
      CosineSquareValue(u, env, a);
    case Ln =>
    case Exp =>
      assert Eval(Some(Expr(Exp, u, v)), env) == Some(env.exp(a));
  }

  /** The tree (cos u)^2 of the tangent rule evaluates to c * c, for c = cos u. */
  lemma CosineSquareValue(u: Option<Node>, env: Env, a: real)
    requires SquareLaw(env.ar) && Eval(u, env) == Some(a)
    ensures Eval(Some(Expr(Pow, Some(Expr(Cos, u, None)), Some(Num(2.0)))), env) == Some(env.ar.mul(env.cos(a), env.cos(a)))
    ensures env.cos(a) != 0.0 ==> env.ar.mul(env.cos(a), env.cos(a)) != 0.0
  {
    var c := env.cos(a);
    assert Eval(Some(Expr(Cos, u, None)), env) == Some(c);
    assert env.ar.pow(c, 2.0) == env.ar.mul(c, c);
  }

  /**
   * The power rule of `derivPow` gives the slope of `u ^ n` when the base has
   * slope 1, as the bare variable has; the chain-rule factor is missing.
   */
  lemma DerivPowCorrectForUnitSlope(u: Option<Node>, n: real, env: Env)
    requires ArithLaws(env.ar)
    requires Dual(u, env).Some? && Dual(u, env).value.1 == 1.0
    ensures Eval(DerivPow(Expr(Pow, u, Some(Num(n)))), env)
      == Some(Dual(Some(Expr(Pow, u, Some(Num(n)))), env).value.1)
  {
    var ar := env.ar;
    var w := Dual(u, env).value.0;
    var p := ar.mul(n, ar.pow(w, n - 1.0));
    assert Dual(Some(Expr(Pow, u, Some(Num(n)))), env).value.1 == ar.mul(p, 1.0);
    assert ar.mul(p, 1.0) == p;
    DualValue(u, env);
    PowerRuleValue(u, n, env, w);
  }

  /** The tree `derivPow` builds evaluates to n * w^(n-1) where the base evaluates to w. */
  lemma PowerRuleValue(u: Option<Node>, n: real, env: Env, w: real)
    requires Eval(u, env) == Some(w)
    ensures Eval(DerivPow(Expr(Pow, u, Some(Num(n)))), env) == Some(env.ar.mul(n, env.ar.pow(w, n - 1.0)))
  {
    assert Eval(Some(Expr(Pow, u, Some(Num(n - 1.0)))), env) == Some(env.ar.pow(w, n - 1.0));
  }

  /**
   * The `0 - x` rule loses the sign: a node whose operands simplify to `0` and
   * `x` under `-` is not value-preserving. This predicate says no node of the
   * tree is one.
   */
  ghost predicate SignRuleFree(e: Option<Node>, ar: Arith) {
    match e
    case None => true
    case Some(Num(_)) => true
    case Some(Var) => true
    case Some(Expr(op, a, b)) =>
      && SignRuleFree(a, ar) && SignRuleFree(b, ar)
      && !(op == Minus && Simplify(a, ar) == Some(Num(0.0)) && Simplify(b, ar) == Some(Var))
  }

  /** One rewrite step preserves the value of a defined node. */
  lemma RewriteSound(op: TokenType, a: Node, b: Option<Node>, env: Env)
    requires ArithLaws(env.ar)
    requires Simplify(Some(a), env.ar) == Some(a) && Simplify(b, env.ar) == b
    requires !(op == Minus && a == Num(0.0) && b == Some(Var))
    requires Eval(Some(Expr(op, Some(a), b)), env).Some?
    ensures Rewrite(op, a, b, env.ar).Some?
    ensures Eval(Rewrite(op, a, b, env.ar), env) == Eval(Some(Expr(op, Some(a), b)), env)
  {
    var va := Eval(Some(a), env).value;
    if b.Some? {
      var vb := Eval(b, env);
      if vb.Some? {
        var y := vb.value;
        assert env.ar.pow(va, 1.0) == va && env.ar.pow(va, 0.0) == 1.0 && env.ar.pow(1.0, y) == 1.0;
        assert env.ar.mul(va, 0.0) == 0.0 && env.ar.mul(va, 1.0) == va && env.ar.add(va, 0.0) == va;
        assert env.ar.mul(0.0, y) == 0.0 && env.ar.mul(1.0, y) == y && env.ar.add(0.0, y) == y;
        assert env.ar.sub(va, 0.0) == va && env.ar.div(va, 1.0) == va;
        assert y != 0.0 ==> env.ar.div(0.0, y) == 0.0;
      }
    }
  }

  /**
   * Simplification preserves the value of every tree whose value is defined
   * (the `0 - x` rule aside), and it reports an error only for a tree whose
   * value is undefined.
   */
  lemma {:induction false} SimplifySound(e: Option<Node>, env: Env)
    requires ArithLaws(env.ar) && SignRuleFree(e, env.ar)
    requires Eval(e, env).Some?
    ensures Simplify(e, env.ar).Some?
    ensures Eval(Simplify(e, env.ar), env) == Eval(e, env)
    decreases Size(e)
  {
    var ar := env.ar;
    match e
    case None =>
    case Some(Num(_)) =>
    case Some(Var) =>
    case Some(Expr(op, o1, o2)) =>
      SimplifySound(o1, env);
      SimplifyIdempotent(o1, ar);
      SimplifyIdempotent(o2, ar);
      var a := Simplify(o1, ar).value;
      var b := Simplify(o2, ar);
      if IsBinary(op) {
        SimplifySound(o2, env);
      }
      assert Eval(Some(Expr(op, Some(a), b)), env) == Eval(e, env);
      RewriteSound(op, a, b, env);
  }
}
