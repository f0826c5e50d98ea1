/**
 * The simplifier: `simplify` of symbolicDiff/main.c, one bottom-up pass.
 *
 * `Simplify` simplifies the operands first and then applies the rules of
 * the node (`Rewrite`) to the results. A `None` result is the C `NULL`: the
 * error of a division by the literal 0, or the absence of a tree.
 */
module Simplifier {
  import opened Wrappers
  import opened Syntax

  /**
   * The arithmetic on `double` that folds two number literals: `+`, `-`,
   * `*`, `/` and the C library `pow`. Floating point is not modelled; the
   * operations are parameters, and the laws the rules rely on are stated
   * where they are used.
   */
  datatype Arith = Arith(
    add: (real, real) -> real, sub: (real, real) -> real,
    mul: (real, real) -> real, div: (real, real) -> real,
    pow: (real, real) -> real)

  predicate IsLiteral(n: Node) { !n.Expr? }

  predicate IsNum(n: Node, v: real) { n.Num? && n.value == v }

  /**
   * `simplify`. A first operand that is or becomes `NULL` is dereferenced at
   * main.c:173; the model gives `None` there. A second operand that becomes
   * `NULL` is taken as absent, as the code does (main.c:174).
   */
  function Simplify(e: Option<Node>, ar: Arith): (r: Option<Node>)
    ensures r.Some? ==> Size(r) <= Size(e)
    decreases Size(e), 1
  {
    match e
    case None => None
    case Some(Expr(op, o1, o2)) =>
      (match Simplify(o1, ar)
       case None => None
       case Some(a) => Rewrite(op, a, Simplify(o2, ar), ar))
    case Some(Num(_)) => e
    case Some(Var) => e
  }

  /**
   * The rules of one node (main.c:176-361), given its simplified operands `a`
   * and `b`. Two rules are not modelled as firing, because with defined
   * inputs they are reached only with a variable literal, whose number the C
   * code never set: `a - a` (main.c:206-211) and `0 ^ positive`
   * (main.c:289-296). The rules with one literal operand (main.c:307-358)
   * read that literal's number; they fire only for a number literal.
   */
  function Rewrite(op: TokenType, a: Node, b: Option<Node>, ar: Arith): (r: Option<Node>)
    ensures r.Some? ==> Size(r) <= 1 + Size(Some(a)) + Size(b)
    decreases 1 + Size(Some(a)) + Size(b), 0
  {
    var form := Some(Expr(op, Some(a), b));
    if IsLiteral(a) && b.Some? && IsLiteral(b.value) then
      var c := b.value;
      match op
      case Plus =>
        if a.Num? && c.Num? then Some(Num(ar.add(a.value, c.value)))
        else if IsNum(a, 0.0) then b
        else if IsNum(c, 0.0) then Some(a)
        else form
      case Minus =>
        if a.Num? && c.Num? then Some(Num(ar.sub(a.value, c.value)))
        else if IsNum(c, 0.0) then Some(a)
        else if IsNum(a, 0.0) then b  // `0 - x` gives x: the negation at main.c:216 acts on the unset number of x
        else form
      case Star =>
        if a.Num? && c.Num? then Some(Num(ar.mul(a.value, c.value)))
        else if IsNum(a, 0.0) || IsNum(c, 0.0) then Some(Num(0.0))
        else if IsNum(a, 1.0) then b
        else if IsNum(c, 1.0) then Some(a)
        else form
      case Slash =>
        if IsNum(c, 0.0) then None
        else if a.Num? && c.Num? then Some(Num(ar.div(a.value, c.value)))
        else if IsNum(c, 1.0) then Some(a)
        else if IsNum(a, 0.0) then Some(Num(0.0))
        else form
      case Pow =>
        if IsNum(c, 1.0) then Some(a)
        else if a.Num? && c.Num? then Some(Num(ar.pow(a.value, c.value)))
        else if IsNum(c, 0.0) then Some(Num(1.0))
        else if IsNum(a, 1.0) then Some(a)
        else form
      case _ => form
    else if IsLiteral(a) then
      // the second operand is an expression or absent (main.c:307-331)
      if op == Plus && IsNum(a, 0.0) then Simplify(b, ar)
      else if op == Star && IsNum(a, 0.0) then Some(Num(0.0))
      else if op == Star && IsNum(a, 1.0) then Simplify(b, ar)
      else form
    else if b.Some? && IsLiteral(b.value) then
      // the first operand is an expression (main.c:334-358)
      var c := b.value;
      if op == Plus && IsNum(c, 0.0) then Simplify(Some(a), ar)
      else if op == Star && IsNum(c, 0.0) then Some(Num(0.0))
      else if op == Star && IsNum(c, 1.0) then Simplify(Some(a), ar)
      else form
    else
      form
  }

  /**
   * Every rule gives an error, a fresh number literal, one of the simplified
   * operands (simplified once more, for the rules at main.c:313, 327, 340
   * and 354), or the node over its simplified operands.
   */
  lemma RewriteShape(op: TokenType, a: Node, b: Option<Node>, ar: Arith)
    ensures var r := Rewrite(op, a, b, ar);
      || r == None || (r.Some? && r.value.Num?)
      || r == Some(a) || r == b || r == Simplify(Some(a), ar) || r == Simplify(b, ar)
      || r == Some(Expr(op, Some(a), b))
  {
  }

  /** One rewrite step keeps simplified input simplified. */
  lemma RewriteStable(op: TokenType, a: Node, b: Option<Node>, ar: Arith)
    requires Simplify(Some(a), ar) == Some(a)
    requires Simplify(b, ar) == b
    ensures Simplify(Rewrite(op, a, b, ar), ar) == Rewrite(op, a, b, ar)
  {
    var r := Rewrite(op, a, b, ar);
    RewriteShape(op, a, b, ar);
    if r == Some(Expr(op, Some(a), b)) {
      assert Simplify(r, ar) == Rewrite(op, a, Simplify(b, ar), ar);
    }
  }

  /**
   * A single pass is a fixpoint: simplifying the result again changes
   * nothing (and an error stays an error).
   */
  lemma {:induction false} SimplifyIdempotent(e: Option<Node>, ar: Arith)
    ensures Simplify(Simplify(e, ar), ar) == Simplify(e, ar)
    decreases Size(e)
  {
    match e
    case None =>
    case Some(Expr(op, o1, o2)) =>
      SimplifyIdempotent(o1, ar);
      SimplifyIdempotent(o2, ar);
      if Simplify(o1, ar).Some? {
        RewriteStable(op, Simplify(o1, ar).value, Simplify(o2, ar), ar);
      }
    case Some(Num(_)) =>
    case Some(Var) =>
  }

  /** A literal is returned unchanged (main.c:364-366). */
  lemma LiteralUnchanged(n: Node, ar: Arith)
    requires !n.Expr?
    ensures Simplify(Some(n), ar) == Some(n)
  {
  }

  /** The result of folding two number literals under `op`. */
  function Fold(op: TokenType, a: real, c: real, ar: Arith): real {
    match op
    case Plus => ar.add(a, c)
    case Minus => ar.sub(a, c)
    case Star => ar.mul(a, c)
    case Slash => ar.div(a, c)
    case _ => ar.pow(a, c)
  }

  /**
   * Two number literals under an operator (main.c:183-190, 198-204, 225-231,
   * 251-257, 274-280) fold to one number, except that a divisor 0 is an
   * error and an exponent 1 gives the base literal itself.
   */
  lemma FoldLiterals(op: TokenType, a: real, c: real, ar: Arith)
    requires IsBinary(op)
    ensures Simplify(Some(Bin(op, Num(a), Num(c))), ar) ==
      if op == Slash && c == 0.0 then None
      else if op == Pow && c == 1.0 then Some(Num(a))
      else Some(Num(Fold(op, a, c, ar)))
  {
  }

  /**
   * The power rules with a literal base (main.c:271-273, 282-288): an
   * exponent that simplifies to 1 gives the base, and an exponent 0 gives 1
   * unless the base is a number, which is folded.
   */
  lemma PowerOfLiteral(base: Node, e: Option<Node>, ar: Arith)
    requires !base.Expr?
    ensures Simplify(e, ar) == Some(Num(1.0)) ==>
      Simplify(Some(Expr(Pow, Some(base), e)), ar) == Some(base)
    ensures base == Var && Simplify(e, ar) == Some(Num(0.0)) ==>
      Simplify(Some(Expr(Pow, Some(base), e)), ar) == Some(Num(1.0))
  {
  }

  /**
   * The power rules live in the block for two literal operands: a compound
   * base is left as it is, whatever the exponent.
   */
  lemma PowerOfCompound(base: Option<Node>, e: Option<Node>, ar: Arith)
    requires Simplify(base, ar).Some? && Simplify(base, ar).value.Expr?
    ensures Simplify(Some(Expr(Pow, base, e)), ar) == Some(Expr(Pow, Simplify(base, ar), Simplify(e, ar)))
  {
  }

  /**
   * A divisor that simplifies to the literal 0 is an error when the
   * numerator simplifies to a literal (main.c:246-250). The check sits in the
   * block for two literal operands, so over a compound numerator the
   * quotient is kept as it is.
   */
  lemma DivisionByZero(num: Option<Node>, den: Option<Node>, ar: Arith)
    requires Simplify(num, ar).Some? && Simplify(den, ar) == Some(Num(0.0))
    ensures Simplify(Some(Expr(Slash, num, den)), ar) ==
      if Simplify(num, ar).value.Expr? then Some(Expr(Slash, Simplify(num, ar), Some(Num(0.0))))
      else None
  {
  }

  /**
   * The rules with one compound operand (main.c:307-358): `0 * e` and
   * `e * 0` give 0; `0 + e`, `e + 0`, `1 * e` and `e * 1` give the simplified
   * `e`, simplified once more, which changes nothing.
   */
  lemma {:induction false} MixedRules(e: Option<Node>, ar: Arith)
    requires Simplify(e, ar).Some? && Simplify(e, ar).value.Expr?
    ensures Simplify(Some(Expr(Star, Some(Num(0.0)), e)), ar) == Some(Num(0.0))
    ensures Simplify(Some(Expr(Star, e, Some(Num(0.0)))), ar) == Some(Num(0.0))
    ensures Simplify(Some(Expr(Plus, Some(Num(0.0)), e)), ar) == Simplify(e, ar)
    ensures Simplify(Some(Expr(Plus, e, Some(Num(0.0)))), ar) == Simplify(e, ar)
    ensures Simplify(Some(Expr(Star, Some(Num(1.0)), e)), ar) == Simplify(e, ar)
    ensures Simplify(Some(Expr(Star, e, Some(Num(1.0)))), ar) == Simplify(e, ar)
  {
    SimplifyIdempotent(e, ar);
  }

  /** No subtree simplifies to an error. */
  ghost predicate ErrorFree(e: Option<Node>, ar: Arith) {
    match e
    case None => true
    case Some(Expr(_, a, b)) => Simplify(e, ar).Some? && ErrorFree(a, ar) && ErrorFree(b, ar)
    case Some(_) => true
  }

  /**
   * Simplification keeps a well-formed tree well-formed, unless an error in
   * a second operand is taken as an absent operand (main.c:174).
   */
  lemma {:induction false} SimplifyWellFormed(n: Node, ar: Arith)
    requires WellFormed(n) && ErrorFree(Some(n), ar)
    ensures Simplify(Some(n), ar).Some? ==> WellFormed(Simplify(Some(n), ar).value)
    decreases Size(Some(n))
  {
    match n
    case Num(_) =>
    case Var =>
    case Expr(op, o1, o2) =>
      SimplifyWellFormed(o1.value, ar);
      assert ErrorFree(o2, ar);
      var a := Simplify(o1, ar);
      if a.Some? {
        SimplifyIdempotent(o1, ar);
        SimplifyIdempotent(o2, ar);
        if IsBinary(op) {
          SimplifyWellFormed(o2.value, ar);
        }
        RewriteShape(op, a.value, Simplify(o2, ar), ar);
      }
  }
}
