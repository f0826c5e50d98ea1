/** The canonical prefix printer: `lisptify` of symbolicDiff/main.c. */
module Printer {
  import opened Wrappers
  import opened Syntax

  /** The operator symbols of main.c:82-116; a token kind that is not an operator prints as `?`. */
  function Symbol(op: TokenType): string {
    match op
    case Plus => "+"
    case Minus => "-"
    case Star => "*"
    case Slash => "/"
    case Pow => "^"
    case Sin => "sin"
    case Cos => "cos"
    case Tan => "tan"
    case Exp => "exp"
    case Ln => "ln"
    case _ => "?"
  }

  function DigitChar(d: nat): char
    requires d < 10
  {
    ('0' as int + d) as char
  }

  /** Decimal digits of a natural number, without leading zeros. */
  function NatText(n: nat): string
    decreases n
  {
    if n < 10 then [DigitChar(n)] else NatText(n / 10) + [DigitChar(n % 10)]
  }

  /** A real number is integral (the test `num == (int) num`, without the width of `int`). */
  predicate IsIntegral(v: real) {
    v == v.Floor as real
  }

  /** `%.0f` of an integral value. */
  function IntegerText(k: int): string {
    if k < 0 then "-" + NatText(-k) else NatText(k)
  }

  /**
   * `%.1f` of a non-integral value: |v| rounded to tenths, ties to even, as
   * the C library rounds the exact value it is given; the sign is kept.
   */
  function TenthsText(v: real): string {
    var m := (if v < 0.0 then -v else v) * 10.0;
    var f := m.Floor;
    var tenths: nat := if m - f as real > 0.5 || (m - f as real == 0.5 && f % 2 == 1) then f + 1 else f;
    (if v < 0.0 then "-" else "") + NatText(tenths / 10) + "." + [DigitChar(tenths % 10)]
  }

  /** A number literal (main.c:130-136). */
  function NumberText(v: real): (r: string)
    ensures r != []
    ensures !IsIntegral(v) ==> '.' in r
  {
    if IsIntegral(v) then IntegerText(v.Floor) else TenthsText(v)
  }

  /**
   * `lisptify`: `(`, the operator symbol, a space and the first operand, then a
   * space and the second operand only when there is one, then `)`. A literal
   * prints as its number or `x`; a `NULL` tree prints as nothing.
   */
  function Print(e: Option<Node>): (r: string)
    ensures e.None? <==> r == []
    ensures e.Some? && e.value.Expr? ==> r[0] == '(' && r[|r| - 1] == ')'
  {
    match e
    case None => ""
    case Some(Num(v)) => NumberText(v)
    case Some(Var) => "x"
    case Some(Expr(op, a, b)) =>
      "(" + Symbol(op) + " " + Print(a) + (if b.Some? then " " + Print(b) else "") + ")"
  }
}
