/**
 * Tokens and the abstract syntax tree of the differentiator
 * (the `TokenType`, `Token`, `Expr` and `Literal` declarations of symbolicDiff/main.c).
 */
module Syntax {
  import opened Wrappers

  /** The closed set of token kinds; the order is that of the C enumeration. */
  datatype TokenType =
    | Plus | Minus | Slash | Star | Pow
    | LeftParen | RightParen
    | Number | Variable
    | Sin | Cos | Tan | Ln | Exp

  /**
   * A token. `value` is meaningful only for `Number`; the C code leaves it
   * uninitialised for every other kind and never reads it, the model sets it to 0.
   */
  datatype Token = Token(kind: TokenType, value: real)

  /**
   * A node of the tree: a `Literal` (`Num` for NUMBER, `Var` for the variable x)
   * or an `Expr` with an operator and two operand slots, either of which may be
   * absent (a C `NULL`). The parser does no arity check, so any token kind may
   * stand in the operator position.
   */
  datatype Node =
    | Num(value: real)
    | Var
    | Expr(op: TokenType, op1: Option<Node>, op2: Option<Node>)

  /** The binary operators. */
  predicate IsBinary(op: TokenType) {
    op == Plus || op == Minus || op == Star || op == Slash || op == Pow
  }

  /** The unary (function-name) operators. */
  predicate IsUnary(op: TokenType) {
    op == Sin || op == Cos || op == Tan || op == Ln || op == Exp
  }

  /** Number of nodes in a tree. */
  function Size(e: Option<Node>): nat {
    match e
    case None => 0
    case Some(Expr(_, a, b)) => 1 + Size(a) + Size(b)
    case Some(_) => 1
  }

  /**
   * The arity discipline of a well-formed tree: every operator is a real
   * operator, binary ones have both operands and unary ones only the first.
   */
  predicate WellFormed(n: Node) {
    match n
    case Num(_) => true
    case Var => true
    case Expr(op, a, b) =>
      && a.Some? && WellFormed(a.value)
      && (IsBinary(op) ==> b.Some? && WellFormed(b.value))
      && (IsUnary(op) ==> b.None?)
      && (IsBinary(op) || IsUnary(op))
  }

  // Shorthands for building trees.
  function Bin(op: TokenType, a: Node, b: Node): Node { Expr(op, Some(a), Some(b)) }
  function Un(op: TokenType, a: Node): Node { Expr(op, Some(a), None) }
}
