/**
 * The recursive-descent parser: `parse`, `expr` and `operand` of
 * symbolicDiff/main.c.
 *
 * `ParseExpr`, `ParseSlot` and `ParseOperand` are the specification: each
 * takes the token sequence and a cursor and gives the node read (or `None`,
 * the C `NULL`) and the cursor after it. The class `Cursor` is the C code's
 * shared `int* idx`, with methods that advance it, proved to agree with them.
 */
module Parser {
  import opened Wrappers
  import opened Syntax

  datatype ParseError =
    | MissingOperator  // `(` is the last token: main.c:771 reads past the end of the tokens
    | MissingOperand   // an operand slot starts with a token no operand starts with:
                       // main.c:795 and 801 dereference the NULL `operand` returns

  /** A node (or `NULL`) and the cursor after it, or the undefined case hit. */
  type Parsed = Result<(Option<Node>, nat), ParseError>

  /**
   * `expr` (main.c:766-810): after `(`, the next token, whatever its kind, is
   * the operator; then up to two operands, each read only when the cursor is
   * not at the end or on `)`. The closing `)` is not consumed here. Anything
   * else is read as an `operand`.
   */
  function ParseExpr(t: seq<Token>, i: nat): (r: Parsed)
    ensures r.Success? ==> r.value.1 >= i
    ensures r.Success? && r.value.0.Some? ==> r.value.1 > i
    decreases |t| - i, if i < |t| && t[i].kind == LeftParen then 0 else 3
  {
    if i < |t| && t[i].kind == LeftParen then
      if i + 1 >= |t| then Failure(MissingOperator)
      else
        var op := t[i + 1].kind;
        match ParseSlot(t, i + 2)
        case Failure(e) => Failure(e)
        case Success((a, j)) =>
          match ParseSlot(t, j)
          case Failure(e) => Failure(e)
          case Success((b, k)) => Success((Some(Expr(op, a, b)), k))
    else
      ParseOperand(t, i)
  }

  /**
   * One operand slot of `expr` (main.c:793-797, 799-803): empty at the end of
   * the tokens or at `)`; otherwise an operand, which must not be `NULL`.
   */
  function ParseSlot(t: seq<Token>, j: nat): (r: Parsed)
    ensures r.Success? ==> r.value.1 >= j
    ensures r.Success? && r.value.0.Some? ==> r.value.1 > j
    ensures r.Success? && r.value.0.None? ==> r.value.1 == j
    decreases |t| - j, 2
  {
    if j < |t| && t[j].kind != RightParen then
      match ParseOperand(t, j)
      case Failure(e) => Failure(e)
      case Success((n, k)) =>
        if n.None? then Failure(MissingOperand) else Success((n, k))
    else
      Success((None, j))
  }

  /**
   * `operand` (main.c:812-839): a NUMBER or VAR token is one literal; a `(`
   * starts a nested form, after which one more token is consumed as its
   * closing `)` (without looking at it); any other token gives `NULL` and
   * leaves the cursor where it was.
   */
  function ParseOperand(t: seq<Token>, i: nat): (r: Parsed)
    ensures r.Success? ==> r.value.1 >= i
    ensures r.Success? && r.value.0.Some? ==> r.value.1 > i
    ensures r.Success? && r.value.0.None? ==> r.value.1 == i
    decreases |t| - i, 1
  {
    if i < |t| && t[i].kind == Number then Success((Some(Num(t[i].value)), i + 1))
    else if i < |t| && t[i].kind == Variable then Success((Some(Var), i + 1))
    else if i < |t| && t[i].kind == LeftParen then
      match ParseExpr(t, i)
      case Failure(e) => Failure(e)
      case Success((n, k)) => Success((n, k + 1))
    else
      Success((None, i))
  }

  /** `parse` called with the cursor at the first token; tokens after the expression are ignored. */
  function ParseTokens(t: seq<Token>): (r: Result<Option<Node>, ParseError>)
    ensures r == Success(None) <==> t == [] || !(t[0].kind in {LeftParen, Number, Variable})
  {
    assert t != [] && t[0].kind != LeftParen ==> ParseExpr(t, 0) == ParseOperand(t, 0);
    match ParseExpr(t, 0)
    case Success((n, _)) => Success(n)
    case Failure(e) => Failure(e)
  }

  /**
   * A form read after `(` has the next token's kind as its operator and at
   * most two operands: a missing first operand means the form is empty, and a
   * missing second one means reading stopped at `)` or at the end of the
   * tokens (a nested form whose `)` is missing takes the cursor past it).
   */
  lemma FormStructure(t: seq<Token>, i: nat)
    requires i < |t| && t[i].kind == LeftParen && ParseExpr(t, i).Success?
    ensures var (n, k) := ParseExpr(t, i).value;
      && i + 1 < |t| && n.Some? && n.value.Expr? && n.value.op == t[i + 1].kind
      && (n.value.op1.None? ==> n.value.op2.None? && k == i + 2)
      && (n.value.op2.None? ==> k >= |t| || t[k].kind == RightParen)
  {
  }

  /** A NUMBER or VAR operand is one literal and consumes exactly its token. */
  lemma LiteralOperand(t: seq<Token>, i: nat)
    requires i < |t| && (t[i].kind == Number || t[i].kind == Variable)
    ensures ParseOperand(t, i) ==
      Success((Some(if t[i].kind == Number then Num(t[i].value) else Var), i + 1))
  {
  }

  /** A nested form consumes the token after it, its `)`. */
  lemma NestedOperand(t: seq<Token>, i: nat)
    requires i < |t| && t[i].kind == LeftParen && ParseExpr(t, i).Success?
    ensures ParseOperand(t, i) == Success((ParseExpr(t, i).value.0, ParseExpr(t, i).value.1 + 1))
  {
  }

  /** The outcome of a `Cursor` method against the specification, from cursor `i` to cursor `k`. */
  predicate Agrees(spec: Parsed, r: Result<Option<Node>, ParseError>, k: nat) {
    match spec
    case Success((n, j)) => r == Success(n) && k == j
    case Failure(e) => r == Failure(e)
  }

  /** The parser state of main.c: the tokens and the cursor `*idx` that `expr` and `operand` advance. */
  class Cursor {
    const tokens: seq<Token>
    var idx: nat

    constructor (t: seq<Token>, start: nat)
      ensures tokens == t && idx == start
    {
      tokens := t;
      idx := start;
    }

    /** `expr`. */
    method Expression() returns (r: Result<Option<Node>, ParseError>)
      modifies this
      decreases |tokens| - idx, if idx < |tokens| && tokens[idx].kind == LeftParen then 0 else 3
      ensures Agrees(ParseExpr(tokens, old(idx)), r, idx)
    {
      if idx < |tokens| && tokens[idx].kind == LeftParen {
        ghost var i := idx;
        idx := idx + 1;
        if idx >= |tokens| {
          return Failure(MissingOperator);
        }
        var op := tokens[idx].kind;
        idx := idx + 1;
        var a: Option<Node> := None;
        var b: Option<Node> := None;
        if idx < |tokens| && tokens[idx].kind != RightParen {
          var o := Operand();
          if o.Failure? { return Failure(o.error); }
          if o.value.None? { return Failure(MissingOperand); }
          a := o.value;
        }
        ghost var j := idx;
        assert ParseSlot(tokens, i + 2) == Success((a, j));
        if idx < |tokens| && tokens[idx].kind != RightParen {
          var o := Operand();
          if o.Failure? { return Failure(o.error); }
          if o.value.None? { return Failure(MissingOperand); }
          b := o.value;
        }
        assert ParseSlot(tokens, j) == Success((b, idx));
        return Success(Some(Expr(op, a, b)));
      }
      r := Operand();
    }

    /** `operand`. */
    method Operand() returns (r: Result<Option<Node>, ParseError>)
      modifies this
      decreases |tokens| - idx, 1
      ensures Agrees(ParseOperand(tokens, old(idx)), r, idx)
    {
      if idx < |tokens| && tokens[idx].kind == Number {
        r := Success(Some(Num(tokens[idx].value)));
        idx := idx + 1;
      } else if idx < |tokens| && tokens[idx].kind == Variable {
        r := Success(Some(Var));
        idx := idx + 1;
      } else if idx < |tokens| && tokens[idx].kind == LeftParen {
        r := Expression();
        if r.Success? { idx := idx + 1; }
      } else {
        r := Success(None);
      }
    }
  }
}
