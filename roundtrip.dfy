/**
 * Printing and reading back: `tokenize` and `parse` undo `lisptify` on the
 * trees the parser can produce whose numbers are small non-negative
 * integers.
 */
module RoundTrip {
  import opened Wrappers
  import opened Syntax
  import opened Lexer
  import opened Parser
  import opened Printer

  function Pow10(d: nat): nat {
    if d == 0 then 1 else 10 * Pow10(d - 1)
  }

  /** The largest number literal (exclusive) whose digits fit the token buffer. */
  const NumberBound: nat := Pow10(MaxNumberLength)

  /**
   * The trees that print and read back unchanged: every operator is one
   * `lisptify` has a symbol for, a node has a second operand only when it has
   * a first (the parser never builds one otherwise), and every number is a
   * non-negative integer short enough for the token buffer.
   */
  predicate Printable(e: Option<Node>) {
    match e
    case None => true
    case Some(Num(v)) => IsIntegral(v) && 0.0 <= v && v.Floor < NumberBound
    case Some(Var) => true
    case Some(Expr(op, a, b)) =>
      (IsBinary(op) || IsUnary(op)) && (a.None? ==> b.None?) && Printable(a) && Printable(b)
  }

  /** The tokens of a printed tree. */
  function TokensOf(e: Option<Node>): seq<Token> {
    match e
    case None => []
    case Some(Num(v)) => [Token(Number, v)]
    case Some(Var) => [Token(Variable, 0.0)]
    case Some(Expr(op, a, b)) =>
      [Token(LeftParen, 0.0), Token(op, 0.0)] + TokensOf(a) + TokensOf(b) + [Token(RightParen, 0.0)]
  }

  // ---- digits ----

  lemma {:induction false} NatTextDigits(n: nat)
    ensures NatText(n) != []
    ensures forall k :: 0 <= k < |NatText(n)| ==> IsDigit(NatText(n)[k])
    ensures DigitsValue(NatText(n)) == n
    decreases n
  {
    if n >= 10 {
      NatTextDigits(n / 10);
      var u := NatText(n / 10) + [DigitChar(n % 10)];
      assert u[..|u| - 1] == NatText(n / 10);
    }
  }

  lemma {:induction false} NatTextLength(n: nat, d: nat)
    requires 1 <= d && n < Pow10(d)
    ensures |NatText(n)| <= d
    decreases d
  {
    if n >= 10 {
      assert d >= 2;
      NatTextLength(n / 10, d - 1);
    }
  }

  /** A string of digits is a numeral whose value is that of the digits. */
  lemma DigitsNumeral(w: string)
    requires w != [] && forall k :: 0 <= k < |w| ==> IsDigit(w[k])
    ensures Numeral(w) && '.' !in w
    ensures DecimalValue(w) == DigitsValue(w) as real
  {
    DigitRunConcat(w, []);
    assert w + [] == w;
    assert w[..|w|] == w;
  }

  /** A printable number literal prints as its decimal digits. */
  lemma NumberPrint(v: real)
    requires IsIntegral(v) && 0.0 <= v && v.Floor < NumberBound
    ensures Numeral(NumberText(v)) && '.' !in NumberText(v) && |NumberText(v)| <= MaxNumberLength
    ensures DecimalValue(NumberText(v)) == v
  {
    var k: nat := v.Floor;
    assert NumberText(v) == NatText(k);
    NatTextDigits(k);
    NatTextLength(k, MaxNumberLength);
    DigitsNumeral(NatText(k));
  }

  // ---- lexing ----

  /** What may follow a printed tree: the end, a space or a closing parenthesis. */
  predicate Follows(rest: string) {
    rest == [] || rest[0] == ' ' || rest[0] == ')'
  }

  /** The symbol `lisptify` prints for an operator is a word the scanner reads back as that operator. */
  lemma SymbolScan(op: TokenType)
    requires IsBinary(op) || IsUnary(op)
    ensures Symbol(op) != [] && Scan(Symbol(op)[0]) == Some((op, |Symbol(op)|))
  {
  }

  lemma LexSymbol(op: TokenType, s: string)
    requires IsBinary(op) || IsUnary(op)
    ensures Lex(Symbol(op) + s) == Prepend([Token(op, 0.0)], Lex(s))
  {
    SymbolScan(op);
    LexWord(Symbol(op), s);
  }

  /** Tokenizing a printed tree gives its tokens, followed by those of what comes after it. */
  lemma {:induction false} LexPrint(e: Option<Node>, rest: string)
    requires Printable(e) && Follows(rest)
    ensures Lex(Print(e) + rest) == Prepend(TokensOf(e), Lex(rest))
  {
    match e
    case None =>
      assert Print(e) + rest == rest;
      PrependNone(Lex(rest));
    case Some(Num(v)) =>
      NumberPrint(v);
      LexNumber(NumberText(v), rest);
    case Some(Var) =>
      LexWord("x", rest);
    case Some(Expr(op, a, b)) =>
      LexPrint(a, AfterFirst(b, rest));
      if b.Some? {
        LexPrint(b, ")" + rest);
      }
      LexForm(op, a, b, rest);
  }

  /** What follows the first operand of a printed form. */
  function AfterFirst(b: Option<Node>, rest: string): string {
    if b.Some? then " " + (Print(b) + (")" + rest)) else ")" + rest
  }

  /** The step of `LexPrint` at a form, given the facts about its operands. */
  lemma LexForm(op: TokenType, a: Option<Node>, b: Option<Node>, rest: string)
    requires IsBinary(op) || IsUnary(op)
    requires Lex(Print(a) + AfterFirst(b, rest)) == Prepend(TokensOf(a), Lex(AfterFirst(b, rest)))
    requires b.Some? ==> Lex(Print(b) + (")" + rest)) == Prepend(TokensOf(b), Lex(")" + rest))
    ensures Lex(Print(Some(Expr(op, a, b))) + rest) == Prepend(TokensOf(Some(Expr(op, a, b))), Lex(rest))
  {
    LexHead(op, a, b, rest);
    LexTail(b, rest);
    LexChain(op, TokensOf(a), TokensOf(b), Lex(rest));
  }

  lemma LexHead(op: TokenType, a: Option<Node>, b: Option<Node>, rest: string)
    requires IsBinary(op) || IsUnary(op)
    requires Lex(Print(a) + AfterFirst(b, rest)) == Prepend(TokensOf(a), Lex(AfterFirst(b, rest)))
    ensures Lex(Print(Some(Expr(op, a, b))) + rest)
      == Prepend([Token(LeftParen, 0.0)], Prepend([Token(op, 0.0)], Prepend(TokensOf(a), Lex(AfterFirst(b, rest)))))
  {
    var s3 := Print(a) + AfterFirst(b, rest);
    PrintForm(op, a, b, rest);
    LexWord("(", Symbol(op) + (" " + s3));
    LexSymbol(op, " " + s3);
    LexSpace(s3);
  }

  lemma PrintForm(op: TokenType, a: Option<Node>, b: Option<Node>, rest: string)
    ensures Print(Some(Expr(op, a, b))) + rest == "(" + (Symbol(op) + (" " + (Print(a) + AfterFirst(b, rest))))
  {
    var pb := if b.Some? then " " + Print(b) else "";
    assert Print(Some(Expr(op, a, b))) == "(" + Symbol(op) + " " + Print(a) + pb + ")";
    Regroup("(", Symbol(op), " ", Print(a), pb, ")", rest);
    if b.Some? {
      assert pb + (")" + rest) == " " + (Print(b) + (")" + rest));
    } else {
      assert pb + (")" + rest) == ")" + rest;
    }
  }

  lemma Regroup(s1: string, s2: string, s3: string, s4: string, s5: string, s6: string, s7: string)
    ensures s1 + s2 + s3 + s4 + s5 + s6 + s7 == s1 + (s2 + (s3 + (s4 + (s5 + (s6 + s7)))))
  {
  }

  lemma LexTail(b: Option<Node>, rest: string)
    requires b.Some? ==> Lex(Print(b) + (")" + rest)) == Prepend(TokensOf(b), Lex(")" + rest))
    ensures Lex(AfterFirst(b, rest)) == Prepend(TokensOf(b), Prepend([Token(RightParen, 0.0)], Lex(rest)))
  {
    LexWord(")", rest);
    if b.Some? {
      LexSpace(Print(b) + (")" + rest));
    } else {
      PrependNone(Lex(")" + rest));
    }
  }

  /** The token pieces of a form put together. */
  lemma LexChain(op: TokenType, ta: seq<Token>, tb: seq<Token>, r: Result<seq<Token>, LexError>)
    ensures Prepend([Token(LeftParen, 0.0)], Prepend([Token(op, 0.0)], Prepend(ta, Prepend(tb, Prepend([Token(RightParen, 0.0)], r)))))
      == Prepend([Token(LeftParen, 0.0), Token(op, 0.0)] + ta + tb + [Token(RightParen, 0.0)], r)
  {
    if r.Success? {
      var rp := [Token(RightParen, 0.0)];
      assert [Token(LeftParen, 0.0)] + ([Token(op, 0.0)] + (ta + (tb + (rp + r.value))))
        == ([Token(LeftParen, 0.0), Token(op, 0.0)] + ta + tb + rp) + r.value;
    }
  }

  // ---- parsing ----

  /** `u` sits in `t` at index `i`. */
  predicate Occurs(t: seq<Token>, i: nat, u: seq<Token>) {
    i + |u| <= |t| && forall k :: 0 <= k < |u| ==> t[i + k] == u[k]
  }

  lemma OccursSplit(t: seq<Token>, i: nat, u: seq<Token>, v: seq<Token>)
    requires Occurs(t, i, u + v)
    ensures Occurs(t, i, u) && Occurs(t, i + |u|, v)
  {
    forall k | 0 <= k < |u| ensures t[i + k] == u[k] {
      assert (u + v)[k] == u[k];
    }
    forall k | 0 <= k < |v| ensures t[i + |u| + k] == v[k] {
      assert (u + v)[|u| + k] == v[k];
    }
  }

  /** A printed tree starts with a token that no `)` is: a NUMBER, VAR or `(`. */
  lemma FirstToken(e: Option<Node>)
    requires e.Some?
    ensures TokensOf(e) != [] && TokensOf(e)[0].kind != RightParen
  {
  }

  /** The pieces of the tokens of a form, located in `t`. */
  lemma FormTokens(op: TokenType, a: Option<Node>, b: Option<Node>, t: seq<Token>, i: nat)
    requires Occurs(t, i, TokensOf(Some(Expr(op, a, b))))
    ensures i + 1 < |t| && t[i].kind == LeftParen && t[i + 1].kind == op
    ensures Occurs(t, i + 2, TokensOf(a))
    ensures Occurs(t, i + 2 + |TokensOf(a)|, TokensOf(b))
    ensures var k := i + 2 + |TokensOf(a)| + |TokensOf(b)|; k < |t| && t[k].kind == RightParen
    ensures |TokensOf(Some(Expr(op, a, b)))| == 3 + |TokensOf(a)| + |TokensOf(b)|
  {
    var lp := [Token(LeftParen, 0.0), Token(op, 0.0)];
    var rest := TokensOf(a) + (TokensOf(b) + [Token(RightParen, 0.0)]);
    assert TokensOf(Some(Expr(op, a, b))) == lp + rest;
    OccursSplit(t, i, lp, rest);
    FormHead(t, i, lp);
    FormBody(TokensOf(a), TokensOf(b), t, i + 2);
  }

  /** Where `(` and the operator token occur. */
  lemma FormHead(t: seq<Token>, i: nat, lp: seq<Token>)
    requires |lp| == 2 && Occurs(t, i, lp)
    ensures i + 1 < |t| && t[i] == lp[0] && t[i + 1] == lp[1]
  {
    assert t[i + 0] == lp[0];
  }

  /** Where the operands and the closing `)` occur. */
  lemma FormBody(ta: seq<Token>, tb: seq<Token>, t: seq<Token>, j: nat)
    requires Occurs(t, j, ta + (tb + [Token(RightParen, 0.0)]))
    ensures Occurs(t, j, ta) && Occurs(t, j + |ta|, tb)
    ensures j + |ta| + |tb| < |t| && t[j + |ta| + |tb|].kind == RightParen
  {
    var rp := [Token(RightParen, 0.0)];
    OccursSplit(t, j, ta, tb + rp);
    OccursSplit(t, j + |ta|, tb, rp);
    assert t[j + |ta| + |tb| + 0] == rp[0];
  }

  /**
   * Parsing the tokens of a printed tree, wherever they sit, reads that tree
   * back as an operand and consumes exactly its tokens; read as an `expr`, a
   * form stops before its `)`.
   */
  lemma {:induction false} ParsePrinted(e: Option<Node>, t: seq<Token>, i: nat)
    requires e.Some? && Printable(e) && Occurs(t, i, TokensOf(e))
    ensures ParseOperand(t, i) == Success((e, i + |TokensOf(e)|))
    ensures e.value.Expr? ==> ParseExpr(t, i) == Success((e, i + |TokensOf(e)| - 1))
    decreases e, 1
  {
    match e.value
    case Num(v) =>
      assert t[i + 0] == TokensOf(e)[0];
    case Var =>
      assert t[i + 0] == TokensOf(e)[0];
    case Expr(op, a, b) =>
      FormPrinted(op, a, b, t, i);
  }

  /** The case of `ParsePrinted` for a form. */
  lemma {:induction false} FormPrinted(op: TokenType, a: Option<Node>, b: Option<Node>, t: seq<Token>, i: nat)
    requires (IsBinary(op) || IsUnary(op)) && (a.None? ==> b.None?) && Printable(a) && Printable(b)
    requires Occurs(t, i, TokensOf(Some(Expr(op, a, b))))
    ensures ParseOperand(t, i) == Success((Some(Expr(op, a, b)), i + |TokensOf(Some(Expr(op, a, b)))|))
    ensures ParseExpr(t, i) == Success((Some(Expr(op, a, b)), i + |TokensOf(Some(Expr(op, a, b)))| - 1))
    decreases Some(Expr(op, a, b)), 0
  {
    FormTokens(op, a, b, t, i);
    var j := i + 2 + |TokensOf(a)|;
    var k := j + |TokensOf(b)|;
    if a.Some? {
      ParsePrinted(a, t, i + 2);
    }
    SlotParsed(a, t, i + 2, j);
    if b.Some? {
      ParsePrinted(b, t, j);
    }
    SlotParsed(b, t, j, k);
    FormParsed(op, a, b, t, i, j, k);
  }

  /** An operand slot holding the tokens of `e`: empty exactly when it starts at `)`. */
  lemma SlotParsed(e: Option<Node>, t: seq<Token>, j: nat, k: nat)
    requires Occurs(t, j, TokensOf(e)) && k == j + |TokensOf(e)|
    requires e.Some? ==> ParseOperand(t, j) == Success((e, k))
    requires e.None? ==> j < |t| && t[j].kind == RightParen
    ensures ParseSlot(t, j) == Success((e, k))
  {
    if e.Some? {
      FirstToken(e);
      assert t[j + 0] == TokensOf(e)[0];
    }
  }

  /** A form whose two slots read `a` and `b`, as `expr` and as `operand`. */
  lemma FormParsed(op: TokenType, a: Option<Node>, b: Option<Node>, t: seq<Token>, i: nat, j: nat, k: nat)
    requires i + 1 < |t| && t[i].kind == LeftParen && t[i + 1].kind == op
    requires ParseSlot(t, i + 2) == Success((a, j))
    requires ParseSlot(t, j) == Success((b, k))
    ensures ParseExpr(t, i) == Success((Some(Expr(op, a, b)), k))
    ensures ParseOperand(t, i) == Success((Some(Expr(op, a, b)), k + 1))
  {
  }

  /** `parse` after `tokenize` reads a printed tree back. */
  lemma ParseOfPrint(e: Option<Node>)
    requires e.Some? && Printable(e)
    ensures Lex(Print(e)) == Success(TokensOf(e))
    ensures ParseTokens(TokensOf(e)) == Success(e)
  {
    LexPrint(e, "");
    assert Print(e) + "" == Print(e);
    assert Lex("") == Success([]);
    assert TokensOf(e) + [] == TokensOf(e);
    assert Occurs(TokensOf(e), 0, TokensOf(e));
    ParsePrinted(e, TokensOf(e), 0);
  }

  /**
   * The round trip of the printed form: for a string `s` that `lisptify`
   * printed from a printable tree, `lisptify(parse(tokenize(s))) == s`.
   */
  lemma PrintParseLex(s: string, e: Option<Node>)
    requires e.Some? && Printable(e) && s == Print(e)
    ensures Lex(s).Success? && ParseTokens(Lex(s).value).Success?
    ensures Print(ParseTokens(Lex(s).value).value) == s
  {
    ParseOfPrint(e);
  }
}
