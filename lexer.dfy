/**
 * The tokenizer: `tokenize` and `isDigit` of symbolicDiff/main.c.
 *
 * `Lex` is the specification, written on suffixes of the input; `Tokenize`
 * is the C loop, with its index jumps, proved to compute `Lex`.
 */
module Lexer {
  import opened Wrappers
  import opened Syntax

  datatype LexError =
    | UnknownChar(c: char)   // a character outside the token set
    | NumberTooLong          // a number lexeme that overflows the copy buffer

  /**
   * The longest number lexeme that fits, with its terminating zero, in the
   * 16-byte zero-filled buffer the C code copies it into before `strtod`.
   */
  const MaxNumberLength: nat := 15

  predicate IsDigit(c: char) { '0' <= c <= '9' }

  function DigitOf(c: char): nat
    requires IsDigit(c)
  {
    (c as int) - ('0' as int)
  }

  /** The input after its first `k` characters (empty when `k` runs past the end). */
  function Drop(s: string, k: nat): (r: string)
    ensures |r| == if k <= |s| then |s| - k else 0
  {
    if k <= |s| then s[k..] else []
  }

  /** Length of the leading run of digits of `s`. */
  function DigitRun(s: string): (n: nat)
    ensures n <= |s|
    ensures forall k :: 0 <= k < n ==> IsDigit(s[k])
    ensures n == |s| || !IsDigit(s[n])
  {
    if s == [] || !IsDigit(s[0]) then 0 else 1 + DigitRun(s[1..])
  }

  /**
   * A number lexeme: a run of digits, then possibly a `.` and a second run of
   * digits, which may be empty. (This is the shape the scanner accepts; there
   * is no sign and no exponent.)
   */
  predicate Numeral(w: string) {
    && w != [] && IsDigit(w[0])
    && var j := DigitRun(w);
       j == |w| || (w[j] == '.' && DigitRun(w[j + 1..]) == |w| - j - 1)
  }

  /**
   * Length of the number lexeme at the start of `s`: digits, then, if a `.`
   * follows, the `.` and the digits after it. It is the longest numeral
   * prefix: the next character is not a digit, and it is a `.` only when the
   * lexeme already holds one.
   */
  function NumberLength(s: string): (n: nat)
    requires s != [] && IsDigit(s[0])
    ensures 1 <= n <= |s|
    ensures Numeral(s[..n])
    ensures n == |s| || !IsDigit(s[n])
    ensures n == |s| || s[n] != '.' || '.' in s[..n]
  {
    var j := DigitRun(s);
    if j < |s| && s[j] == '.' then
      var n := j + 1 + DigitRun(s[j + 1..]);
      FractionLexeme(s, j, n);
      FractionEnd(s, j, n);
      n
    else
      DigitRunConcat(s[..j], []);
      assert s[..j] + [] == s[..j];
      j
  }

  /** A digit run, a `.` and a second digit run make a numeral holding a `.`. */
  lemma FractionLexeme(s: string, j: nat, n: nat)
    requires s != [] && IsDigit(s[0]) && j == DigitRun(s) && j < |s| && s[j] == '.'
    requires n == j + 1 + DigitRun(s[j + 1..])
    ensures n <= |s| && Numeral(s[..n]) && '.' in s[..n]
  {
    var f := DigitRun(s[j + 1..]);
    var w := s[..n];
    assert DigitRun(w) == j by {
      DigitRunTake(s, n);
    }
    assert DigitRun(w[j + 1..]) == f by {
      assert w[j + 1..] == s[j + 1..][..f];
      DigitRunTake(s[j + 1..], f);
    }
    assert w[j] == '.' && w[0] == s[0];
  }

  /** That numeral is not followed by a digit. */
  lemma FractionEnd(s: string, j: nat, n: nat)
    requires j < |s| && n == j + 1 + DigitRun(s[j + 1..])
    ensures n == |s| || !IsDigit(s[n])
  {
    if n < |s| {
      assert s[n] == s[j + 1..][n - j - 1];
    }
  }

  /** Cutting `s` after `m` characters cuts its leading digit run at `m`. */
  lemma {:induction false} DigitRunTake(s: string, m: nat)
    requires m <= |s|
    ensures DigitRun(s[..m]) == if m <= DigitRun(s) then m else DigitRun(s)
  {
    if m > 0 && IsDigit(s[0]) {
      assert s[..m][1..] == s[1..][..m - 1];
      DigitRunTake(s[1..], m - 1);
    }
  }

  /** The value of a string of digits read as a decimal integer. */
  function DigitsValue(ds: string): nat
    requires forall k :: 0 <= k < |ds| ==> IsDigit(ds[k])
  {
    if ds == [] then 0 else 10 * DigitsValue(ds[..|ds| - 1]) + DigitOf(ds[|ds| - 1])
  }

  /** The value of a string of digits read as the fraction after a decimal point. */
  function FractionValue(ds: string): (r: real)
    requires forall k :: 0 <= k < |ds| ==> IsDigit(ds[k])
    ensures 0.0 <= r < 1.0
  {
    if ds == [] then 0.0 else (DigitOf(ds[0]) as real + FractionValue(ds[1..])) / 10.0
  }

  /**
   * The decimal value of a numeral, as `strtod` reads it (exactly, as a real:
   * binary floating-point rounding is not modelled).
   */
  function DecimalValue(w: string): (r: real)
    requires Numeral(w)
    ensures var whole := DigitsValue(w[..DigitRun(w)]) as real; whole <= r < whole + 1.0
  {
    var j := DigitRun(w);
    var whole := DigitsValue(w[..j]) as real;
    if j < |w| then
      assert w[j] == '.';
      whole + FractionValue(w[j + 1..])
    else
      whole
  }

  /**
   * The cases of the `switch` at main.c:690-705: the token kind of a
   * single-character token or keyword, and how many characters it takes.
   * A keyword is known by its first letter only.
   */
  function Scan(c: char): (r: Option<(TokenType, nat)>)
    ensures r.Some? ==> 1 <= r.value.1 <= 3 && r.value.0 != Number
  {
    match c
    case '(' => Some((LeftParen, 1))
    case ')' => Some((RightParen, 1))
    case '+' => Some((Plus, 1))
    case '-' => Some((Minus, 1))
    case '*' => Some((Star, 1))
    case '/' => Some((Slash, 1))
    case '^' => Some((Pow, 1))
    case 'x' => Some((Variable, 1))
    case 's' => Some((Sin, 3))
    case 'c' => Some((Cos, 3))
    case 't' => Some((Tan, 3))
    case 'l' => Some((Ln, 2))
    case 'e' => Some((Exp, 3))
    case _ => None
  }

  /** `ts` followed by the tokens of `r`, or the error of `r`. */
  function Prepend(ts: seq<Token>, r: Result<seq<Token>, LexError>): Result<seq<Token>, LexError> {
    match r
    case Success(rest) => Success(ts + rest)
    case Failure(e) => Failure(e)
  }

  /** The token sequence of a whole input string (the C string up to its terminator). */
  function Lex(s: string): (r: Result<seq<Token>, LexError>)
    ensures r.Success? ==> |r.value| <= |s|
    decreases |s|
  {
    if s == [] then Success([])
    else if s[0] == ' ' then Lex(s[1..])
    else if Scan(s[0]).Some? then
      Prepend([Token(Scan(s[0]).value.0, 0.0)], Lex(Drop(s, Scan(s[0]).value.1)))
    else if IsDigit(s[0]) then
      var n := NumberLength(s);
      if n > MaxNumberLength then Failure(NumberTooLong)
      else Prepend([Token(Number, DecimalValue(s[..n]))], Lex(s[n..]))
    else
      Failure(UnknownChar(s[0]))
  }

  lemma PrependAssoc(ts: seq<Token>, us: seq<Token>, r: Result<seq<Token>, LexError>)
    ensures Prepend(ts, Prepend(us, r)) == Prepend(ts + us, r)
  {
    if r.Success? {
      assert ts + (us + r.value) == (ts + us) + r.value;
    }
  }

  lemma PrependNone(r: Result<seq<Token>, LexError>)
    ensures Prepend([], r) == r
  {
    if r.Success? {
      assert [] + r.value == r.value;
    }
  }

  /**
   * The loop invariant of `Tokenize`: `tokens` are the tokens of the input
   * before index `i`, and the tokens of the whole input are those followed by
   * the tokens from `i` on.
   */
  ghost predicate Scanned(s: string, tokens: seq<Token>, i: nat) {
    Lex(s) == Prepend(tokens, Lex(Drop(s, i)))
  }

  /**
   * The loop invariant of `Tokenize`, carried over one step of the scan: the
   * input from `i` on starts with the tokens `more` and goes on at `j`.
   */
  lemma Advance(s: string, tokens: seq<Token>, i: nat, more: seq<Token>, j: nat, tokens': seq<Token>)
    requires Scanned(s, tokens, i)
    requires Lex(Drop(s, i)) == Prepend(more, Lex(Drop(s, j)))
    requires tokens' == tokens + more
    ensures Scanned(s, tokens', j)
  {
    PrependAssoc(tokens, more, Lex(Drop(s, j)));
  }

  /** One step of the digit loops at main.c:709 and 715. */
  lemma DigitRunStep(s: string, i: nat)
    requires i < |s| && IsDigit(s[i])
    ensures DigitRun(s[i..]) == 1 + DigitRun(s[i + 1..])
  {
    assert s[i..][1..] == s[i + 1..];
  }

  /**
   * The number scanner at main.c:707-719: from a digit at `start`, the digit
   * loop, then a `.` and a second digit loop. Returns the index just past the
   * lexeme (the C code's `--i` and the `for` loop's `i++` cancel out).
   */
  method ScanNumber(s: string, start: nat) returns (i: nat)
    requires start < |s| && IsDigit(s[start])
    ensures start < i <= |s|
    ensures i - start == NumberLength(s[start..])
  {
    i := SkipDigits(s, start);
    NumberLengthSplit(s, start, i);
    if i < |s| && s[i] == '.' {
      i := SkipDigits(s, i + 1);
    }
  }

  /** The digit loops at main.c:709 and 715: the index just past the digit run from `start`. */
  method SkipDigits(s: string, start: nat) returns (i: nat)
    requires start <= |s|
    ensures i == start + DigitRun(s[start..])
  {
    i := start;
    while i < |s| && IsDigit(s[i])
      invariant start <= i <= |s|
      invariant DigitRun(s[start..]) == (i - start) + DigitRun(s[i..])
    {
      DigitRunStep(s, i);
      i := i + 1;
    }
  }

  /** The number lexeme from `start`: its digit run, ending at `j`, then a `.` and a second digit run, if any. */
  lemma NumberLengthSplit(s: string, start: nat, j: nat)
    requires start < j <= |s| && IsDigit(s[start])
    requires j == start + DigitRun(s[start..])
    ensures j < |s| && s[j] == '.' ==> NumberLength(s[start..]) == j + 1 + DigitRun(s[j + 1..]) - start
    ensures !(j < |s| && s[j] == '.') ==> NumberLength(s[start..]) == j - start
  {
    var u := s[start..];
    assert DigitRun(s[j..]) == 0;
    if j < |s| {
      assert u[j - start] == s[j];
      assert u[j - start + 1..] == s[j + 1..];
    }
  }

  /** Tokenizing from a digit: the number lexeme there, or its error. */
  lemma LexDigit(t: string)
    requires t != [] && IsDigit(t[0])
    ensures var n := NumberLength(t);
      Lex(t) == if n > MaxNumberLength then Failure(NumberTooLong)
        else Prepend([Token(Number, DecimalValue(t[..n]))], Lex(t[n..]))
  {
    assert t[0] != ' ' && Scan(t[0]).None?;
  }

  lemma LexNumberAt(s: string, i: nat, j: nat)
    requires i < |s| && IsDigit(s[i]) && i < j <= |s|
    requires j - i == NumberLength(s[i..])
    ensures Numeral(s[i..j])
    ensures j - i > MaxNumberLength ==> Lex(Drop(s, i)) == Failure(NumberTooLong)
    ensures j - i <= MaxNumberLength ==>
      Lex(Drop(s, i)) == Prepend([Token(Number, DecimalValue(s[i..j]))], Lex(Drop(s, j)))
  {
    var t := s[i..];
    assert Drop(s, i) == t && t[0] == s[i];
    assert t[..j - i] == s[i..j];
    assert t[j - i..] == Drop(s, j);
    LexDigit(t);
  }

  /** Tokenizing from a space is tokenizing from the character after it. */
  lemma SpaceAt(s: string, i: nat)
    requires i < |s| && s[i] == ' '
    ensures Lex(Drop(s, i)) == Lex(Drop(s, i + 1))
  {
    var t := s[i..];
    assert Drop(s, i) == t && t[0] == s[i];
    assert t[1..] == Drop(s, i + 1);
  }

  /** Tokenizing from a single-character token or a keyword gives its token, then goes on after it. */
  lemma WordAt(s: string, i: nat, kind: TokenType, width: nat, j: nat)
    requires i < |s| && Scan(s[i]) == Some((kind, width)) && j == i + width
    ensures Lex(Drop(s, i)) == Prepend([Token(kind, 0.0)], Lex(Drop(s, j)))
  {
    var t := s[i..];
    assert Drop(s, i) == t && t[0] == s[i] && t[0] != ' ';
    assert Drop(t, width) == Drop(s, j);
    assert Lex(t) == Prepend([Token(kind, 0.0)], Lex(Drop(t, width)));
  }

  /** A character outside the token set ends tokenizing with an error. */
  lemma UnknownAt(s: string, i: nat)
    requires i < |s| && s[i] != ' ' && Scan(s[i]).None? && !IsDigit(s[i])
    ensures Lex(Drop(s, i)) == Failure(UnknownChar(s[i]))
  {
    var t := s[i..];
    assert Drop(s, i) == t && t[0] == s[i];
  }

  /** The loop invariant of `Tokenize` over characters that give no token. */
  lemma Skip(s: string, tokens: seq<Token>, i: nat, j: nat)
    requires Scanned(s, tokens, i) && Lex(Drop(s, i)) == Lex(Drop(s, j))
    ensures Scanned(s, tokens, j)
  {
  }

  /** Once the rest of the input is an error, so is the whole of it. */
  lemma Stuck(s: string, tokens: seq<Token>, i: nat, e: LexError)
    requires Scanned(s, tokens, i) && Lex(Drop(s, i)) == Failure(e)
    ensures Lex(s) == Failure(e)
  {
  }

  /**
   * The C loop. `i` jumps forward over keywords and numbers; a space adds no
   * token. The token array the C code grows with `realloc` is a sequence here.
   */
  method Tokenize(s: string) returns (r: Result<seq<Token>, LexError>)
    ensures r == Lex(s)
  {
    var tokens: seq<Token> := [];
    var i: nat := 0;
    assert Drop(s, 0) == s;
    PrependNone(Lex(s));
    while i < |s|
      invariant Scanned(s, tokens, i)
      decreases |s| - i
    {
      var ch := s[i];
      var scanned := Scan(ch);
      ghost var before := tokens;
      ghost var at := i;
      if ch == ' ' {
        SpaceAt(s, i);
        i := i + 1;
        Skip(s, tokens, at, i);
      } else if scanned.Some? {
        // a single-character token or a keyword (the switch at main.c:690-705)
        var kind := scanned.value.0;
        var width := scanned.value.1;
        tokens := tokens + [Token(kind, 0.0)];
        i := i + width;
        WordAt(s, at, kind, width, i);
        Advance(s, before, at, [Token(kind, 0.0)], i, tokens);
      } else if IsDigit(ch) {
        var start := i;
        i := ScanNumber(s, start);
        LexNumberAt(s, start, i);
        if i - start > MaxNumberLength {
          Stuck(s, tokens, start, NumberTooLong);
          return Failure(NumberTooLong);
        }
        var token := Token(Number, DecimalValue(s[start..i]));
        tokens := tokens + [token];
        Advance(s, before, at, [token], i, tokens);
      } else {
        // main.c:726 would emit a token whose kind was never set
        UnknownAt(s, i);
        Stuck(s, tokens, i, UnknownChar(ch));
        return Failure(UnknownChar(ch));
      }
    }
    assert Drop(s, i) == [];
    PrependNone(Lex(s));
    assert tokens + [] == tokens;
    r := Success(tokens);
  }

  /** A space adds no token (main.c:691). */
  lemma LexSpace(s: string)
    ensures Lex(" " + s) == Lex(s)
  {
    assert (" " + s)[1..] == s;
  }

  /**
   * A single-character token or a keyword: its first character decides the
   * token kind, and the number of characters `Scan` gives is taken
   * (main.c:692-704).
   */
  lemma LexWord(w: string, s: string)
    requires w != [] && Scan(w[0]).Some? && |w| == Scan(w[0]).value.1
    ensures Lex(w + s) == Prepend([Token(Scan(w[0]).value.0, 0.0)], Lex(s))
  {
    var ws := w + s;
    assert ws[0] == w[0] && ws[0] != ' ';
    assert Drop(ws, |w|) == s;
    assert Lex(ws) == Prepend([Token(Scan(ws[0]).value.0, 0.0)], Lex(Drop(ws, Scan(ws[0]).value.1)));
  }

  /** A digit run that ends where the digits end. */
  lemma {:induction false} DigitRunConcat(u: string, s: string)
    requires forall k :: 0 <= k < |u| ==> IsDigit(u[k])
    requires s == [] || !IsDigit(s[0])
    ensures DigitRun(u + s) == |u|
  {
    if u == [] {
      assert u + s == s;
    } else {
      assert (u + s)[1..] == u[1..] + s;
      DigitRunConcat(u[1..], s);
    }
  }

  /**
   * The number lexeme at the front of `w + s` is `w` when `w` is a numeral
   * and `s` cannot extend it: `s` starts with no digit, and with a `.` only
   * when `w` already has one.
   */
  lemma NumberLengthOf(w: string, s: string)
    requires Numeral(w)
    requires s == [] || (!IsDigit(s[0]) && (s[0] == '.' ==> '.' in w))
    ensures NumberLength(w + s) == |w|
  {
    var ws := w + s;
    var j := DigitRun(w);
    assert w[..j] + (w[j..] + s) == ws;
    if j < |w| {
      DigitRunConcat(w[..j], w[j..] + s);
      assert ws[j] == '.';
      var tail := w[j + 1..];
      assert ws[j + 1..] == tail + s;
      DigitRunConcat(tail, s);
    } else {
      assert w[j..] + s == s;
      assert '.' !in w;
      DigitRunConcat(w, s);
    }
  }

  /**
   * A numeral that `s` cannot extend is one NUMBER token holding its decimal
   * value, and scanning resumes right after it (main.c:707-724).
   */
  lemma LexNumber(w: string, s: string)
    requires Numeral(w) && |w| <= MaxNumberLength
    requires s == [] || (!IsDigit(s[0]) && (s[0] == '.' ==> '.' in w))
    ensures Lex(w + s) == Prepend([Token(Number, DecimalValue(w))], Lex(s))
  {
    NumberLengthOf(w, s);
    var ws := w + s;
    assert ws[0] == w[0] && ws[0] != ' ' && Scan(ws[0]).None?;
    assert ws[..|w|] == w && ws[|w|..] == s;
  }

  /** A numeral too long for the copy buffer is an error (main.c:721-723). */
  lemma LexNumberTooLong(w: string, s: string)
    requires Numeral(w) && |w| > MaxNumberLength
    requires s == [] || (!IsDigit(s[0]) && (s[0] == '.' ==> '.' in w))
    ensures Lex(w + s) == Failure(NumberTooLong)
  {
    NumberLengthOf(w, s);
    var ws := w + s;
    assert ws[0] == w[0] && ws[0] != ' ' && Scan(ws[0]).None?;
  }
}
