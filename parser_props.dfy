/** Properties of the parser of src/parser.rs, stated over the functions
    `Primary`, `ExprAt` and `Climb` that its methods are proved against. */
module ParserProps {
  import opened Wrappers
  import opened StdText
  import L = Lex
  import opened Parser

  /** The radix prefixes of the integer lexemes the parser accepts:
      `0x` hexadecimal and `0b` binary. */
  lemma DecodePrefixedExamples()
    ensures DecodeCInt("0x2A") == Some(42)
    ensures DecodeCInt("0b101") == Some(5)
  {
    assert "0x2A"[2..] == "2A";
    assert DigitsValue("2A"[..1], 16) == Some(2) by {
      assert "2A"[..1] == "2";
      assert "2"[..0] == [];
    }
    assert "0b101"[2..] == "101";
    assert DigitsValue("101", 2) == Some(5) by {
      assert "101"[..2] == "10";
      assert "10"[..1] == "1";
      assert "1"[..0] == [];
    }
  }

  /** A leading zero means octal, so `08` is rejected. */
  lemma DecodeOctalExamples()
    ensures DecodeCInt("017") == Some(15)
    ensures DecodeCInt("08") == None
  {
    assert "017"[1..] == "17";
    assert DigitsValue("17", 8) == Some(15) by {
      assert "17"[..1] == "1";
      assert "1"[..0] == [];
    }
    assert "08"[1..] == "8";
    assert DigitsValue("8", 8) == None by {
      assert "8"[..0] == [];
    }
  }

  /** A sign is only understood by the decimal case: `-017` is decimal
      and a sign before a prefix is not understood. */
  lemma DecodeSignedExamples()
    ensures DecodeCInt("-017") == Some(-17)
    ensures DecodeCInt("-0x2A") == None
  {
    assert "-017"[1..] == "017";
    assert DigitsValue("017", 10) == Some(17) by {
      assert "017"[..2] == "01";
      assert "01"[..1] == "0";
      assert "0"[..0] == [];
    }
    assert "-0x2A"[1..] == "0x2A";
    assert DigitsValue("0x2A", 10) == None by {
      assert "0x2A"[..3] == "0x2";
      assert "0x2"[..2] == "0x";
      assert DigitValue('x') == Some(33);
    }
  }

  /** Every i64 printed in decimal decodes back to itself as a `CInt`. */
  lemma DecodeDecimalText(i: int)
    requires InI64(i)
    ensures DecodeCInt(DecimalText(i)) == Some(i)
  {
    DecimalRoundTrip(i);
  }

  /** Which radix a literal is read in is decided by its first two
      characters alone: `0x`/`0X` hexadecimal, `0b`/`0B` binary, any other
      `0` followed by something octal, everything else decimal. */
  lemma RadixByPrefix(t: string)
    ensures |t| >= 2 && t[..2] in {"0x", "0X"} ==> DecodeCInt(t) == FromStrRadix(t[2..], 16)
    ensures |t| >= 2 && t[..2] in {"0b", "0B"} ==> DecodeCInt(t) == FromStrRadix(t[2..], 2)
    ensures |t| >= 2 && t[0] == '0' && t[1] !in {'x', 'X', 'b', 'B'} ==> DecodeCInt(t) == FromStrRadix(t[1..], 8)
    ensures (|t| < 2 || t[0] != '0') ==> DecodeCInt(t) == FromStrRadix(t, 10)
  {
    if |t| >= 2 {
      assert t[..2] == [t[0], t[1]];
    }
  }

  /** The radix chosen for a prefix followed by any digits, and the digits
      left once the prefix is dropped. */
  lemma SplitPrefixed(ds: string)
    ensures RadixSplit("0x" + ds) == (ds, 16) && RadixSplit("0X" + ds) == (ds, 16)
    ensures RadixSplit("0b" + ds) == (ds, 2) && RadixSplit("0B" + ds) == (ds, 2)
    ensures ds != [] && '0' <= ds[0] <= '7' ==> RadixSplit("0" + ds) == (ds, 8)
  {
    assert ("0x" + ds)[2..] == ds && ("0X" + ds)[2..] == ds;
    assert ("0b" + ds)[2..] == ds && ("0B" + ds)[2..] == ds;
    assert ("0" + ds)[1..] == ds;
  }

  /** Every non-negative i64 written in hexadecimal after `0x` or `0X`
      decodes back to itself. */
  lemma HexLiteralReadsBack(n: nat)
    requires n <= I64_MAX
    ensures DecodeCInt("0x" + ToDigits(n, 16)) == Some(n)
    ensures DecodeCInt("0X" + ToDigits(n, 16)) == Some(n)
  {
    SplitPrefixed(ToDigits(n, 16));
    UnsignedRoundTrip(n, 16);
  }

  /** Every non-negative i64 written in binary after `0b` or `0B` decodes
      back to itself. */
  lemma BinaryLiteralReadsBack(n: nat)
    requires n <= I64_MAX
    ensures DecodeCInt("0b" + ToDigits(n, 2)) == Some(n)
    ensures DecodeCInt("0B" + ToDigits(n, 2)) == Some(n)
  {
    SplitPrefixed(ToDigits(n, 2));
    UnsignedRoundTrip(n, 2);
  }

  /** Every non-negative i64 written in octal after a `0` decodes back to
      itself: an octal digit is never one of the prefix letters. */
  lemma OctalLiteralReadsBack(n: nat)
    requires n <= I64_MAX
    ensures DecodeCInt("0" + ToDigits(n, 8)) == Some(n)
  {
    var ds := ToDigits(n, 8);
    DigitsRoundTrip(n, 8);
    OctalLead(ds);
    SplitPrefixed(ds);
    UnsignedRoundTrip(n, 8);
  }

  /** The first character of octal digits is not a prefix letter. */
  lemma OctalLead(ds: string)
    requires ds != [] && DigitsValue(ds, 8).Some?
    ensures '0' <= ds[0] <= '7'
  {
    DigitsBelowRadix(ds, 8);
    assert DigitValue(ds[0]).value < 8;
  }

  /** Every character of a run of digits that has a value in a radix is a
      digit below that radix. */
  lemma {:induction false} DigitsBelowRadix(ds: string, radix: nat)
    requires 2 <= radix <= 36 && DigitsValue(ds, radix).Some?
    ensures forall i :: 0 <= i < |ds| ==> DigitValue(ds[i]).Some? && DigitValue(ds[i]).value < radix
    decreases |ds|
  {
    if ds != [] {
      DigitsBelowRadix(ds[..|ds| - 1], radix);
      assert forall i :: 0 <= i < |ds| - 1 ==> ds[i] == ds[..|ds| - 1][i];
    }
  }

  /** An integer token is consumed whether or not it decodes: it becomes
      its value, or the parse fails with `Invalid integer: ` and the text. */
  lemma IntegerToken(toks: seq<Entry>, pos: nat, pf: F64Parser)
    requires pos < |toks| && toks[pos].0 == L.CInt
    ensures DecodeCInt(toks[pos].1).None? ==>
      Primary(toks, pos, pf) == Failed("Invalid integer: " + toks[pos].1, pos + 1)
    ensures DecodeCInt(toks[pos].1).Some? ==>
      Primary(toks, pos, pf) == Parsed(Integer(DecodeCInt(toks[pos].1).value), pos + 1)
  {
  }

  /** An identifier and a string literal both become a variable reference
      named by their text; a string literal is not a string value. */
  lemma NamesBecomeVariables(toks: seq<Entry>, pos: nat, pf: F64Parser)
    requires pos < |toks| && toks[pos].0 in {L.Id, L.CString}
    ensures Primary(toks, pos, pf) == Parsed(Variable(toks[pos].1), pos + 1)
  {
  }

  /** A token that cannot start a primary is reported by name, after the
      cursor has moved past it. */
  lemma UnexpectedToken(toks: seq<Entry>, pos: nat, pf: F64Parser)
    requires pos < |toks|
    requires toks[pos].0 !in {L.CInt, L.CFloat, L.Id, L.CString, L.LParen, L.Minus, L.Bang}
    ensures Primary(toks, pos, pf) == Failed("Unexpected token: " + L.DebugName(toks[pos].0), pos + 1)
  {
  }

  function Name(n: string): Entry {
    (L.Id, n)
  }

  /** `a o1 b o2 c`: the tighter operator groups first, and at equal
      precedence the left one does (left associativity). */
  lemma {:induction false} ThreeOperands(a: string, b: string, c: string, t1: L.Token, t2: L.Token, x1: string, x2: string, pf: F64Parser)
    requires BinOpOf(t1).Some? && BinOpOf(t2).Some?
    ensures
      var (o1, p1) := BinOpOf(t1).value;
      var (o2, p2) := BinOpOf(t2).value;
      var toks := [Name(a), (t1, x1), Name(b), (t2, x2), Name(c)];
      ExprAt(toks, 0, 0, pf) ==
        if p2 > p1 then Parsed(Binary(Variable(a), o1, Binary(Variable(b), o2, Variable(c))), 5)
        else Parsed(Binary(Binary(Variable(a), o1, Variable(b)), o2, Variable(c)), 5)
  {
    var (o1, p1) := BinOpOf(t1).value;
    var (o2, p2) := BinOpOf(t2).value;
    var toks := [Name(a), (t1, x1), Name(b), (t2, x2), Name(c)];
    var va, vb, vc := Variable(a), Variable(b), Variable(c);
    assert Primary(toks, 0, pf) == Parsed(va, 1);
    assert Primary(toks, 2, pf) == Parsed(vb, 3);
    assert Primary(toks, 4, pf) == Parsed(vc, 5);
    assert ExprAt(toks, 4, p2 + 1, pf) == Parsed(vc, 5) by {
      assert Climb(toks, vc, 5, p2 + 1, pf) == Parsed(vc, 5);
    }
    if p2 > p1 {
      assert Climb(toks, Binary(vb, o2, vc), 5, p1 + 1, pf) == Parsed(Binary(vb, o2, vc), 5);
      assert Climb(toks, vb, 3, p1 + 1, pf) == Parsed(Binary(vb, o2, vc), 5);
      assert ExprAt(toks, 2, p1 + 1, pf) == Parsed(Binary(vb, o2, vc), 5);
      var e := Binary(va, o1, Binary(vb, o2, vc));
      assert Climb(toks, e, 5, 0, pf) == Parsed(e, 5);
      assert Climb(toks, va, 1, 0, pf) == Parsed(e, 5);
    } else {
      assert Climb(toks, vb, 3, p1 + 1, pf) == Parsed(vb, 3);
      assert ExprAt(toks, 2, p1 + 1, pf) == Parsed(vb, 3);
      var e := Binary(Binary(va, o1, vb), o2, vc);
      assert Climb(toks, e, 5, 0, pf) == Parsed(e, 5);
      assert Climb(toks, Binary(va, o1, vb), 3, 0, pf) == Parsed(e, 5);
      assert Climb(toks, va, 1, 0, pf) == Parsed(e, 5);
    }
  }

  /** A prefix `-` applies to the primary right after it, not to the
      product: `-a * b` is `(-a) * b`. */
  lemma UnaryBindsTighter(a: string, b: string, pf: F64Parser)
    ensures ExprAt([(L.Minus, "-"), Name(a), (L.Star, "*"), Name(b)], 0, 0, pf)
         == Parsed(Binary(Unary(Neg, Variable(a)), Mul, Variable(b)), 4)
  {
    var toks := [(L.Minus, "-"), Name(a), (L.Star, "*"), Name(b)];
    assert Primary(toks, 1, pf) == Parsed(Variable(a), 2);
    assert Primary(toks, 0, pf) == Parsed(Unary(Neg, Variable(a)), 2);
    assert ExprAt(toks, 3, 3, pf) == Parsed(Variable(b), 4) by {
      assert Primary(toks, 3, pf) == Parsed(Variable(b), 4);
    }
    var e := Binary(Unary(Neg, Variable(a)), Mul, Variable(b));
    assert Climb(toks, e, 4, 0, pf) == Parsed(e, 4);
  }

  /** A parenthesis left open is reported where the closing one was
      expected, whether the input ends or another token follows. */
  lemma MissingParen(a: string, b: string, pf: F64Parser)
    ensures ExprAt([(L.LParen, "("), Name(a)], 0, 0, pf) == Failed("Expected ')'", 2)
    ensures ExprAt([(L.LParen, "("), Name(a), Name(b)], 0, 0, pf) == Failed("Expected ')'", 2)
  {
    var t1 := [(L.LParen, "("), Name(a)];
    assert Primary(t1, 1, pf) == Parsed(Variable(a), 2);
    assert ExprAt(t1, 1, 0, pf) == Parsed(Variable(a), 2);
    assert Primary(t1, 0, pf) == Failed("Expected ')'", 2);
    var t2 := [(L.LParen, "("), Name(a), Name(b)];
    assert Primary(t2, 1, pf) == Parsed(Variable(a), 2);
    assert ExprAt(t2, 1, 0, pf) == Parsed(Variable(a), 2);
    assert Primary(t2, 0, pf) == Failed("Expected ')'", 2);
  }

  /** `parse` stops at the first token that is not an operator and does
      not complain about what follows. */
  lemma TrailingTokensIgnored(a: string, b: string, pf: F64Parser)
    ensures ExprAt([Name(a), Name(b)], 0, 0, pf) == Parsed(Variable(a), 1)
  {
    var toks := [Name(a), Name(b)];
    assert Primary(toks, 0, pf) == Parsed(Variable(a), 1);
  }

  // ---------------------------------------------------------------------
  // Printing an expression back to tokens

  /** The expressions that the parser can produce from integers and names. */
  predicate Printable(e: Expr) {
    match e
    case Integer(i) => InI64(i)
    case Variable(_) => true
    case Unary(_, x) => Printable(x)
    case Binary(l, _, r) => Printable(l) && Printable(r)
    case _ => false
  }

  function OpToken(op: BinaryOp): (t: Entry)
    ensures BinOpOf(t.0) == Some((op, Prec(op)))
  {
    match op
    case Add => (L.Plus, "+")
    case Sub => (L.Minus, "-")
    case Mul => (L.Star, "*")
    case Div => (L.Slash, "/")
    case Eq => (L.EqEq, "==")
    case Ne => (L.BangEq, "!=")
    case Lt => (L.Lt, "<")
    case Le => (L.Le, "<=")
    case Gt => (L.Gt, ">")
    case Ge => (L.Ge, ">=")
  }

  /** The fully parenthesised token form of an expression. */
  function Unparse(e: Expr): (r: seq<Entry>)
    requires Printable(e)
    ensures |r| >= 1
  {
    match e
    case Integer(i) => [(L.CInt, DecimalText(i))]
    case Variable(n) => [Name(n)]
    case Unary(op, x) => [if op == Neg then (L.Minus, "-") else (L.Bang, "!")] + Unparse(x)
    case Binary(l, op, r) => [(L.LParen, "(")] + Unparse(l) + [OpToken(op)] + Unparse(r) + [(L.RParen, ")")]
  }

  /** `toks` holds `u` starting at `pos`. */
  predicate HoldsAt(toks: seq<Entry>, pos: nat, u: seq<Entry>)
    decreases |u|
  {
    pos + |u| <= |toks| && (u == [] || (toks[pos] == u[0] && HoldsAt(toks, pos + 1, u[1..])))
  }

  /** The token at offset `k` of `u`, when `toks` holds `u` at `pos`. */
  lemma {:induction false} HoldsToken(toks: seq<Entry>, pos: nat, u: seq<Entry>, k: nat)
    requires HoldsAt(toks, pos, u) && k < |u|
    ensures pos + k < |toks| && toks[pos + k] == u[k]
    decreases k
  {
    if k > 0 {
      HoldsToken(toks, pos + 1, u[1..], k - 1);
    }
  }

  /** What `toks` holds at `pos` it holds from `pos + k` on without the
      first `k` entries. */
  lemma {:induction false} HoldsDrop(toks: seq<Entry>, pos: nat, u: seq<Entry>, k: nat)
    requires HoldsAt(toks, pos, u) && k <= |u|
    ensures HoldsAt(toks, pos + k, u[k..])
    decreases k
  {
    if k > 0 {
      HoldsDrop(toks, pos + 1, u[1..], k - 1);
      assert u[1..][k - 1..] == u[k..];
    }
  }

  /** ... and it holds every prefix of it. */
  lemma {:induction false} HoldsPrefix(toks: seq<Entry>, pos: nat, u: seq<Entry>, n: nat)
    requires HoldsAt(toks, pos, u) && n <= |u|
    ensures HoldsAt(toks, pos, u[..n])
    decreases n
  {
    if n > 0 {
      HoldsPrefix(toks, pos + 1, u[1..], n - 1);
      assert u[..n][1..] == u[1..][..n - 1];
    }
  }

  lemma HoldsInside(toks: seq<Entry>, pos: nat, u: seq<Entry>, k: nat, v: seq<Entry>)
    requires HoldsAt(toks, pos, u)
    requires k + |v| <= |u| && u[k..k + |v|] == v
    ensures HoldsAt(toks, pos + k, v)
  {
    HoldsDrop(toks, pos, u, k);
    HoldsPrefix(toks, pos + k, u[k..], |v|);
    assert u[k..][..|v|] == v;
  }

  /** A sequence holds its own tail from any position. */
  lemma {:induction false} HoldsSuffix(toks: seq<Entry>, pos: nat)
    requires pos <= |toks|
    ensures HoldsAt(toks, pos, toks[pos..])
    decreases |toks| - pos
  {
    if pos < |toks| {
      HoldsSuffix(toks, pos + 1);
      assert toks[pos..][1..] == toks[pos + 1..];
    }
  }

  /** One parenthesised binary operation, from what its parts parse to. */
  lemma ParenthesisedBinary(toks: seq<Entry>, pos: nat, l: Expr, op: BinaryOp, r: Expr, p1: nat, p2: nat, pf: F64Parser)
    requires pos < p1 < p2 < |toks|
    requires toks[pos].0 == L.LParen
    requires Primary(toks, pos + 1, pf) == Parsed(l, p1)
    requires toks[p1].0 == OpToken(op).0
    requires Primary(toks, p1 + 1, pf) == Parsed(r, p2)
    requires toks[p2].0 == L.RParen
    ensures Primary(toks, pos, pf) == Parsed(Binary(l, op, r), p2 + 1)
  {
    var prec := Prec(op);
    assert Climb(toks, r, p2, prec + 1, pf) == Parsed(r, p2);
    assert ExprAt(toks, p1 + 1, prec + 1, pf) == Parsed(r, p2);
    var e := Binary(l, op, r);
    assert Climb(toks, e, p2, 0, pf) == Parsed(e, p2);
    assert Climb(toks, l, p1, 0, pf) == Parsed(e, p2);
    assert ExprAt(toks, pos + 1, 0, pf) == Parsed(e, p2);
  }

  /** A prefix operator applied to what the next primary parses to. */
  lemma PrefixOperator(toks: seq<Entry>, pos: nat, op: UnaryOp, x: Expr, p: nat, pf: F64Parser)
    requires pos < |toks| && pos < p <= |toks|
    requires toks[pos].0 == (if op == Neg then L.Minus else L.Bang)
    requires Primary(toks, pos + 1, pf) == Parsed(x, p)
    ensures Primary(toks, pos, pf) == Parsed(Unary(op, x), p)
  {
  }

  /** An integer literal printed in decimal. */
  lemma DecimalLiteral(toks: seq<Entry>, pos: nat, i: int, pf: F64Parser)
    requires InI64(i) && pos < |toks| && toks[pos] == (L.CInt, DecimalText(i))
    ensures Primary(toks, pos, pf) == Parsed(Integer(i), pos + 1)
  {
    DecodeDecimalText(i);
  }

  /** Where the parts of `[open] + x + [mid] + y + [close]` sit. */
  lemma BracketedParts<T>(open: T, x: seq<T>, mid: T, y: seq<T>, close: T)
    ensures
      var u := [open] + x + [mid] + y + [close];
      |u| == |x| + |y| + 3 && u[0] == open && u[1..1 + |x|] == x
      && u[1 + |x|] == mid && u[2 + |x|..2 + |x| + |y|] == y && u[|u| - 1] == close
  {
    var u := [open] + x + [mid] + y + [close];
    assert u[1..1 + |x|] == x;
    assert u[2 + |x|..2 + |x| + |y|] == y;
  }

  /** Where the parts of a bracketed run of tokens sit among the tokens. */
  lemma BracketedHeld(toks: seq<Entry>, pos: nat, open: Entry, x: seq<Entry>, mid: Entry, y: seq<Entry>, close: Entry)
    requires HoldsAt(toks, pos, [open] + x + [mid] + y + [close])
    ensures pos + |x| + |y| + 3 <= |toks|
    ensures toks[pos] == open && HoldsAt(toks, pos + 1, x) && toks[pos + 1 + |x|] == mid
    ensures HoldsAt(toks, pos + 2 + |x|, y) && toks[pos + |x| + |y| + 2] == close
  {
    var u := [open] + x + [mid] + y + [close];
    BracketedParts(open, x, mid, y, close);
    HoldsToken(toks, pos, u, 0);
    HoldsInside(toks, pos, u, 1, x);
    HoldsToken(toks, pos, u, 1 + |x|);
    HoldsInside(toks, pos, u, 2 + |x|, y);
    HoldsToken(toks, pos, u, |u| - 1);
  }

  /** Wherever the printed form of an expression appears, `parse_primary`
      reads it back as that expression and stops right after it. */
  lemma {:induction false} PrimaryReadsUnparse(e: Expr, toks: seq<Entry>, pos: nat, pf: F64Parser)
    requires Printable(e) && HoldsAt(toks, pos, Unparse(e))
    ensures Primary(toks, pos, pf) == Parsed(e, pos + |Unparse(e)|)
    decreases e, 1
  {
    HoldsToken(toks, pos, Unparse(e), 0);
    match e
    case Integer(i) =>
      DecimalLiteral(toks, pos, i, pf);
    case Variable(n) =>
      NamesBecomeVariables(toks, pos, pf);
    case Unary(op, x) =>
      UnaryReadsUnparse(op, x, toks, pos, pf);
    case Binary(l, op, r) =>
      BinaryReadsUnparse(l, op, r, toks, pos, pf);
  }

  /** The case of `PrimaryReadsUnparse` for a prefix operator. */
  lemma {:induction false} UnaryReadsUnparse(op: UnaryOp, x: Expr, toks: seq<Entry>, pos: nat, pf: F64Parser)
    requires Printable(x) && HoldsAt(toks, pos, Unparse(Unary(op, x)))
    ensures Primary(toks, pos, pf) == Parsed(Unary(op, x), pos + |Unparse(Unary(op, x))|)
    decreases Unary(op, x), 0
  {
    var u, ux := Unparse(Unary(op, x)), Unparse(x);
    HoldsToken(toks, pos, u, 0);
    assert u[1..1 + |ux|] == ux;
    HoldsInside(toks, pos, u, 1, ux);
    PrimaryReadsUnparse(x, toks, pos + 1, pf);
    PrefixOperator(toks, pos, op, x, pos + 1 + |ux|, pf);
  }

  /** The case of `PrimaryReadsUnparse` for a binary operation. */
  lemma {:induction false} BinaryReadsUnparse(l: Expr, op: BinaryOp, r: Expr, toks: seq<Entry>, pos: nat, pf: F64Parser)
    requires Printable(l) && Printable(r) && HoldsAt(toks, pos, Unparse(Binary(l, op, r)))
    ensures Primary(toks, pos, pf) == Parsed(Binary(l, op, r), pos + |Unparse(Binary(l, op, r))|)
    decreases Binary(l, op, r), 0
  {
    var ul, ur := Unparse(l), Unparse(r);
    BracketedHeld(toks, pos, (L.LParen, "("), ul, OpToken(op), ur, (L.RParen, ")"));
    PrimaryReadsUnparse(l, toks, pos + 1, pf);
    PrimaryReadsUnparse(r, toks, pos + 2 + |ul|, pf);
    BracketedReadsBack(toks, pos, ul, ur, l, op, r, pf);
  }

  /** The step of `PrimaryReadsUnparse` for a binary operation: the
      operands read back from their printed forms `x` and `y`. */
  lemma BracketedReadsBack(toks: seq<Entry>, pos: nat, x: seq<Entry>, y: seq<Entry>, l: Expr, op: BinaryOp, r: Expr, pf: F64Parser)
    requires HoldsAt(toks, pos, [(L.LParen, "(")] + x + [OpToken(op)] + y + [(L.RParen, ")")])
    requires pos + 2 + |x| <= |toks|
    requires Primary(toks, pos + 1, pf) == Parsed(l, pos + 1 + |x|)
    requires Primary(toks, pos + 2 + |x|, pf) == Parsed(r, pos + 2 + |x| + |y|)
    ensures Primary(toks, pos, pf) == Parsed(Binary(l, op, r), pos + |x| + |y| + 3)
  {
    BracketedHeld(toks, pos, (L.LParen, "("), x, OpToken(op), y, (L.RParen, ")"));
    ParenthesisedBinary(toks, pos, l, op, r, pos + 1 + |x|, pos + 2 + |x| + |y|, pf);
  }

  /** Parsing the printed form of an expression gives the expression back
      and reads every token. */
  lemma ParseUnparse(e: Expr, pf: F64Parser)
    requires Printable(e)
    ensures ExprAt(Unparse(e), 0, 0, pf) == Parsed(e, |Unparse(e)|)
  {
    var u := Unparse(e);
    HoldsSuffix(u, 0);
    assert u[0..] == u;
    PrimaryReadsUnparse(e, u, 0, pf);
  }
}
