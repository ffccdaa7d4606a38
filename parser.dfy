/** The precedence-climbing expression parser (src/parser.rs). The parser
    is an object holding the token vector and a cursor `pos`; its methods
    advance the cursor. Each method is proved against a function of the
    tokens and the starting cursor (`Primary`, `ExprAt`, `Climb`), which
    gives both the tree built and where the cursor ends, on success and on
    error alike. */
module Parser {
  import opened Wrappers
  import opened StdText
  import L = Lex

  /** An `f64`, kept opaque: only its bit pattern. */
  datatype Float = F64(bits: bv64)

  datatype UnaryOp = Neg | Not

  datatype BinaryOp = Add | Sub | Mul | Div | Eq | Ne | Lt | Le | Gt | Ge

  /** `Expr` of src/parser.rs:4-11, plus a `CChar` variant: the evaluator
      (src/eval.rs:59) matches `Expr::CChar`, which the source's enum does
      not declare. The parser never builds `CString` or `CChar`. */
  datatype Expr =
    | Number(f: Float)
    | Integer(i: int)
    | CString(s: string)
    | CChar(c: char)
    | Variable(name: string)
    | Unary(uop: UnaryOp, operand: Expr)
    | Binary(left: Expr, bop: BinaryOp, right: Expr)

  type Entry = (L.Token, string)

  /** `str::parse::<f64>`, left to the floating-point library. */
  type F64Parser = string -> Option<Float>

  /** The radix dispatch of a `CInt` lexeme (src/parser.rs:61-73): `0x`/`0X`
      hexadecimal, `0b`/`0B` binary, a leading `0` with more after it octal,
      anything else decimal. A sign is only understood by the decimal case. */
  function DecodeCInt(text: string): (r: Option<int>)
    ensures r.Some? ==> InI64(r.value)
  {
    var (digits, radix) := RadixSplit(text);
    FromStrRadix(digits, radix)
  }

  /** The digits of a `CInt` lexeme after its radix prefix, and the radix. */
  function RadixSplit(text: string): (r: (string, nat))
    ensures r.1 in {2, 8, 10, 16}
  {
    if |text| >= 2 && text[0] == '0' && (text[1] == 'x' || text[1] == 'X') then (text[2..], 16)
    else if |text| >= 2 && text[0] == '0' && (text[1] == 'b' || text[1] == 'B') then (text[2..], 2)
    else if |text| > 1 && text[0] == '0' then (text[1..], 8)
    else (text, 10)
  }

  /** The binary operator a token stands for and its precedence
      (src/parser.rs:109-121). Every operator is left-associative, so the
      right operand is parsed at precedence `prec + 1`. */
  function BinOpOf(t: L.Token): Option<(BinaryOp, nat)> {
    match t
    case Plus => Some((Add, 1))
    case Minus => Some((Sub, 1))
    case Star => Some((Mul, 2))
    case Slash => Some((Div, 2))
    case EqEq => Some((Eq, 0))
    case BangEq => Some((Ne, 0))
    case Lt => Some((BinaryOp.Lt, 0))
    case Le => Some((BinaryOp.Le, 0))
    case Gt => Some((BinaryOp.Gt, 0))
    case Ge => Some((BinaryOp.Ge, 0))
    case _ => None
  }

  function Prec(op: BinaryOp): nat {
    match op
    case Add => 1
    case Sub => 1
    case Mul => 2
    case Div => 2
    case _ => 0
  }

  /** Where a parse ends: the tree or the error message, and the cursor. */
  datatype Step = Parsed(e: Expr, pos: nat) | Failed(msg: string, pos: nat)

  /** The climbing loop stops at `pos`: no token left, or one that is not an
      operator binding at least as tightly as `minPrec`. */
  predicate StopsAt(toks: seq<Entry>, pos: nat, minPrec: nat) {
    pos >= |toks| || BinOpOf(toks[pos].0).None? || BinOpOf(toks[pos].0).value.1 < minPrec
  }

  /** `parse_primary` starting at `pos` (src/parser.rs:51-103). */
  function Primary(toks: seq<Entry>, pos: nat, pf: F64Parser): (r: Step)
    requires pos <= |toks|
    ensures pos <= r.pos <= |toks|
    ensures r.Parsed? ==> pos < r.pos
    decreases |toks| - pos, 0
  {
    if pos == |toks| then Failed("Unexpected end of input", pos)
    else
      var (tok, text) := toks[pos];
      var next := pos + 1;
      match tok
      case CInt =>
        (match DecodeCInt(text)
         case None => Failed("Invalid integer: " + text, next)
         case Some(v) => Parsed(Integer(v), next))
      case CFloat =>
        (match pf(text)
         case None => Failed("Invalid float: " + text, next)
         case Some(f) => Parsed(Number(f), next))
      case Id => Parsed(Variable(text), next)
      case CString => Parsed(Variable(text), next)
      case LParen =>
        (match ExprAt(toks, next, 0, pf)
         case Failed(m, p) => Failed(m, p)
         case Parsed(e, p) =>
           if p < |toks| && toks[p].0 == L.RParen then Parsed(e, p + 1) else Failed("Expected ')'", p))
      case Minus =>
        (match Primary(toks, next, pf)
         case Failed(m, p) => Failed(m, p)
         case Parsed(e, p) => Parsed(Unary(Neg, e), p))
      case Bang =>
        (match Primary(toks, next, pf)
         case Failed(m, p) => Failed(m, p)
         case Parsed(e, p) => Parsed(Unary(Not, e), p))
      case _ => Failed("Unexpected token: " + L.DebugName(tok), next)
  }

  /** `parse_expr(minPrec)` starting at `pos` (src/parser.rs:105-137): a
      primary, then the climbing loop. On success the cursor has moved and
      rests where the loop stopped. */
  function ExprAt(toks: seq<Entry>, pos: nat, minPrec: nat, pf: F64Parser): (r: Step)
    requires pos <= |toks|
    ensures pos <= r.pos <= |toks|
    ensures r.Parsed? ==> pos < r.pos && StopsAt(toks, r.pos, minPrec)
    decreases |toks| - pos, 2
  {
    match Primary(toks, pos, pf)
    case Failed(m, p) => Failed(m, p)
    case Parsed(lhs, p) => Climb(toks, lhs, p, minPrec, pf)
  }

  /** The `while let` loop of `parse_expr`, with `lhs` built so far and the
      cursor at `pos`. */
  function Climb(toks: seq<Entry>, lhs: Expr, pos: nat, minPrec: nat, pf: F64Parser): (r: Step)
    requires pos <= |toks|
    ensures pos <= r.pos <= |toks|
    ensures r.Parsed? ==> StopsAt(toks, r.pos, minPrec)
    decreases |toks| - pos, 1
  {
    if StopsAt(toks, pos, minPrec) then Parsed(lhs, pos)
    else
      var (op, prec) := BinOpOf(toks[pos].0).value;
      match ExprAt(toks, pos + 1, prec + 1, pf)
      case Failed(m, p) => Failed(m, p)
      case Parsed(rhs, p) => Climb(toks, Binary(lhs, op, rhs), p, minPrec, pf)
  }

  /** A method's result and final cursor, as a `Step`. */
  function AsStep(r: Result<Expr, string>, pos: nat): Step {
    match r
    case Ok(e) => Parsed(e, pos)
    case Err(m) => Failed(m, pos)
  }

  class Parser {
    const tokens: seq<Entry>
    const parseF64: F64Parser
    var pos: nat

    /** The cursor never runs past the end of the tokens. */
    ghost predicate Valid()
      reads this
    {
      pos <= |tokens|
    }

    /** `Parser::new` */
    constructor(tokens: seq<Entry>, parseF64: F64Parser)
      ensures Valid()
      ensures this.tokens == tokens && this.parseF64 == parseF64 && pos == 0
    {
      this.tokens := tokens;
      this.parseF64 := parseF64;
      pos := 0;
    }

    /** `peek`: the token under the cursor, if any. */
    function Peek(): (r: Option<Entry>)
      reads this
      requires Valid()
      ensures r.Some? <==> pos < |tokens|
      ensures r.Some? ==> r.value == tokens[pos]
    {
      if pos < |tokens| then Some(tokens[pos]) else None
    }

    /** `advance`; only ever called after `peek` found a token. */
    method Advance()
      requires Valid() && pos < |tokens|
      modifies this`pos
      ensures Valid() && pos == old(pos) + 1
    {
      pos := pos + 1;
    }

    method ParsePrimary() returns (r: Result<Expr, string>)
      requires Valid()
      modifies this`pos
      ensures Valid()
      ensures AsStep(r, pos) == Primary(tokens, old(pos), parseF64)
      decreases |tokens| - pos, 0
    {
      if pos >= |tokens| {
        return Err("Unexpected end of input");
      }
      var (token, text) := tokens[pos];
      pos := pos + 1;
      match token {
        case CInt =>
          var value := DecodeCInt(text);
          if value.None? {
            return Err("Invalid integer: " + text);
          }
          return Ok(Integer(value.value));
        case CFloat =>
          var value := parseF64(text);
          if value.None? {
            return Err("Invalid float: " + text);
          }
          return Ok(Number(value.value));
        case Id =>
          return Ok(Variable(text));
        case CString =>
          return Ok(Variable(text));
        case LParen =>
          var expr := ParseExpr(0);
          if expr.Err? {
            return expr;
          }
          var next := Peek();
          if next.Some? && next.value.0 == L.RParen {
            Advance();
            return expr;
          }
          return Err("Expected ')'");
        case Minus =>
          var expr := ParsePrimary();
          if expr.Err? {
            return expr;
          }
          return Ok(Unary(Neg, expr.value));
        case Bang =>
          var expr := ParsePrimary();
          if expr.Err? {
            return expr;
          }
          return Ok(Unary(Not, expr.value));
        case _ =>
          return Err("Unexpected token: " + L.DebugName(token));
      }
    }

    method ParseExpr(minPrec: nat) returns (r: Result<Expr, string>)
      requires Valid()
      modifies this`pos
      ensures Valid()
      ensures AsStep(r, pos) == ExprAt(tokens, old(pos), minPrec, parseF64)
      decreases |tokens| - pos, 1
    {
      var first := ParsePrimary();
      ghost var goal := ExprAt(tokens, old(pos), minPrec, parseF64);
      if first.Err? {
        return first;
      }
      var lhs := first.value;
      while true
        invariant Valid() && old(pos) < pos
        invariant goal == Climb(tokens, lhs, pos, minPrec, parseF64)
        decreases |tokens| - pos
      {
        var next := Peek();
        if next.None? {
          break;
        }
        var opInfo := BinOpOf(next.value.0);
        if opInfo.None? {
          break;
        }
        var (op, prec) := opInfo.value;
        if prec < minPrec {
          break;
        }
        ghost var at := pos;
        assert !StopsAt(tokens, at, minPrec) && BinOpOf(tokens[at].0).value == (op, prec);
        Advance();
        var rhs := ParseExpr(prec + 1);
        if rhs.Err? {
          assert goal == Failed(rhs.error, pos);
          return rhs;
        }
        assert goal == Climb(tokens, Binary(lhs, op, rhs.value), pos, minPrec, parseF64);
        lhs := Binary(lhs, op, rhs.value);
      }
      assert StopsAt(tokens, pos, minPrec);
      return Ok(lhs);
    }

    /** `parse`: an expression at the lowest precedence. Tokens after it are
        left unread and are not an error. */
    method Parse() returns (r: Result<Expr, string>)
      requires Valid()
      modifies this`pos
      ensures Valid()
      ensures AsStep(r, pos) == ExprAt(tokens, old(pos), 0, parseF64)
    {
      r := ParseExpr(0);
    }
  }
}
