/** Properties of the evaluator of src/eval.rs. */
module EvalProps {
  import opened Wrappers
  import opened StdText
  import P = Parser
  import opened Evaluator

  predicate SameKind(l: Value, r: Value) {
    (l.Integer? && r.Integer?) || (l.Number? && r.Number?) || (l.Bool? && r.Bool?)
    || (l.CString? && r.CString?) || (l.CChar? && r.CChar?)
  }

  /** `==` is false between values of different kinds, and between two
      characters whatever they are. */
  lemma EqFalseAcrossKinds(l: Value, r: Value, fo: FloatOps)
    requires !SameKind(l, r) || (l.CChar? && r.CChar?)
    ensures ApplyBinary(P.Eq, l, r, fo) == Ok(Bool(false))
  {
  }

  /** `==` on two integers, booleans or strings is equality of the values. */
  lemma EqIsEquality(l: Value, r: Value, fo: FloatOps)
    requires SameKind(l, r) && !l.Number? && !l.CChar?
    ensures ApplyBinary(P.Eq, l, r, fo) == Ok(Bool(l == r))
  {
  }

  /** `!=` as written: for two values of the same comparable kind it gives
      the same answer as `==`, so `1 != 1` is true and `1 != 2` is false;
      across kinds (and between characters) it is true. */
  lemma NeAsWritten(l: Value, r: Value, fo: FloatOps)
    ensures SameKind(l, r) && !l.CChar? ==> ApplyBinary(P.Ne, l, r, fo) == ApplyBinary(P.Eq, l, r, fo)
    ensures !SameKind(l, r) || l.CChar? ==> ApplyBinary(P.Ne, l, r, fo) == Ok(Bool(true))
    ensures ApplyBinary(P.Ne, Integer(1), Integer(1), fo) == Ok(Bool(true))
  {
  }

  /** `!` yields a boolean: the negated truthiness, so `!` of a string or a
      character is `true`. */
  lemma NotOfText(v: Value, fo: FloatOps)
    ensures ApplyUnary(P.Not, v, fo) == Ok(Bool(!Truthy(v, fo)))
    ensures v.CString? || v.CChar? ==> ApplyUnary(P.Not, v, fo) == Ok(Bool(true))
    ensures v.Integer? ==> ApplyUnary(P.Not, v, fo) == Ok(Bool(v.i == 0))
  {
  }

  /** The four orderings are defined exactly on two integers or two
      floats, and give a boolean there. */
  lemma ComparisonKinds(op: P.BinaryOp, l: Value, r: Value, fo: FloatOps)
    requires op in {P.Lt, P.Le, P.Gt, P.Ge}
    ensures ApplyBinary(op, l, r, fo).Ok? <==> (l.Integer? && r.Integer?) || (l.Number? && r.Number?)
    ensures ApplyBinary(op, l, r, fo).Ok? ==> ApplyBinary(op, l, r, fo).value.Bool?
    ensures ApplyBinary(op, l, r, fo).Err? ==> ApplyBinary(op, l, r, fo).error == Error("Cannot compare these types")
  {
  }

  /** Integer `+ - *` give an integer when the exact result fits in an i64,
      and the overflow panic otherwise. */
  lemma IntegerArithmetic(op: P.BinaryOp, a: int, b: int, fo: FloatOps)
    requires op in {P.Add, P.Sub, P.Mul}
    ensures
      var exact := if op == P.Add then a + b else if op == P.Sub then a - b else a * b;
      var r := ApplyBinary(op, Integer(a), Integer(b), fo);
      (InI64(exact) ==> r == Ok(Integer(exact))) && (!InI64(exact) ==> r.Err? && r.error.Panic?)
  {
  }

  /** Integer division always yields a float, except that a zero divisor is
      an error. */
  lemma IntegerDivision(a: int, b: int, fo: FloatOps)
    ensures b == 0 <==> ApplyBinary(P.Div, Integer(a), Integer(b), fo) == Err(Error("Division by zero"))
    ensures b != 0 ==>
      ApplyBinary(P.Div, Integer(a), Integer(b), fo).Ok? && ApplyBinary(P.Div, Integer(a), Integer(b), fo).value.Number?
  {
  }

  /** The text a string or character value stands for. */
  function Text(v: Value): string
    requires v.CString? || v.CChar?
  {
    if v.CString? then v.s else [v.c]
  }

  /** `+` on strings and characters, in any combination, concatenates. */
  lemma ConcatenatesText(l: Value, r: Value, fo: FloatOps)
    requires (l.CString? || l.CChar?) && (r.CString? || r.CChar?)
    ensures ApplyBinary(P.Add, l, r, fo) == Ok(CString(Text(l) + Text(r)))
  {
    if l.CChar? && r.CChar? {
      assert [l.c, r.c] == [l.c] + [r.c];
    }
  }

  /** Every character of `Replicate(s, n)` is the character of `s` at the
      same offset modulo `|s|`. */
  lemma {:induction false} ReplicateAt(s: string, n: nat, k: nat)
    requires k < |Replicate(s, n)|
    ensures Replicate(s, n)[k] == s[k % |s|]
    decreases n
  {
    var r := Replicate(s, n);
    assert n > 0 && r == s + Replicate(s, n - 1);
    if k < |s| {
      assert k % |s| == k;
    } else {
      ReplicateAt(s, n - 1, k - |s|);
      ModShift(k, |s|);
    }
  }

  lemma ModShift(k: nat, m: nat)
    requires 0 < m <= k
    ensures (k - m) % m == k % m
  {
    var q, r := (k - m) / m, (k - m) % m;
    assert k - m == q * m + r && 0 <= r < m;
    assert k == (q + 1) * m + r;
    ModUnique(k, m, q + 1, r);
  }

  /** Euclidean division has one quotient and one remainder. */
  lemma ModUnique(x: int, m: int, q: int, r: int)
    requires 0 < m && 0 <= r < m && x == q * m + r
    ensures x % m == r
  {
    var q', r' := x / m, x % m;
    assert x == q' * m + r' && 0 <= r' < m;
    assert (q - q') * m == r' - r;
    if q > q' {
      MulAtLeast(q - q', m);
    } else if q < q' {
      MulAtLeast(q' - q, m);
    }
  }

  lemma MulAtLeast(d: int, m: int)
    requires d >= 1 && m > 0
    ensures d * m >= m
  {
    assert d * m == (d - 1) * m + m;
    assert (d - 1) * m >= 0;
  }

  /** A non-negative count small enough for the result to fit repeats the
      text that many times. */
  lemma RepeatContents(s: string, count: int)
    requires 0 <= count <= I64_MAX && |Utf8(s)| * count <= I64_MAX
    ensures Repeat(s, count).Ok?
    ensures |Repeat(s, count).value| == count * |s|
    ensures forall k :: 0 <= k < count * |s| ==> Repeat(s, count).value[k] == s[k % |s|]
  {
    assert count % 0x1_0000_0000_0000_0000 == count;
    forall k | 0 <= k < count * |s|
      ensures Repeat(s, count).value[k] == s[k % |s|]
    {
      ReplicateAt(s, count, k);
    }
  }

  /** A negative count wraps to a huge `usize`: the empty string stays
      empty, any other text panics. */
  lemma RepeatNegative(s: string, count: int)
    requires I64_MIN <= count < 0
    ensures s == "" ==> Repeat(s, count) == Ok("")
    ensures s != "" ==> Repeat(s, count) == Err(Panic("capacity overflow"))
  {
    var n: nat := count % 0x1_0000_0000_0000_0000;
    assert n == count + 0x1_0000_0000_0000_0000;
    if s == "" {
      assert Utf8(s) == [];
      assert Replicate(s, n) == "" by {
        assert |Replicate(s, n)| == n * 0;
      }
    } else {
      assert |Utf8(s)| >= 1;
      MulAtLeast(|Utf8(s)|, n);
    }
  }

  /** Integers that fit in an i64. */
  predicate IntsInRange(v: Value) {
    v.Integer? ==> InI64(v.i)
  }

  predicate LiteralsInRange(e: P.Expr) {
    match e
    case Integer(i) => InI64(i)
    case Unary(_, x) => LiteralsInRange(x)
    case Binary(l, _, r) => LiteralsInRange(l) && LiteralsInRange(r)
    case _ => true
  }

  predicate BindingsInRange(b: Bindings) {
    (forall n :: n in b.vars ==> IntsInRange(b.vars[n]))
    && (forall n :: n in b.consts ==> IntsInRange(b.consts[n]))
  }

  /** Integer results stay in the i64 range: every arithmetic step either
      fits or panics. */
  lemma {:induction false} EvalStaysInRange(e: P.Expr, b: Bindings, fo: FloatOps)
    requires LiteralsInRange(e) && BindingsInRange(b)
    ensures Eval(e, b, fo).Ok? ==> IntsInRange(Eval(e, b, fo).value)
    decreases e, 1
  {
    match e
    case Unary(op, x) =>
      UnaryStaysInRange(op, x, b, fo);
    case Binary(l, op, r) =>
      BinaryStaysInRange(l, op, r, b, fo);
    case _ =>
  }

  lemma {:induction false} UnaryStaysInRange(op: P.UnaryOp, x: P.Expr, b: Bindings, fo: FloatOps)
    requires LiteralsInRange(x) && BindingsInRange(b)
    ensures Eval(P.Unary(op, x), b, fo).Ok? ==> IntsInRange(Eval(P.Unary(op, x), b, fo).value)
    decreases P.Unary(op, x), 0
  {
    EvalStaysInRange(x, b, fo);
    if Eval(x, b, fo).Ok? {
      UnaryResultInRange(op, Eval(x, b, fo).value, fo);
    }
  }

  lemma {:induction false} BinaryStaysInRange(l: P.Expr, op: P.BinaryOp, r: P.Expr, b: Bindings, fo: FloatOps)
    requires LiteralsInRange(l) && LiteralsInRange(r) && BindingsInRange(b)
    ensures Eval(P.Binary(l, op, r), b, fo).Ok? ==> IntsInRange(Eval(P.Binary(l, op, r), b, fo).value)
    decreases P.Binary(l, op, r), 0
  {
    EvalStaysInRange(l, b, fo);
    EvalStaysInRange(r, b, fo);
    if Eval(l, b, fo).Ok? && Eval(r, b, fo).Ok? {
      BinaryResultInRange(op, Eval(l, b, fo).value, Eval(r, b, fo).value, fo);
    }
  }

  /** A unary operator yields an integer only through checked negation. */
  lemma UnaryResultInRange(op: P.UnaryOp, v: Value, fo: FloatOps)
    ensures ApplyUnary(op, v, fo).Ok? ==> IntsInRange(ApplyUnary(op, v, fo).value)
  {
  }

  /** A binary operator yields an integer only through checked addition,
      subtraction or multiplication. */
  lemma BinaryResultInRange(op: P.BinaryOp, l: Value, r: Value, fo: FloatOps)
    ensures ApplyBinary(op, l, r, fo).Ok? ==> IntsInRange(ApplyBinary(op, l, r, fo).value)
  {
  }

  /** The names an expression reads. */
  function FreeVars(e: P.Expr): set<string> {
    match e
    case Variable(n) => {n}
    case Unary(_, x) => FreeVars(x)
    case Binary(l, _, r) => FreeVars(l) + FreeVars(r)
    case _ => {}
  }

  /** Evaluation depends only on the bindings of the names it reads. */
  lemma {:induction false} EvalReadsOnlyFreeVars(e: P.Expr, b1: Bindings, b2: Bindings, fo: FloatOps)
    requires forall n :: n in FreeVars(e) ==> Lookup(b1, n) == Lookup(b2, n)
    ensures Eval(e, b1, fo) == Eval(e, b2, fo)
  {
    match e
    case Variable(n) =>
      assert n in FreeVars(e);
    case Unary(op, x) =>
      EvalReadsOnlyFreeVars(x, b1, b2, fo);
    case Binary(l, op, r) =>
      EvalReadsOnlyFreeVars(l, b1, b2, fo);
      EvalReadsOnlyFreeVars(r, b1, b2, fo);
    case _ =>
  }

  /** A name with no binding is reported, and so is any expression that
      reads it first. */
  lemma UndefinedVariable(name: string, b: Bindings, fo: FloatOps)
    requires Lookup(b, name).None?
    ensures Eval(P.Variable(name), b, fo) == Err(Error("Undefined variable: '" + name + "'"))
    ensures Eval(P.Unary(P.Neg, P.Variable(name)), b, fo) == Err(Error("Undefined variable: '" + name + "'"))
  {
  }
}
