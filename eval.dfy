/** Values, the variable/constant environment and the tree-walking
    evaluator (src/eval.rs). The environment is an object whose two maps
    are updated in place; the evaluator is a pure recursive function over
    a snapshot of those maps. Floating-point arithmetic is left to a
    record of operations supplied by the caller. */
module Evaluator {
  import opened Wrappers
  import opened StdText
  import P = Parser

  datatype Value =
    | CString(s: string)
    | CChar(c: char)
    | Number(f: P.Float)
    | Integer(i: int)
    | Bool(b: bool)

  /** The IEEE-754 operations the evaluator uses: `i as f64`, negation, the
      four arithmetic operations, `==` and `<`. Every other comparison is
      built from `==` and `<`. */
  datatype FloatOps = FloatOps(
    ofInt: int -> P.Float,
    neg: P.Float -> P.Float,
    add: (P.Float, P.Float) -> P.Float,
    sub: (P.Float, P.Float) -> P.Float,
    mul: (P.Float, P.Float) -> P.Float,
    div: (P.Float, P.Float) -> P.Float,
    eq: (P.Float, P.Float) -> bool,
    lt: (P.Float, P.Float) -> bool)

  /** `0.0` */
  const ZERO: P.Float := P.F64(0)

  // ---------------------------------------------------------------------
  // Environment

  /** The contents of an `Env`: variables and constants by name. */
  datatype Bindings = Bindings(vars: map<string, Value>, consts: map<string, Value>)

  /** No name is both a variable and a constant. */
  predicate Disjoint(b: Bindings) {
    forall n :: n in b.vars ==> n !in b.consts
  }

  /** `Env::get`: a constant wins over a variable of the same name. */
  function Lookup(b: Bindings, name: string): Option<Value> {
    if name in b.consts then Some(b.consts[name])
    else if name in b.vars then Some(b.vars[name])
    else None
  }

  /** `Env::set_var`: refused for a constant, otherwise inserts or
      overwrites the variable. */
  function BindVar(b: Bindings, name: string, value: Value): Result<Bindings, string> {
    if name in b.consts then Err("'" + name + "' is a constant, cannot reassign")
    else Ok(b.(vars := b.vars[name := value]))
  }

  /** `Env::set_const`: refused for any name already bound. */
  function BindConst(b: Bindings, name: string, value: Value): Result<Bindings, string> {
    if name in b.consts || name in b.vars then Err("'" + name + "' already defined")
    else Ok(b.(consts := b.consts[name := value]))
  }

  class Env {
    var vars: map<string, Value>
    var consts: map<string, Value>

    function Model(): Bindings
      reads this
    {
      Bindings(vars, consts)
    }

    ghost predicate Valid()
      reads this
    {
      Disjoint(Model())
    }

    /** `Env::new` */
    constructor()
      ensures Valid() && vars == map[] && consts == map[]
    {
      vars := map[];
      consts := map[];
    }

    method SetVar(name: string, value: Value) returns (r: Result<(), string>)
      requires Valid()
      modifies this
      ensures Valid()
      ensures (if r.Ok? then Ok(Model()) else Err(r.error)) == BindVar(old(Model()), name, value)
      ensures r.Err? ==> Model() == old(Model())
    {
      if name in consts {
        return Err("'" + name + "' is a constant, cannot reassign");
      }
      vars := vars[name := value];
      return Ok(());
    }

    method SetConst(name: string, value: Value) returns (r: Result<(), string>)
      requires Valid()
      modifies this
      ensures Valid()
      ensures (if r.Ok? then Ok(Model()) else Err(r.error)) == BindConst(old(Model()), name, value)
      ensures r.Err? ==> Model() == old(Model())
    {
      if name in consts || name in vars {
        return Err("'" + name + "' already defined");
      }
      consts := consts[name := value];
      return Ok(());
    }

    /** `Env::get` */
    function Get(name: string): (r: Option<Value>)
      reads this
      ensures r == Lookup(Model(), name)
    {
      if name in consts then Some(consts[name])
      else if name in vars then Some(vars[name])
      else None
    }
  }

  /** `set_var` keeps the two key sets apart. */
  lemma BindVarKeepsDisjoint(b: Bindings, name: string, value: Value)
    requires Disjoint(b)
    ensures BindVar(b, name, value).Ok? ==> Disjoint(BindVar(b, name, value).value)
  {
  }

  /** `set_const` keeps the two key sets apart. */
  lemma BindConstKeepsDisjoint(b: Bindings, name: string, value: Value)
    requires Disjoint(b)
    ensures BindConst(b, name, value).Ok? ==> Disjoint(BindConst(b, name, value).value)
  {
  }

  /** `set_var` fails exactly on a constant; when it succeeds the name reads
      back as the new value, every other name reads as before and no
      constant changes. */
  lemma BindVarThenLookup(b: Bindings, name: string, value: Value, other: string)
    ensures BindVar(b, name, value).Err? <==> name in b.consts
    ensures BindVar(b, name, value).Ok? ==>
      var b' := BindVar(b, name, value).value;
      Lookup(b', name) == Some(value) && b'.consts == b.consts
      && (other != name ==> Lookup(b', other) == Lookup(b, other))
  {
  }

  /** `set_const` fails exactly on a bound name; when it succeeds the name
      reads back as the new value, every other name reads as before and no
      variable changes. */
  lemma BindConstThenLookup(b: Bindings, name: string, value: Value, other: string)
    ensures BindConst(b, name, value).Err? <==> Lookup(b, name).Some?
    ensures BindConst(b, name, value).Ok? ==>
      var b' := BindConst(b, name, value).value;
      Lookup(b', name) == Some(value) && b'.vars == b.vars
      && (other != name ==> Lookup(b', other) == Lookup(b, other))
  {
  }

  /** Once defined, a constant keeps its value under every later
      `set_var` and `set_const`. */
  lemma ConstantsArePermanent(b: Bindings, name: string, value: Value, isConst: bool, c: string)
    requires c in b.consts
    ensures
      var r := if isConst then BindConst(b, name, value) else BindVar(b, name, value);
      r.Ok? ==> c in r.value.consts && r.value.consts[c] == b.consts[c] && Lookup(r.value, c) == Lookup(b, c)
  {
  }

  // ---------------------------------------------------------------------
  // Evaluation

  /** An i64 result, or the panic a debug build raises on overflow. */
  function Checked(x: int, verb: string): Result<Value, Failure> {
    if InI64(x) then Ok(Integer(x)) else Err(Panic("attempt to " + verb + " with overflow"))
  }

  /** `s` repeated `n` times. */
  function Replicate(s: string, n: nat): (r: string)
    ensures |r| == n * |s|
  {
    if n == 0 then "" else s + Replicate(s, n - 1)
  }

  /** `s.repeat(count as usize)`. The cast wraps a negative count to a huge
      one (64-bit `usize`), and `repeat` panics when the byte length of the
      result does not fit in an `isize`. */
  function Repeat(s: string, count: int): Result<string, Failure> {
    var n: nat := count % 0x1_0000_0000_0000_0000;
    if |Utf8(s)| * n > I64_MAX then Err(Panic("capacity overflow")) else Ok(Replicate(s, n))
  }

  /** Truthiness for `!` (src/eval.rs:73-81); a string or a character counts
      as false (the source also prints a syntax error to stderr). */
  function Truthy(v: Value, fo: FloatOps): bool {
    match v
    case Bool(b) => b
    case Integer(i) => i != 0
    case Number(n) => !fo.eq(n, ZERO)
    case _ => false
  }

  function ApplyUnary(op: P.UnaryOp, v: Value, fo: FloatOps): Result<Value, Failure> {
    match op
    case Neg =>
      (match v
       case Integer(i) => Checked(-i, "negate")
       case Number(n) => Ok(Number(fo.neg(n)))
       case _ => Err(Error("Cannot negate this type")))
    case Not => Ok(Bool(!Truthy(v, fo)))
  }

  function ApplyBinary(op: P.BinaryOp, l: Value, r: Value, fo: FloatOps): Result<Value, Failure> {
    match op
    case Add =>
      (match (l, r)
       case (Integer(a), Integer(b)) => Checked(a + b, "add")
       case (Number(a), Number(b)) => Ok(Number(fo.add(a, b)))
       case (Integer(a), Number(b)) => Ok(Number(fo.add(fo.ofInt(a), b)))
       case (Number(a), Integer(b)) => Ok(Number(fo.add(a, fo.ofInt(b))))
       case (CString(a), CString(b)) => Ok(CString(a + b))
       case (CString(a), CChar(b)) => Ok(CString(a + [b]))
       case (CChar(a), CString(b)) => Ok(CString([a] + b))
       case (CChar(a), CChar(b)) => Ok(CString([a, b]))
       case _ => Err(Error("Cannot add these types")))
    case Sub =>
      (match (l, r)
       case (Integer(a), Integer(b)) => Checked(a - b, "subtract")
       case (Number(a), Number(b)) => Ok(Number(fo.sub(a, b)))
       case (Integer(a), Number(b)) => Ok(Number(fo.sub(fo.ofInt(a), b)))
       case (Number(a), Integer(b)) => Ok(Number(fo.sub(a, fo.ofInt(b))))
       case _ => Err(Error("Cannot subtract these types")))
    case Mul =>
      (match (l, r)
       case (Integer(a), Integer(b)) => Checked(a * b, "multiply")
       case (Number(a), Number(b)) => Ok(Number(fo.mul(a, b)))
       case (Integer(a), Number(b)) => Ok(Number(fo.mul(fo.ofInt(a), b)))
       case (Number(a), Integer(b)) => Ok(Number(fo.mul(a, fo.ofInt(b))))
       case (CString(a), Integer(b)) =>
         (match Repeat(a, b)
          case Ok(s) => Ok(CString(s))
          case Err(f) => Err(f))
       case (CChar(a), Integer(b)) =>
         (match Repeat([a], b)
          case Ok(s) => Ok(CString(s))
          case Err(f) => Err(f))
       case _ => Err(Error("Cannot multiply these types")))
    case Div =>
      (match (l, r)
       case (Integer(a), Integer(b)) =>
         if b == 0 then Err(Error("Division by zero"))
         else Ok(Number(fo.div(fo.ofInt(a), fo.ofInt(b))))
       case (Number(a), Number(b)) =>
         if fo.eq(b, ZERO) then Err(Error("Division by zero"))
         else Ok(Number(fo.div(a, b)))
       case _ => Err(Error("Cannot divide these types")))
    case Eq =>
      Ok(Bool(match (l, r)
              case (Integer(a), Integer(b)) => a == b
              case (Number(a), Number(b)) => fo.eq(a, b)
              case (Bool(a), Bool(b)) => a == b
              case (CString(a), CString(b)) => a == b
              case _ => false))
    case Ne =>
      // As written: the per-type test is already `!=`, and it is negated
      // once more.
      Ok(Bool(!(match (l, r)
                case (Integer(a), Integer(b)) => a != b
                case (Number(a), Number(b)) => !fo.eq(a, b)
                case (Bool(a), Bool(b)) => a != b
                case (CString(a), CString(b)) => a != b
                case _ => false)))
    case Lt =>
      (match (l, r)
       case (Integer(a), Integer(b)) => Ok(Bool(a < b))
       case (Number(a), Number(b)) => Ok(Bool(fo.lt(a, b)))
       case _ => Err(Error("Cannot compare these types")))
    case Le =>
      (match (l, r)
       case (Integer(a), Integer(b)) => Ok(Bool(a <= b))
       case (Number(a), Number(b)) => Ok(Bool(fo.lt(a, b) || fo.eq(a, b)))
       case _ => Err(Error("Cannot compare these types")))
    case Gt =>
      (match (l, r)
       case (Integer(a), Integer(b)) => Ok(Bool(a > b))
       case (Number(a), Number(b)) => Ok(Bool(fo.lt(b, a)))
       case _ => Err(Error("Cannot compare these types")))
    case Ge =>
      (match (l, r)
       case (Integer(a), Integer(b)) => Ok(Bool(a >= b))
       case (Number(a), Number(b)) => Ok(Bool(fo.lt(b, a) || fo.eq(a, b)))
       case _ => Err(Error("Cannot compare these types")))
  }

  /** `eval` (src/eval.rs:55-199): operands left to right, the first
      failure wins. */
  function Eval(e: P.Expr, b: Bindings, fo: FloatOps): Result<Value, Failure> {
    match e
    case Integer(i) => Ok(Integer(i))
    case Number(n) => Ok(Number(n))
    case CChar(c) => Ok(CChar(c))
    case CString(s) => Ok(CString(s))
    case Variable(name) =>
      (match Lookup(b, name)
       case None => Err(Error("Undefined variable: '" + name + "'"))
       case Some(v) => Ok(v))
    case Unary(op, x) =>
      (match Eval(x, b, fo)
       case Err(f) => Err(f)
       case Ok(v) => ApplyUnary(op, v, fo))
    case Binary(l, op, r) =>
      (match Eval(l, b, fo)
       case Err(f) => Err(f)
       case Ok(lv) =>
         match Eval(r, b, fo)
         case Err(f) => Err(f)
         case Ok(rv) => ApplyBinary(op, lv, rv, fo))
  }
}
