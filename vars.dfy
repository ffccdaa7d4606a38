/** The `:const` and `:var` handlers (src/vars.rs). The process-wide
    environment behind a lock becomes an `Env` object passed in; each
    handler checks its tokens, parses and evaluates the expression against
    the environment as it is, and only then binds the name. */
module Vars {
  import opened Wrappers
  import L = Lex
  import P = Parser
  import opened Evaluator

  /** The bit patterns of `std::f64::consts::PI` and `std::f64::consts::E`. */
  const PI_BITS: bv64 := 0x4009_21FB_5444_2D18
  const E_BITS: bv64 := 0x4005_BF0A_8B14_5769

  /** The environment at start-up: four constants and no variables. */
  function InitialBindings(): Bindings {
    Bindings(map[], map["PI" := Number(P.F64(PI_BITS)), "E" := Number(P.F64(E_BITS)),
                        "TRUE" := Bool(true), "FALSE" := Bool(false)])
  }

  /** The lazily built global environment. Each `set_const` is unwrapped;
      none of them can fail. */
  method NewGlobalEnv() returns (env: Env)
    ensures fresh(env) && env.Valid()
    ensures env.Model() == InitialBindings()
  {
    env := new Env();
    var r := env.SetConst("PI", Number(P.F64(PI_BITS)));
    assert r.Ok?;
    r := env.SetConst("E", Number(P.F64(E_BITS)));
    assert r.Ok?;
    r := env.SetConst("TRUE", Bool(true));
    assert r.Ok?;
    r := env.SetConst("FALSE", Bool(false));
    assert r.Ok?;
  }

  /** What `const_eval` (`isConst`) or `var_eval` reports, and the
      environment afterwards. */
  function Define(b: Bindings, tokens: seq<P.Entry>, isConst: bool, fo: FloatOps, pf: P.F64Parser): (Result<string, Failure>, Bindings) {
    if tokens == [] then
      (Err(Error(if isConst then "Usage: :const <name> <expression>" else "Usage: :var <name> <expression>")), b)
    else if tokens[0].0 != L.Id then
      (Err(Error(if isConst then "Constant name must be an identifier" else "Variable name must be an identifier")), b)
    else
      var name := tokens[0].1;
      match P.ExprAt(tokens[1..], 0, 0, pf)
      case Failed(m, _) => (Err(Error(m)), b)
      case Parsed(e, _) =>
        match Eval(e, b, fo)
        case Err(f) => (Err(f), b)
        case Ok(v) =>
          match (if isConst then BindConst(b, name, v) else BindVar(b, name, v))
          case Err(m) => (Err(Error(m)), b)
          case Ok(b') =>
            (Ok(if isConst then "Constant '" + name + "' defined" else "Variable '" + name + "' set"), b')
  }

  /** `const_eval` (`isConst`) and `var_eval`: the two are the same code
      apart from their messages and the binding call. */
  method DefineName(env: Env, tokens: seq<P.Entry>, isConst: bool, fo: FloatOps, pf: P.F64Parser)
    returns (r: Result<string, Failure>)
    requires env.Valid()
    modifies env
    ensures env.Valid()
    ensures (r, env.Model()) == Define(old(env.Model()), tokens, isConst, fo, pf)
  {
    if |tokens| == 0 {
      return Err(Error(if isConst then "Usage: :const <name> <expression>" else "Usage: :var <name> <expression>"));
    }
    if tokens[0].0 != L.Id {
      return Err(Error(if isConst then "Constant name must be an identifier" else "Variable name must be an identifier"));
    }
    var name := tokens[0].1;
    var parser := new P.Parser(tokens[1..], pf);
    var expr := parser.Parse();
    if expr.Err? {
      return Err(Error(expr.error));
    }
    var value := Eval(expr.value, env.Model(), fo);
    if value.Err? {
      return Err(value.error);
    }
    var bound;
    if isConst {
      bound := env.SetConst(name, value.value);
    } else {
      bound := env.SetVar(name, value.value);
    }
    if bound.Err? {
      return Err(Error(bound.error));
    }
    if isConst {
      return Ok("Constant '" + name + "' defined");
    }
    return Ok("Variable '" + name + "' set");
  }

  // ---------------------------------------------------------------------
  // Properties

  /** At start-up the constants are `PI`, `E`, `TRUE` and `FALSE`, with the
      values of the standard library, and there are no variables. */
  lemma InitialEnvironment()
    ensures InitialBindings().vars == map[] && InitialBindings().consts.Keys == {"PI", "E", "TRUE", "FALSE"}
    ensures Lookup(InitialBindings(), "PI") == Some(Number(P.F64(0x400921FB54442D18)))
    ensures Lookup(InitialBindings(), "TRUE") == Some(Bool(true))
    ensures Disjoint(InitialBindings())
  {
  }

  /** Every failure returns before the binding: the environment is left as
      it was. */
  lemma FailureLeavesEnvironment(b: Bindings, tokens: seq<P.Entry>, isConst: bool, fo: FloatOps, pf: P.F64Parser)
    ensures Define(b, tokens, isConst, fo, pf).0.Err? ==> Define(b, tokens, isConst, fo, pf).1 == b
  {
  }

  /** On success the first token is a name, the rest parses, and the name
      is bound to the value of that expression in the environment as it was
      before; nothing else changes. */
  lemma SuccessBindsOldValue(b: Bindings, tokens: seq<P.Entry>, isConst: bool, fo: FloatOps, pf: P.F64Parser)
    requires Define(b, tokens, isConst, fo, pf).0.Ok?
    ensures |tokens| > 0 && tokens[0].0 == L.Id
    ensures P.ExprAt(tokens[1..], 0, 0, pf).Parsed?
    ensures
      var v := Eval(P.ExprAt(tokens[1..], 0, 0, pf).e, b, fo);
      var b' := Define(b, tokens, isConst, fo, pf).1;
      v.Ok? && Lookup(b', tokens[0].1) == Some(v.value)
      && (forall n :: n != tokens[0].1 ==> Lookup(b', n) == Lookup(b, n))
    ensures Define(b, tokens, isConst, fo, pf).0
      == Ok(if isConst then "Constant '" + tokens[0].1 + "' defined" else "Variable '" + tokens[0].1 + "' set")
  {
  }

  /** A missing name, a name that is not an identifier, an expression that
      does not parse and one that does not evaluate are each reported with
      their own message, and the environment stays as it was. */
  lemma DefineEarlyErrors(b: Bindings, tokens: seq<P.Entry>, isConst: bool, fo: FloatOps, pf: P.F64Parser)
    ensures tokens == [] ==>
      Define(b, tokens, isConst, fo, pf)
      == (Err(Error(if isConst then "Usage: :const <name> <expression>" else "Usage: :var <name> <expression>")), b)
    ensures tokens != [] && tokens[0].0 != L.Id ==>
      Define(b, tokens, isConst, fo, pf)
      == (Err(Error(if isConst then "Constant name must be an identifier" else "Variable name must be an identifier")), b)
    ensures tokens != [] && tokens[0].0 == L.Id && P.ExprAt(tokens[1..], 0, 0, pf).Failed? ==>
      Define(b, tokens, isConst, fo, pf) == (Err(Error(P.ExprAt(tokens[1..], 0, 0, pf).msg)), b)
    ensures (tokens != [] && tokens[0].0 == L.Id && P.ExprAt(tokens[1..], 0, 0, pf).Parsed?
             && Eval(P.ExprAt(tokens[1..], 0, 0, pf).e, b, fo).Err?) ==>
      Define(b, tokens, isConst, fo, pf) == (Err(Eval(P.ExprAt(tokens[1..], 0, 0, pf).e, b, fo).error), b)
  {
  }

  /** `:const` on a name already bound, and `:var` on a constant, fail
      with the environment's message once the expression has evaluated. */
  lemma RebindingRefused(b: Bindings, tokens: seq<P.Entry>, isConst: bool, fo: FloatOps, pf: P.F64Parser)
    requires |tokens| > 0 && tokens[0].0 == L.Id
    requires P.ExprAt(tokens[1..], 0, 0, pf).Parsed? && Eval(P.ExprAt(tokens[1..], 0, 0, pf).e, b, fo).Ok?
    requires if isConst then Lookup(b, tokens[0].1).Some? else tokens[0].1 in b.consts
    ensures Define(b, tokens, isConst, fo, pf) ==
      (Err(Error(if isConst then "'" + tokens[0].1 + "' already defined"
                 else "'" + tokens[0].1 + "' is a constant, cannot reassign")), b)
  {
  }

  /** `:var x 1 + 2` on a fresh environment binds `x` to 3. */
  lemma VarExample(fo: FloatOps, pf: P.F64Parser)
    ensures
      var toks := [(L.Id, "x"), (L.CInt, "1"), (L.Plus, "+"), (L.CInt, "2")];
      var (r, b') := Define(InitialBindings(), toks, false, fo, pf);
      r == Ok("Variable 'x' set") && Lookup(b', "x") == Some(Integer(3))
  {
    var toks := [(L.Id, "x"), (L.CInt, "1"), (L.Plus, "+"), (L.CInt, "2")];
    var rest := toks[1..];
    assert rest == [(L.CInt, "1"), (L.Plus, "+"), (L.CInt, "2")];
    assert P.DecodeCInt("1") == Some(1) by {
      assert "1"[..0] == [];
    }
    assert P.DecodeCInt("2") == Some(2) by {
      assert "2"[..0] == [];
    }
    assert P.Primary(rest, 0, pf) == P.Parsed(P.Integer(1), 1);
    assert P.Primary(rest, 2, pf) == P.Parsed(P.Integer(2), 3);
    assert P.ExprAt(rest, 2, 2, pf) == P.Parsed(P.Integer(2), 3);
    var e := P.Binary(P.Integer(1), P.Add, P.Integer(2));
    assert P.Climb(rest, e, 3, 0, pf) == P.Parsed(e, 3);
    assert P.Climb(rest, P.Integer(1), 1, 0, pf) == P.Parsed(e, 3);
    assert P.ExprAt(rest, 0, 0, pf) == P.Parsed(e, 3);
    assert Eval(e, InitialBindings(), fo) == Ok(Integer(3));
    var b' := InitialBindings().(vars := map["x" := Integer(3)]);
    assert BindVar(InitialBindings(), "x", Integer(3)) == Ok(b');
    assert "Variable '" + "x" + "' set" == "Variable 'x' set";
    assert Define(InitialBindings(), toks, false, fo, pf) == (Ok("Variable 'x' set"), b');
  }

  /** `:var x x + 1` with no `x` yet: the expression is evaluated before
      the binding exists, so it is an undefined variable. */
  lemma SelfReferenceIsUndefined(fo: FloatOps, pf: P.F64Parser)
    ensures
      var toks := [(L.Id, "x"), (L.Id, "x"), (L.Plus, "+"), (L.CInt, "1")];
      Define(InitialBindings(), toks, false, fo, pf) == (Err(Error("Undefined variable: 'x'")), InitialBindings())
  {
    var toks := [(L.Id, "x"), (L.Id, "x"), (L.Plus, "+"), (L.CInt, "1")];
    var rest := toks[1..];
    assert rest == [(L.Id, "x"), (L.Plus, "+"), (L.CInt, "1")];
    assert P.DecodeCInt("1") == Some(1) by {
      assert "1"[..0] == [];
    }
    assert P.Primary(rest, 0, pf) == P.Parsed(P.Variable("x"), 1);
    assert P.Primary(rest, 2, pf) == P.Parsed(P.Integer(1), 3);
    assert P.ExprAt(rest, 2, 2, pf) == P.Parsed(P.Integer(1), 3);
    var e := P.Binary(P.Variable("x"), P.Add, P.Integer(1));
    assert P.Climb(rest, e, 3, 0, pf) == P.Parsed(e, 3);
    assert P.Climb(rest, P.Variable("x"), 1, 0, pf) == P.Parsed(e, 3);
    assert P.ExprAt(rest, 0, 0, pf) == P.Parsed(e, 3);
    assert Lookup(InitialBindings(), "x") == None;
    assert "Undefined variable: '" + "x" + "'" == "Undefined variable: 'x'";
    assert Eval(P.Variable("x"), InitialBindings(), fo) == Err(Error("Undefined variable: 'x'"));
    assert Eval(e, InitialBindings(), fo) == Err(Error("Undefined variable: 'x'"));
  }
}
