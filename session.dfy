/** The REPL's main loop (src/main.rs:32-93): each line of tokens names a
    function of `libraylib.so` followed by its arguments; the literal
    arguments are boxed, a call interface with return type `()` is
    prepared and the function is called. Reading lines and printing are
    left to the caller: a session is given its lines as token sequences and
    returns what became of each. */
module Session {
  import opened Wrappers
  import opened StdText
  import L = Lex
  import P = Parser
  import D = DynLoad
  import C = Cffi
  import ParserProps

  /** The shared object the loop calls into (src/main.rs:27). */
  const LIBRARY: string := "libraylib.so"

  const NOT_A_FUNCTION: string := "Error: Expected a function as the first lexeme"

  /** The tokens that stand for an argument value. */
  predicate Literal(t: L.Token) {
    t == L.CString || t == L.CInt || t == L.CFloat || t == L.CChar
  }

  /** The libffi type pushed for each token after the function name. */
  function TagOf(t: L.Token): C.FfiType {
    match t
    case CString => C.Pointer
    case CInt => C.SInt64
    case CFloat => C.Double
    case CChar => C.SInt8
    case _ => C.Void
  }

  /** The argument types of a line, one per token. */
  function Tags(toks: seq<P.Entry>): seq<C.FfiType>
    decreases |toks|
  {
    if toks == [] then [] else Tags(toks[..|toks| - 1]) + [TagOf(toks[|toks| - 1].0)]
  }

  /** `b as i8` for a byte: the same bits read as two's complement. */
  function AsI8(b: Byte): (r: int)
    ensures -128 <= r < 128 && (r - b) % 256 == 0
    ensures b < 128 <==> r == b
  {
    if b < 128 then b else b - 256
  }

  /** The `kind` of the `ParseIntError` of `str::parse::<i64>`: digits are
      read left to right and the first invalid digit or overflow decides. */
  function IntErrorKind(src: string): string {
    if src == [] then "Empty"
    else if (src[0] == '+' || src[0] == '-') && |src| == 1 then "InvalidDigit"
    else ScanKind(if src[0] == '+' || src[0] == '-' then src[1..] else src, 0, src[0] == '-')
  }

  /** The panic of unwrapping a `ParseIntError` of the given kind. */
  function IntPanic(kind: string): Failure {
    Panic("called `Result::unwrap()` on an `Err` value: ParseIntError { kind: " + kind + " }")
  }

  function ScanKind(ds: string, acc: nat, negative: bool): string
    decreases |ds|
  {
    if ds == [] then ""
    else
      match DigitValue(ds[0])
      case None => "InvalidDigit"
      case Some(d) =>
        if d >= 10 then "InvalidDigit"
        else if negative && -(acc * 10 + d) < I64_MIN then "NegOverflow"
        else if !negative && acc * 10 + d > I64_MAX then "PosOverflow"
        else ScanKind(ds[1..], acc * 10 + d, negative)
  }

  /** The argument a token is boxed as, or the panic its conversion raises;
      nothing for a token that is not a literal. Integers go through
      `parse::<i64>().unwrap()` (decimal only), floats through
      `parse::<f64>().unwrap()`, and a character is its first byte as an
      `i8`. */
  function ArgOf(e: P.Entry, pf: P.F64Parser): (r: Option<Result<C.Arg, Failure>>)
    ensures r.Some? <==> Literal(e.0)
  {
    match e.0
    case CString => Some(Ok(C.StringArg(e.1)))
    case CInt => Some(ParseI64(e.1))
    case CFloat => Some(ParseF64(e.1, pf))
    case CChar =>
      if e.1 == "" then Some(Err(Panic("index out of bounds: the len is 0 but the index is 0")))
      else Some(Ok(C.I8Arg(AsI8(Utf8(e.1)[0]))))
    case _ => None
  }

  /** `text.parse::<i64>().unwrap()`, boxed as an `i64`. */
  function ParseI64(text: string): Result<C.Arg, Failure> {
    match FromStrRadix(text, 10)
    case None => Err(IntPanic(IntErrorKind(text)))
    case Some(v) => Ok(C.I64Arg(v))
  }

  /** `text.parse::<f64>().unwrap()`, boxed as an `f64`. */
  function ParseF64(text: string, pf: P.F64Parser): Result<C.Arg, Failure> {
    match pf(text)
    case None => Err(Panic("called `Result::unwrap()` on an `Err` value: ParseFloatError { kind: "
                           + (if text == "" then "Empty" else "Invalid") + " }"))
    case Some(f) => Ok(C.F64Arg(f))
  }

  /** The boxes pushed for one token when `base` boxes exist already, and
      the pointer passed for it (src/main.rs:63-90); nothing for a token
      that is not a literal. */
  function BoxStep(e: P.Entry, pf: P.F64Parser, base: nat): Option<Result<(seq<C.Cell>, C.Ptr), Failure>> {
    match e.0
    case CString => Some(C.MarshalText(e.1, base))
    case CInt => Some(BoxNumber(ParseI64(e.1), base))
    case CFloat => Some(BoxNumber(ParseF64(e.1, pf), base))
    case CChar =>
      if e.1 == "" then Some(Err(Panic("index out of bounds: the len is 0 but the index is 0")))
      else Some(Ok(([C.I8Cell(AsI8(Utf8(e.1)[0]))], C.Addr(base))))
    case _ => None
  }

  /** One box holding a parsed number. */
  function BoxNumber(parsed: Result<C.Arg, Failure>, base: nat): Result<(seq<C.Cell>, C.Ptr), Failure> {
    match parsed
    case Err(f) => Err(f)
    case Ok(I64Arg(v)) => Ok(([C.I64Cell(v)], C.Addr(base)))
    case Ok(F64Arg(f)) => Ok(([C.F64Cell(f)], C.Addr(base)))
    case Ok(_) => Ok(([], C.Addr(base)))
  }

  /** The loop boxes each literal exactly as `into_ffi` boxes its argument:
      a `CString` token as a `String`, a number as an `i64` or `f64`, a
      character as an `i8`. */
  lemma BoxStepIsIntoFfi(e: P.Entry, pf: P.F64Parser, base: nat)
    ensures ArgOf(e, pf).None? ==> BoxStep(e, pf, base).None?
    ensures ArgOf(e, pf).Some? && ArgOf(e, pf).value.Err? ==> BoxStep(e, pf, base) == Some(Err(ArgOf(e, pf).value.error))
    ensures ArgOf(e, pf).Some? && ArgOf(e, pf).value.Ok? ==> BoxStep(e, pf, base) == Some(C.Marshal(ArgOf(e, pf).value.value, base))
  {
  }

  /** The boxes and argument pointers of a line's trailing tokens, built in
      order; the first conversion that panics ends it. */
  function MarshalLine(toks: seq<P.Entry>, pf: P.F64Parser): Result<(seq<C.Cell>, seq<C.Ptr>), Failure>
    decreases |toks|
  {
    if toks == [] then Ok(([], [])) else Extend(MarshalLine(toks[..|toks| - 1], pf), toks[|toks| - 1], pf)
  }

  /** Boxing one more token after the boxes and pointers so far. */
  function Extend(acc: Result<(seq<C.Cell>, seq<C.Ptr>), Failure>, e: P.Entry, pf: P.F64Parser): Result<(seq<C.Cell>, seq<C.Ptr>), Failure> {
    match acc
    case Err(f) => Err(f)
    case Ok((cells, ptrs)) =>
      match BoxStep(e, pf, |cells|)
      case None => Ok((cells, ptrs))
      case Some(Err(f)) => Err(f)
      case Some(Ok((more, p))) => Ok((cells + more, ptrs + [p]))
  }

  /** What became of one line. */
  datatype LineOutcome =
    | Skipped
    | NotAFunction(msg: string)
    | SymbolError(msg: string)
    | PrepFailed(msg: string)
    | Panicked(failure: Failure)
    | Called(inv: C.Invocation, boxes: seq<C.Cell>)

  /** One pass of the loop's body on a line of tokens. */
  function LineSpec(tokens: seq<P.Entry>, lib: D.Lib, pf: P.F64Parser, prep: C.Prep): LineOutcome {
    if tokens == [] then Skipped
    else if tokens[0].0 != L.Id then NotAFunction(NOT_A_FUNCTION)
    else
      match D.LookupSym(lib, tokens[0].1)
      case Err(e) => SymbolError(e)
      case Ok(f) => CallSpec(f, tokens[1..], pf, prep)
  }

  /** The arguments boxed, the interface prepared and the call made. */
  function CallSpec(f: D.Sym, rest: seq<P.Entry>, pf: P.F64Parser, prep: C.Prep): LineOutcome {
    match MarshalLine(rest, pf)
    case Err(fail) => Panicked(fail)
    case Ok(boxed) => PrepareSpec(f, Tags(rest), boxed.0, boxed.1, prep)
  }

  function PrepareSpec(f: D.Sym, argTypes: seq<C.FfiType>, cells: seq<C.Cell>, ptrs: seq<C.Ptr>, prep: C.Prep): LineOutcome {
    var status := prep(C.FFI_DEFAULT_ABI, |argTypes| % 0x1_0000_0000, C.Void, argTypes);
    if status != C.FFI_OK then
      PrepFailed("Error Preparing the CallInterface: C::ffi_prep_cif returned " + DecimalText(status))
    else
      Called(C.Invocation(|argTypes| % 0x1_0000_0000, argTypes, C.Void, f, C.NoResult, ptrs), cells)
  }

  /** The loop's body (src/main.rs:33-93) on one line. */
  method ProcessLine(tokens: seq<P.Entry>, lib: D.Lib, pf: P.F64Parser, prep: C.Prep) returns (outcome: LineOutcome)
    ensures outcome == LineSpec(tokens, lib, pf, prep)
  {
    if |tokens| == 0 {
      return Skipped;
    }
    if tokens[0].0 != L.Id {
      return NotAFunction(NOT_A_FUNCTION);
    }
    var calledFn := D.LookupSym(lib, tokens[0].1);
    if calledFn.Err? {
      return SymbolError(calledFn.error);
    }
    outcome := CallLine(calledFn.value, tokens[1..], pf, prep);
  }

  /** The rest of the body once the symbol is found (src/main.rs:52-93). */
  method CallLine(f: D.Sym, rest: seq<P.Entry>, pf: P.F64Parser, prep: C.Prep) returns (outcome: LineOutcome)
    ensures outcome == CallSpec(f, rest, pf, prep)
  {
    var argTypes, boxed := BoxArguments(rest, pf);
    if boxed.Err? {
      return Panicked(boxed.error);
    }
    outcome := Prepare(f, argTypes, boxed.value.0, boxed.value.1, prep);
  }

  /** `CallInterface::<()>::new(cif_arg_types)?` and the call
      (src/main.rs:92-93). */
  method Prepare(f: D.Sym, argTypes: seq<C.FfiType>, cells: seq<C.Cell>, ptrs: seq<C.Ptr>, prep: C.Prep)
    returns (outcome: LineOutcome)
    ensures outcome == PrepareSpec(f, argTypes, cells, ptrs, prep)
  {
    assert C.FfiTypeOf(C.Unit) == C.Void;
    var cif := C.NewCallInterface(C.Unit, argTypes, prep);
    if cif.Err? {
      return PrepFailed(cif.error);
    }
    var inv := cif.value.Call(f, ptrs);
    assert inv == C.Invocation(|argTypes| % 0x1_0000_0000, argTypes, C.Void, f, C.NoResult, ptrs);
    return Called(inv, cells);
  }

  /** The loop over the tokens after the name (src/main.rs:55-91): a type
      pushed for each, and the boxes and pointer of each literal. */
  method BoxArguments(rest: seq<P.Entry>, pf: P.F64Parser)
    returns (argTypes: seq<C.FfiType>, r: Result<(seq<C.Cell>, seq<C.Ptr>), Failure>)
    ensures r == MarshalLine(rest, pf)
    ensures r.Ok? ==> argTypes == Tags(rest)
  {
    argTypes := [];
    var args: seq<C.Ptr> := [];
    var boxes := new C.ArgBoxes();
    var i := 0;
    while i < |rest|
      invariant 0 <= i <= |rest|
      invariant argTypes == Tags(rest[..i])
      invariant MarshalLine(rest[..i], pf) == Ok((boxes.cells, args))
      decreases |rest| - i
    {
      assert rest[..i + 1][..i] == rest[..i] && rest[..i + 1][i] == rest[i];
      assert MarshalLine(rest[..i + 1], pf) == Extend(Ok((boxes.cells, args)), rest[i], pf);
      argTypes := argTypes + [TagOf(rest[i].0)];
      ghost var before := boxes.cells;
      var boxed := BoxToken(boxes, rest[i], pf);
      ExtendByStep(before, args, rest[i], pf);
      if boxed.Some? {
        if boxed.value.Err? {
          MarshalLineFailureStays(rest, i + 1, pf);
          return argTypes, Err(boxed.value.error);
        }
        args := args + [boxed.value.value];
      }
      i := i + 1;
    }
    assert rest[..|rest|] == rest;
    return argTypes, Ok((boxes.cells, args));
  }

  /** The pointer of a boxing step, or its panic. */
  function PointerOf(step: Option<Result<(seq<C.Cell>, C.Ptr), Failure>>): Option<Result<C.Ptr, Failure>> {
    match step
    case None => None
    case Some(Err(f)) => Some(Err(f))
    case Some(Ok((_, p))) => Some(Ok(p))
  }

  /** The boxes a boxing step pushes; none when it panics. */
  function BoxesOf(step: Option<Result<(seq<C.Cell>, C.Ptr), Failure>>): seq<C.Cell> {
    if step.Some? && step.value.Ok? then step.value.value.0 else []
  }

  /** Extending boxes and pointers by one token, in terms of the step's
      pointer and boxes. */
  lemma ExtendByStep(cells: seq<C.Cell>, ptrs: seq<C.Ptr>, e: P.Entry, pf: P.F64Parser)
    ensures
      var step := BoxStep(e, pf, |cells|);
      Extend(Ok((cells, ptrs)), e, pf)
      == match PointerOf(step)
         case None => Ok((cells + BoxesOf(step), ptrs))
         case Some(Err(f)) => Err(f)
         case Some(Ok(p)) => Ok((cells + BoxesOf(step), ptrs + [p]))
  {
    assert cells + [] == cells;
  }

  /** The boxing of one argument token (src/main.rs:63-90): its boxes are
      pushed and the pointer to pass is returned. */
  method BoxToken(boxes: C.ArgBoxes, token: P.Entry, pf: P.F64Parser) returns (r: Option<Result<C.Ptr, Failure>>)
    modifies boxes
    ensures r == PointerOf(BoxStep(token, pf, old(|boxes.cells|)))
    ensures boxes.cells == old(boxes.cells) + BoxesOf(BoxStep(token, pf, old(|boxes.cells|)))
  {
    match token.0 {
      case CString =>
        var p := BoxText(boxes, token, pf);
        return Some(p);
      case CInt =>
        var p := BoxInt(boxes, token, pf);
        return Some(p);
      case CFloat =>
        var p := BoxFloat(boxes, token, pf);
        return Some(p);
      case CChar =>
        var p := BoxChar(boxes, token, pf);
        return Some(p);
      case _ =>
        return None;
    }
  }

  /** A `CString` token: its NUL-terminated bytes in one box and their
      address in a second one, whose address is passed. */
  method BoxText(boxes: C.ArgBoxes, token: P.Entry, pf: P.F64Parser) returns (r: Result<C.Ptr, Failure>)
    requires token.0 == L.CString
    modifies boxes
    ensures Some(r) == PointerOf(BoxStep(token, pf, old(|boxes.cells|)))
    ensures boxes.cells == old(boxes.cells) + BoxesOf(BoxStep(token, pf, old(|boxes.cells|)))
  {
    r := boxes.PushText(token.1);
  }

  /** A `CInt` token: `parse::<i64>().unwrap()` and one box. */
  method BoxInt(boxes: C.ArgBoxes, token: P.Entry, pf: P.F64Parser) returns (r: Result<C.Ptr, Failure>)
    requires token.0 == L.CInt
    modifies boxes
    ensures Some(r) == PointerOf(BoxStep(token, pf, old(|boxes.cells|)))
    ensures boxes.cells == old(boxes.cells) + BoxesOf(BoxStep(token, pf, old(|boxes.cells|)))
  {
    var val := FromStrRadix(token.1, 10);
    if val.None? {
      return Err(IntPanic(IntErrorKind(token.1)));
    }
    var p := boxes.Push(C.I64Cell(val.value));
    return Ok(p);
  }

  /** A `CFloat` token: `parse::<f64>().unwrap()` and one box. */
  method BoxFloat(boxes: C.ArgBoxes, token: P.Entry, pf: P.F64Parser) returns (r: Result<C.Ptr, Failure>)
    requires token.0 == L.CFloat
    modifies boxes
    ensures Some(r) == PointerOf(BoxStep(token, pf, old(|boxes.cells|)))
    ensures boxes.cells == old(boxes.cells) + BoxesOf(BoxStep(token, pf, old(|boxes.cells|)))
  {
    var text := token.1;
    var val := pf(text);
    if val.None? {
      return Err(Panic("called `Result::unwrap()` on an `Err` value: ParseFloatError { kind: "
                       + (if text == "" then "Empty" else "Invalid") + " }"));
    }
    var p := boxes.Push(C.F64Cell(val.value));
    return Ok(p);
  }

  /** A `CChar` token: its first UTF-8 byte, as an `i8`, in one box; an
      empty text has no first byte. */
  method BoxChar(boxes: C.ArgBoxes, token: P.Entry, pf: P.F64Parser) returns (r: Result<C.Ptr, Failure>)
    requires token.0 == L.CChar
    modifies boxes
    ensures Some(r) == PointerOf(BoxStep(token, pf, old(|boxes.cells|)))
    ensures boxes.cells == old(boxes.cells) + BoxesOf(BoxStep(token, pf, old(|boxes.cells|)))
  {
    var text := token.1;
    if |text| == 0 {
      return Err(Panic("index out of bounds: the len is 0 but the index is 0"));
    }
    var p := boxes.Push(C.I8Cell(AsI8(Utf8(text)[0])));
    return Ok(p);
  }

  /** A panic while boxing a prefix of the tokens is the line's panic. */
  lemma {:induction false} MarshalLineFailureStays(toks: seq<P.Entry>, n: nat, pf: P.F64Parser)
    requires n <= |toks| && MarshalLine(toks[..n], pf).Err?
    ensures MarshalLine(toks, pf) == MarshalLine(toks[..n], pf)
    decreases |toks| - n
  {
    if n < |toks| {
      assert toks[..n + 1][..n] == toks[..n];
      MarshalLineFailureStays(toks, n + 1, pf);
    } else {
      assert toks[..n] == toks;
    }
  }

  /** Lines that end the program: the `?` on `CallInterface::new` returns
      the error from `main`, and a panic ends the process. */
  predicate Ends(o: LineOutcome) {
    o.PrepFailed? || o.Panicked?
  }

  function ExitOf(o: LineOutcome): Result<(), Failure>
    requires Ends(o)
  {
    if o.PrepFailed? then Err(Error(o.msg)) else Err(o.failure)
  }

  /** What each line would become if the loop reached it. */
  function Outcomes(lines: seq<seq<P.Entry>>, lib: D.Lib, pf: P.F64Parser, prep: C.Prep): (os: seq<LineOutcome>)
    ensures |os| == |lines|
  {
    seq(|lines|, k requires 0 <= k < |lines| => LineSpec(lines[k], lib, pf, prep))
  }

  /** The loop over a sequence of line outcomes: it goes on while no line
      ends the program, and stops at the first that does, with its exit. */
  function Stop(os: seq<LineOutcome>): (seq<LineOutcome>, Result<(), Failure>)
    decreases |os|
  {
    if os == [] then ([], Ok(()))
    else if Ends(os[0]) then ([os[0]], ExitOf(os[0]))
    else
      var (more, exit) := Stop(os[1..]);
      ([os[0]] + more, exit)
  }

  /** A run over outcomes `os`: a prefix of them, none but the last ending
      the program; the exit is the last one's when it ends the program, and
      otherwise every outcome is there and the exit is normal. */
  predicate Stops(os: seq<LineOutcome>, outcomes: seq<LineOutcome>, exit: Result<(), Failure>) {
    |outcomes| <= |os| && outcomes == os[..|outcomes|]
    && (forall i :: 0 <= i < |outcomes| - 1 ==> !Ends(outcomes[i]))
    && (if |outcomes| > 0 && Ends(outcomes[|outcomes| - 1]) then exit == ExitOf(outcomes[|outcomes| - 1])
        else exit == Ok(()) && |outcomes| == |os|)
  }

  /** `main`: open the library (a failure is the `unwrap`'s panic), then
      the loop over the lines (src/main.rs:27, 32-95). */
  method Repl(dlopen: D.Opener, lines: seq<seq<P.Entry>>, pf: P.F64Parser, prep: C.Prep)
    returns (outcomes: seq<LineOutcome>, exit: Result<(), Failure>)
    ensures D.Open(LIBRARY, dlopen).Err? ==>
      outcomes == [] && exit == Err(Panic("called `Result::unwrap()` on an `Err` value: " + D.Open(LIBRARY, dlopen).error.msg))
    ensures D.Open(LIBRARY, dlopen).Ok? ==> (outcomes, exit) == Stop(Outcomes(lines, D.Open(LIBRARY, dlopen).value, pf, prep))
  {
    var lib := D.Open(LIBRARY, dlopen);
    if lib.Err? {
      return [], Err(Panic("called `Result::unwrap()` on an `Err` value: " + lib.error.msg));
    }
    outcomes, exit := RunLines(lines, lib.value, pf, prep);
  }

  /** The loop over the lines once the library is open. */
  method RunLines(lines: seq<seq<P.Entry>>, lib: D.Lib, pf: P.F64Parser, prep: C.Prep)
    returns (outcomes: seq<LineOutcome>, exit: Result<(), Failure>)
    ensures (outcomes, exit) == Stop(Outcomes(lines, lib, pf, prep))
  {
    ghost var all := Outcomes(lines, lib, pf, prep);
    ghost var run := Stop(all);
    outcomes := [];
    var i := 0;
    StopFrom(all);
    while i < |lines|
      invariant 0 <= i <= |lines|
      invariant run == (outcomes + Stop(all[i..]).0, Stop(all[i..]).1)
      decreases |lines| - i
    {
      var o := NextOutcome(lines, i, lib, pf, prep);
      StopAdvance(all, i, outcomes, run);
      if Ends(o) {
        return outcomes + [o], ExitOf(o);
      }
      outcomes := outcomes + [o];
      i := i + 1;
    }
    StopDone(all, outcomes, run);
    return outcomes, Ok(());
  }

  /** Line `i` processed, as one of the outcomes the loop goes through. */
  method NextOutcome(lines: seq<seq<P.Entry>>, i: nat, lib: D.Lib, pf: P.F64Parser, prep: C.Prep) returns (o: LineOutcome)
    requires i < |lines|
    ensures o == Outcomes(lines, lib, pf, prep)[i]
  {
    o := ProcessLine(lines[i], lib, pf, prep);
  }

  /** Before the loop: nothing handled yet, and the whole run ahead. */
  lemma StopFrom(os: seq<LineOutcome>)
    ensures Stop(os) == ([] + Stop(os[0..]).0, Stop(os[0..]).1)
  {
    assert os[0..] == os;
    assert [] + Stop(os).0 == Stop(os).0;
  }

  /** One pass of the loop, in terms of the run: the line at `i` either ends
      it or joins the lines handled so far. */
  lemma StopAdvance(os: seq<LineOutcome>, i: nat, done: seq<LineOutcome>, run: (seq<LineOutcome>, Result<(), Failure>))
    requires i < |os| && run == (done + Stop(os[i..]).0, Stop(os[i..]).1)
    ensures Ends(os[i]) ==> run == (done + [os[i]], ExitOf(os[i]))
    ensures !Ends(os[i]) ==> run == ((done + [os[i]]) + Stop(os[i + 1..]).0, Stop(os[i + 1..]).1)
  {
    assert os[i..][0] == os[i];
    assert os[i..][1..] == os[i + 1..];
    if !Ends(os[i]) {
      assert done + ([os[i]] + Stop(os[i + 1..]).0) == (done + [os[i]]) + Stop(os[i + 1..]).0;
    }
  }

  /** After the loop: every line was handled and none ended the run. */
  lemma StopDone(os: seq<LineOutcome>, done: seq<LineOutcome>, run: (seq<LineOutcome>, Result<(), Failure>))
    requires run == (done + Stop(os[|os|..]).0, Stop(os[|os|..]).1)
    ensures run == (done, Ok(()))
  {
    assert os[|os|..] == [];
    assert done + [] == done;
  }

  // ---------------------------------------------------------------------
  // Properties

  /** The loop's run is the run described by `Stops`. */
  lemma {:induction false} StopDescribed(os: seq<LineOutcome>)
    ensures Stops(os, Stop(os).0, Stop(os).1)
    decreases |os|
  {
    if os != [] && !Ends(os[0]) {
      StopDescribed(os[1..]);
      var (more, exit) := Stop(os[1..]);
      var outcomes := [os[0]] + more;
      assert forall i :: 1 <= i < |outcomes| ==> outcomes[i] == more[i - 1];
      assert outcomes == os[..|outcomes|];
    }
  }

  /** A run is determined by the outcomes: `Stops` admits one sequence of
      outcomes and one exit. */
  lemma RunIsDetermined(os: seq<LineOutcome>, o1: seq<LineOutcome>, e1: Result<(), Failure>, o2: seq<LineOutcome>, e2: Result<(), Failure>)
    requires Stops(os, o1, e1) && Stops(os, o2, e2)
    ensures o1 == o2 && e1 == e2
  {
  }

  /** One argument type per trailing token, in order. */
  lemma {:induction false} TagsOnePerToken(toks: seq<P.Entry>)
    ensures |Tags(toks)| == |toks|
    ensures forall i :: 0 <= i < |toks| ==> Tags(toks)[i] == TagOf(toks[i].0)
    decreases |toks|
  {
    if toks != [] {
      TagsOnePerToken(toks[..|toks| - 1]);
    }
  }

  /** Every literal token converts without a panic. */
  predicate Converts(toks: seq<P.Entry>, pf: P.F64Parser) {
    forall i :: 0 <= i < |toks| && ArgOf(toks[i], pf).Some? ==> ArgOf(toks[i], pf).value.Ok?
  }

  /** The arguments of the literal tokens, in order. */
  function ArgsOf(toks: seq<P.Entry>, pf: P.F64Parser): seq<C.Arg>
    requires Converts(toks, pf)
    decreases |toks|
  {
    if toks == [] then []
    else
      var init := ArgsOf(toks[..|toks| - 1], pf);
      match ArgOf(toks[|toks| - 1], pf)
      case None => init
      case Some(a) => init + [a.value]
  }

  /** The number of literal tokens. */
  function LiteralCount(toks: seq<P.Entry>): nat
    decreases |toks|
  {
    if toks == [] then 0
    else LiteralCount(toks[..|toks| - 1]) + (if Literal(toks[|toks| - 1].0) then 1 else 0)
  }

  /** Boxing a line succeeds only when every literal converts. */
  lemma {:induction false} MarshalLineConverts(toks: seq<P.Entry>, pf: P.F64Parser)
    ensures MarshalLine(toks, pf).Ok? ==> Converts(toks, pf)
    decreases |toks|
  {
    if toks != [] && MarshalLine(toks, pf).Ok? {
      var init, last := toks[..|toks| - 1], toks[|toks| - 1];
      ExtendOk(MarshalLine(init, pf), last, pf);
      MarshalLineConverts(init, pf);
      ConvertsSnoc(toks, pf);
    }
  }

  /** A line stays boxed after one more token only if it was boxed before
      and that token, when a literal, converts. */
  lemma ExtendOk(acc: Result<(seq<C.Cell>, seq<C.Ptr>), Failure>, e: P.Entry, pf: P.F64Parser)
    requires Extend(acc, e, pf).Ok?
    ensures acc.Ok?
    ensures ArgOf(e, pf).Some? ==> ArgOf(e, pf).value.Ok?
  {
    BoxStepIsIntoFfi(e, pf, |acc.value.0|);
  }

  lemma ConvertsSnoc(toks: seq<P.Entry>, pf: P.F64Parser)
    requires toks != [] && Converts(toks[..|toks| - 1], pf)
    requires ArgOf(toks[|toks| - 1], pf).Some? ==> ArgOf(toks[|toks| - 1], pf).value.Ok?
    ensures Converts(toks, pf)
  {
    var init := toks[..|toks| - 1];
    forall i | 0 <= i < |toks| && ArgOf(toks[i], pf).Some?
      ensures ArgOf(toks[i], pf).value.Ok?
    {
      if i < |init| {
        assert toks[i] == init[i];
      }
    }
  }

  /** One more token extends the boxing of the arguments so far as
      `call_args` would box one more argument, or not at all for a token
      that is not a literal. */
  lemma ExtendAgrees(args: seq<C.Arg>, e: P.Entry, pf: P.F64Parser)
    requires ArgOf(e, pf).Some? ==> ArgOf(e, pf).value.Ok?
    ensures ArgOf(e, pf).None? ==> Extend(C.MarshalAll(args), e, pf) == C.MarshalAll(args)
    ensures ArgOf(e, pf).Some? ==> Extend(C.MarshalAll(args), e, pf) == C.MarshalAll(args + [ArgOf(e, pf).value.value])
  {
    if ArgOf(e, pf).Some? {
      assert (args + [ArgOf(e, pf).value.value])[..|args|] == args;
    }
    if C.MarshalAll(args).Ok? {
      BoxStepIsIntoFfi(e, pf, |C.MarshalAll(args).value.0|);
    }
  }

  /** When every literal converts, the line is boxed as `call_args` boxes
      the literals' arguments: one pointer per literal token, not per
      token. */
  lemma {:induction false} LineMarshalsLikeCallArgs(toks: seq<P.Entry>, pf: P.F64Parser)
    requires Converts(toks, pf)
    ensures MarshalLine(toks, pf) == C.MarshalAll(ArgsOf(toks, pf))
    ensures |ArgsOf(toks, pf)| == LiteralCount(toks)
    decreases |toks|
  {
    if toks != [] {
      var init, last := toks[..|toks| - 1], toks[|toks| - 1];
      assert Converts(init, pf) by {
        forall i | 0 <= i < |init| ensures toks[i] == init[i] { }
      }
      LineMarshalsLikeCallArgs(init, pf);
      ExtendAgrees(ArgsOf(init, pf), last, pf);
    }
  }

  /** There are fewer literal tokens than tokens exactly when one of them
      is not a literal. */
  lemma {:induction false} LiteralCountBound(toks: seq<P.Entry>)
    ensures LiteralCount(toks) <= |toks|
    ensures LiteralCount(toks) < |toks| <==> exists j :: 0 <= j < |toks| && !Literal(toks[j].0)
    decreases |toks|
  {
    if toks != [] {
      var init := toks[..|toks| - 1];
      LiteralCountBound(init);
      assert forall j :: 0 <= j < |init| ==> toks[j] == init[j];
      if exists j :: 0 <= j < |toks| && !Literal(toks[j].0) {
        var j :| 0 <= j < |toks| && !Literal(toks[j].0);
        if j < |init| {
          assert !Literal(init[j].0);
        }
      }
    }
  }

  /** A line that is called calls the function it names, through a
      `void`-returning interface with one type per trailing token and one
      pointer per literal token, each pointer reading back, from the boxes
      still alive, as its literal's argument. */
  lemma CalledLine(tokens: seq<P.Entry>, lib: D.Lib, pf: P.F64Parser, prep: C.Prep)
    requires LineSpec(tokens, lib, pf, prep).Called?
    ensures
      var o := LineSpec(tokens, lib, pf, prep);
      var rest := tokens[1..];
      tokens[0].0 == L.Id && o.inv.fn == D.Sym(lib, tokens[0].1)
      && o.inv.retType == C.Void && o.inv.rvalue == C.NoResult
      && |o.inv.argTypes| == |rest| && (forall i :: 0 <= i < |rest| ==> o.inv.argTypes[i] == TagOf(rest[i].0))
      && Converts(rest, pf) && |o.inv.args| == LiteralCount(rest) && |ArgsOf(rest, pf)| == |o.inv.args|
      && (forall i :: 0 <= i < |o.inv.args| ==> C.Deref(o.boxes, o.inv.args[i]) == Some(C.ViewOf(ArgsOf(rest, pf)[i])))
  {
    var rest := tokens[1..];
    TagsOnePerToken(rest);
    MarshalLineConverts(rest, pf);
    LineMarshalsLikeCallArgs(rest, pf);
    C.MarshalAllReadsBack(ArgsOf(rest, pf));
  }

  /** An operator or name among the arguments gets a `Void` type but no
      pointer: the call interface then describes more arguments than are
      passed. */
  lemma OperatorArgumentMisaligns(tokens: seq<P.Entry>, lib: D.Lib, pf: P.F64Parser, prep: C.Prep, j: nat)
    requires LineSpec(tokens, lib, pf, prep).Called?
    requires 0 < j < |tokens| && !Literal(tokens[j].0)
    ensures |LineSpec(tokens, lib, pf, prep).inv.argTypes| == |tokens| - 1
    ensures LineSpec(tokens, lib, pf, prep).inv.argTypes[j - 1] == C.Void
    ensures |LineSpec(tokens, lib, pf, prep).inv.args| < |LineSpec(tokens, lib, pf, prep).inv.argTypes|
  {
    var rest := tokens[1..];
    CalledLine(tokens, lib, pf, prep);
    assert !Literal(rest[j - 1].0);
    LiteralCountBound(rest);
  }

  /** A line with one literal argument whose conversion panics: the
      line ends in that panic. */
  lemma OneArgumentPanics(f: string, e: P.Entry, lib: D.Lib, pf: P.F64Parser, prep: C.Prep)
    requires D.Resolves(lib, f) && Literal(e.0)
    ensures BoxStep(e, pf, 0).Some?
    ensures BoxStep(e, pf, 0).value.Err? ==>
      LineSpec([(L.Id, f), e], lib, pf, prep) == Panicked(BoxStep(e, pf, 0).value.error)
  {
    OneArgumentUnfolds(f, e, lib, pf, prep);
  }

  /** A line with one literal argument that converts: once libffi accepts
      the one tag, the function is called with the pointer of that
      argument's boxes, and nothing is returned. */
  lemma OneArgumentCalled(f: string, e: P.Entry, lib: D.Lib, pf: P.F64Parser, prep: C.Prep)
    requires D.Resolves(lib, f) && Literal(e.0)
    requires prep(C.FFI_DEFAULT_ABI, 1, C.Void, [TagOf(e.0)]) == C.FFI_OK
    ensures BoxStep(e, pf, 0).Some?
    ensures BoxStep(e, pf, 0).value.Ok? ==>
      var (cells, p) := BoxStep(e, pf, 0).value.value;
      LineSpec([(L.Id, f), e], lib, pf, prep) == Called(C.Invocation(1, [TagOf(e.0)], C.Void, D.Sym(lib, f), C.NoResult, [p]), cells)
  {
    OneArgumentUnfolds(f, e, lib, pf, prep);
    var step := BoxStep(e, pf, 0);
    if step.value.Ok? {
      var (cells, p) := step.value.value;
      assert MarshalLine([e], pf) == Ok(([] + cells, [] + [p]));
      assert [] + cells == cells && [] + [p] == [p];
      assert CallSpec(D.Sym(lib, f), [e], pf, prep) == PrepareSpec(D.Sym(lib, f), [TagOf(e.0)], cells, [p], prep);
    }
  }

  /** A line of a name and one more token, one layer of the specification
      at a time. */
  lemma OneArgumentUnfolds(f: string, e: P.Entry, lib: D.Lib, pf: P.F64Parser, prep: C.Prep)
    requires D.Resolves(lib, f)
    ensures LineSpec([(L.Id, f), e], lib, pf, prep) == CallSpec(D.Sym(lib, f), [e], pf, prep)
    ensures MarshalLine([e], pf) == Extend(Ok(([], [])), e, pf)
    ensures Tags([e]) == [TagOf(e.0)]
  {
    assert [(L.Id, f), e][1..] == [e];
    assert [e][..0] == [];
  }

  /** A string argument is passed as the address of a slot holding the
      address of its NUL-terminated bytes, so the callee receives a
      `char **`: the slot is the second box, pointing at the first. */
  lemma StringArgumentIsDoublePointer(f: string, s: string, lib: D.Lib, pf: P.F64Parser, prep: C.Prep)
    requires D.Resolves(lib, f) && '\0' !in s
    requires prep(C.FFI_DEFAULT_ABI, 1, C.Void, [C.Pointer]) == C.FFI_OK
    ensures LineSpec([(L.Id, f), (L.CString, s)], lib, pf, prep)
            == Called(C.Invocation(1, [C.Pointer], C.Void, D.Sym(lib, f), C.NoResult, [C.Addr(1)]),
                      [C.CStrCell(Utf8(s) + [0]), C.PtrCell(C.Addr(0))])
  {
    assert CStringNew(s).value == Utf8(s) + [0];
    assert BoxStep((L.CString, s), pf, 0) == Some(Ok(([C.CStrCell(Utf8(s) + [0]), C.PtrCell(C.Addr(0))], C.Addr(1))));
    OneArgumentCalled(f, (L.CString, s), lib, pf, prep);
  }

  /** The parser reads `0x2A` as 42, but as an argument it goes through
      decimal `parse::<i64>` and the `unwrap` panics. */
  lemma HexArgumentPanics(f: string, lib: D.Lib, pf: P.F64Parser, prep: C.Prep)
    requires D.Resolves(lib, f)
    ensures P.DecodeCInt("0x2A") == Some(42)
    ensures LineSpec([(L.Id, f), (L.CInt, "0x2A")], lib, pf, prep)
            == Panicked(IntPanic("InvalidDigit"))
  {
    ParserProps.DecodePrefixedExamples();
    HexTextIsInvalidDigit();
    IntArgumentPanics(f, "0x2A", lib, pf, prep);
  }

  /** A line whose one argument is an integer that `parse::<i64>` rejects
      panics with that rejection. */
  lemma IntArgumentPanics(f: string, text: string, lib: D.Lib, pf: P.F64Parser, prep: C.Prep)
    requires D.Resolves(lib, f) && ParseI64(text).Err?
    ensures LineSpec([(L.Id, f), (L.CInt, text)], lib, pf, prep) == Panicked(ParseI64(text).error)
  {
    OneArgumentPanics(f, (L.CInt, text), lib, pf, prep);
  }

  /** `"0x2A".parse::<i64>()` fails at the `x`. */
  lemma HexTextIsInvalidDigit()
    ensures ParseI64("0x2A") == Err(IntPanic("InvalidDigit"))
  {
    HexHasInvalidDigit();
    HexIsNotDecimal();
  }

  /** The scan of `"0x2A"` stops at the `x`. */
  lemma HexHasInvalidDigit()
    ensures IntErrorKind("0x2A") == "InvalidDigit"
  {
    assert "0x2A"[1..] == "x2A";
    assert ScanKind("x2A", 0, false) == "InvalidDigit";
  }

  /** `"0x2A"` is not a decimal numeral. */
  lemma HexIsNotDecimal()
    ensures FromStrRadix("0x2A", 10) == None
  {
    assert "0x"[..1] == "0";
    assert DigitsValue("0x", 10) == None;
    assert "0x2"[..2] == "0x";
    assert "0x2A"[..3] == "0x2";
    assert DigitsValue("0x2A", 10) == None;
  }

  /** A character argument is its first UTF-8 byte as an `i8`: `'é'`
      (bytes C3 A9) is passed as -61. */
  lemma CharArgumentIsFirstByte(f: string, lib: D.Lib, pf: P.F64Parser, prep: C.Prep)
    requires D.Resolves(lib, f)
    requires prep(C.FFI_DEFAULT_ABI, 1, C.Void, [C.SInt8]) == C.FFI_OK
    ensures LineSpec([(L.Id, f), (L.CChar, "é")], lib, pf, prep)
            == Called(C.Invocation(1, [C.SInt8], C.Void, D.Sym(lib, f), C.NoResult, [C.Addr(0)]), [C.I8Cell(-61)])
  {
    assert Utf8("é")[0] == 0xC3;
    OneArgumentCalled(f, (L.CChar, "é"), lib, pf, prep);
  }

  /** Empty lines are skipped and a line not starting with a name is
      rejected, before any symbol lookup. */
  lemma RejectedBeforeLookup(tokens: seq<P.Entry>, lib: D.Lib, pf: P.F64Parser, prep: C.Prep)
    ensures tokens == [] <==> LineSpec(tokens, lib, pf, prep) == Skipped
    ensures tokens != [] && tokens[0].0 != L.Id <==> LineSpec(tokens, lib, pf, prep) == NotAFunction(NOT_A_FUNCTION)
    ensures tokens != [] && tokens[0].0 == L.Id && !D.Resolves(lib, tokens[0].1) <==> LineSpec(tokens, lib, pf, prep).SymbolError?
  {
  }
}
