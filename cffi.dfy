/** The libffi wrapper (src/cffi.rs): type tags, argument boxing and the
    call interface. Heap boxes become cells of an arena and raw pointers
    become cell indices; `ffi_prep_cif` is a status function supplied from
    outside, and `ffi_call` is represented by the invocation it is given. */
module Cffi {
  import opened Wrappers
  import opened StdText
  import P = Parser
  import D = DynLoad

  // ---------------------------------------------------------------------
  // Type tags

  datatype FfiType =
    | Void | SInt8 | SInt16 | SInt32 | SInt64 | UInt8 | UInt16 | UInt32 | UInt64 | Float | Double | Pointer

  /** The Rust types with a `From` conversion into `FfiType`. */
  datatype RustType = I8 | U8 | I32 | U32 | I64 | U64 | F32 | F64 | ConstPtr | MutPtr | Unit

  /** The `From` impls (src/cffi.rs:121-185). */
  function FfiTypeOf(t: RustType): FfiType {
    match t
    case I8 => SInt8
    case U8 => UInt8
    case I32 => SInt32
    case U32 => UInt32
    case I64 => SInt64
    case U64 => UInt64
    case F32 => Float
    case F64 => Double
    case ConstPtr => Pointer
    case MutPtr => Pointer
    case Unit => Void
  }

  datatype Kind = Signed | Unsigned | Floating | Address | Nothing

  /** Size in bytes and kind of a value on x86-64. */
  datatype Layout = Layout(bytes: nat, kind: Kind)

  function RustLayout(t: RustType): Layout {
    match t
    case I8 => Layout(1, Signed)
    case U8 => Layout(1, Unsigned)
    case I32 => Layout(4, Signed)
    case U32 => Layout(4, Unsigned)
    case I64 => Layout(8, Signed)
    case U64 => Layout(8, Unsigned)
    case F32 => Layout(4, Floating)
    case F64 => Layout(8, Floating)
    case ConstPtr => Layout(8, Address)
    case MutPtr => Layout(8, Address)
    case Unit => Layout(0, Nothing)
  }

  /** The C type each libffi tag describes. */
  function CLayout(t: FfiType): Layout {
    match t
    case Void => Layout(0, Nothing)
    case SInt8 => Layout(1, Signed)
    case SInt16 => Layout(2, Signed)
    case SInt32 => Layout(4, Signed)
    case SInt64 => Layout(8, Signed)
    case UInt8 => Layout(1, Unsigned)
    case UInt16 => Layout(2, Unsigned)
    case UInt32 => Layout(4, Unsigned)
    case UInt64 => Layout(8, Unsigned)
    case Float => Layout(4, Floating)
    case Double => Layout(8, Floating)
    case Pointer => Layout(8, Address)
  }

  /** Each Rust type is tagged with the one C type of the same size and
      kind. */
  lemma TagMatchesLayout(t: RustType, c: FfiType)
    ensures FfiTypeOf(t) == c <==> CLayout(c) == RustLayout(t)
  {
  }

  // ---------------------------------------------------------------------
  // Argument boxes

  /** A raw pointer: null, or the address of a box. */
  datatype Ptr = Null | Addr(index: nat)

  /** The content of one box: a number, a NUL-terminated byte buffer, or a
      pointer. */
  datatype Cell = I8Cell(v: int) | I64Cell(v: int) | F64Cell(f: P.Float) | CStrCell(bytes: seq<Byte>) | PtrCell(target: Ptr)

  /** The argument types with an `IntoFfiArg` impl; `Boxed` is `Box<T>`. */
  datatype Arg = I8Arg(v: int) | I64Arg(v: int) | F64Arg(f: P.Float) | StrArg(s: string) | StringArg(s: string) | BoxedArg(inner: Arg)

  /** The text of a string argument, if it is one. */
  function TextOf(a: Arg): Option<string> {
    match a
    case StrArg(s) => Some(s)
    case StringArg(s) => Some(s)
    case BoxedArg(inner) => TextOf(inner)
    case _ => None
  }

  /** The boxes `into_ffi` pushes when `base` boxes exist already, and the
      pointer it returns (src/cffi.rs:202-264). */
  function Marshal(a: Arg, base: nat): Result<(seq<Cell>, Ptr), Failure> {
    match a
    case I8Arg(v) => Ok(([I8Cell(v)], Addr(base)))
    case I64Arg(v) => Ok(([I64Cell(v)], Addr(base)))
    case F64Arg(f) => Ok(([F64Cell(f)], Addr(base)))
    case StrArg(s) => MarshalText(s, base)
    case StringArg(s) => MarshalText(s, base)
    case BoxedArg(inner) => Marshal(inner, base)
  }

  /** A string: its NUL-terminated copy, then a slot holding the copy's
      address; the pointer passed is the slot's. */
  function MarshalText(s: string, base: nat): Result<(seq<Cell>, Ptr), Failure> {
    match CStringNew(s)
    case Err(_) => Err(UnwrapNulError(s))
    case Ok(bytes) => Ok(([CStrCell(bytes), PtrCell(Addr(base))], Addr(base + 1)))
  }

  /** What the callee sees through an argument pointer. */
  datatype View = IntView(bits: nat, v: int) | FloatView(f: P.Float) | TextView(bytes: seq<Byte>)

  function ViewOf(a: Arg): View {
    match a
    case I8Arg(v) => IntView(8, v)
    case I64Arg(v) => IntView(64, v)
    case F64Arg(f) => FloatView(f)
    case StrArg(s) => TextView(Utf8(s))
    case StringArg(s) => TextView(Utf8(s))
    case BoxedArg(inner) => ViewOf(inner)
  }

  /** Reading an argument through its pointer: the number in the box, or
      for `char **` the bytes before the terminator of the buffer the slot
      points to. */
  function Deref(cells: seq<Cell>, p: Ptr): Option<View> {
    if p.Null? || p.index >= |cells| then None
    else
      match cells[p.index]
      case I8Cell(v) => Some(IntView(8, v))
      case I64Cell(v) => Some(IntView(64, v))
      case F64Cell(f) => Some(FloatView(f))
      case CStrCell(_) => None
      case PtrCell(t) =>
        if t.Null? || t.index >= |cells| then None
        else
          match cells[t.index]
          case CStrCell(bytes) =>
            if |bytes| > 0 && bytes[|bytes| - 1] == 0 then Some(TextView(bytes[..|bytes| - 1])) else None
          case _ => None
  }

  /** Marshalling an argument pushes one box for a number and two for a
      string, panics exactly on a string with a NUL in it, and the pointer
      it returns reads back as the argument. */
  lemma MarshalReadsBack(a: Arg, prefix: seq<Cell>)
    ensures Marshal(a, |prefix|).Err? <==> TextOf(a).Some? && '\0' in TextOf(a).value
    ensures Marshal(a, |prefix|).Ok? ==>
      var (cells, p) := Marshal(a, |prefix|).value;
      |cells| == (if TextOf(a).Some? then 2 else 1) && p == Addr(|prefix| + |cells| - 1)
      && Deref(prefix + cells, p) == Some(ViewOf(a))
  {
    match a
    case BoxedArg(inner) =>
      MarshalReadsBack(inner, prefix);
    case StrArg(s) =>
      TextReadsBack(s, prefix);
    case StringArg(s) =>
      TextReadsBack(s, prefix);
    case _ =>
      NumberReadsBack(a, prefix);
  }

  /** A number is one box, read back as itself. */
  lemma NumberReadsBack(a: Arg, prefix: seq<Cell>)
    requires a.I8Arg? || a.I64Arg? || a.F64Arg?
    ensures Marshal(a, |prefix|).Ok?
    ensures
      var (cells, p) := Marshal(a, |prefix|).value;
      |cells| == 1 && p == Addr(|prefix|) && Deref(prefix + cells, p) == Some(ViewOf(a))
  {
    var c := Marshal(a, |prefix|).value.0[0];
    assert (prefix + [c])[|prefix|] == c;
  }

  lemma TextReadsBack(s: string, prefix: seq<Cell>)
    ensures MarshalText(s, |prefix|).Err? <==> '\0' in s
    ensures MarshalText(s, |prefix|).Ok? ==>
      var (cells, p) := MarshalText(s, |prefix|).value;
      |cells| == 2 && p == Addr(|prefix| + 1) && Deref(prefix + cells, p) == Some(TextView(Utf8(s)))
  {
    if '\0' !in s {
      var bytes := Utf8(s) + [0];
      assert CStringNew(s) == Ok(bytes);
      SlotReadsBack(prefix, bytes);
      assert bytes[..|bytes| - 1] == Utf8(s);
    }
  }

  /** A slot pushed right after a NUL-terminated buffer reads back as the
      bytes before the terminator. */
  lemma SlotReadsBack(prefix: seq<Cell>, bytes: seq<Byte>)
    requires |bytes| > 0 && bytes[|bytes| - 1] == 0
    ensures Deref(prefix + [CStrCell(bytes), PtrCell(Addr(|prefix|))], Addr(|prefix| + 1))
            == Some(TextView(bytes[..|bytes| - 1]))
  {
    var all := prefix + [CStrCell(bytes), PtrCell(Addr(|prefix|))];
    assert all[|prefix| + 1] == PtrCell(Addr(|prefix|));
    assert all[|prefix|] == CStrCell(bytes);
  }

  /** Boxes pushed later do not change what an earlier pointer reads. */
  lemma DerefStable(cells: seq<Cell>, more: seq<Cell>, p: Ptr)
    requires Deref(cells, p).Some?
    ensures Deref(cells + more, p) == Deref(cells, p)
  {
    var all := cells + more;
    assert all[p.index] == cells[p.index];
    if cells[p.index].PtrCell? {
      var t := cells[p.index].target;
      assert all[t.index] == cells[t.index];
    }
  }

  /** The `boxes` vector that keeps argument values alive. */
  class ArgBoxes {
    var cells: seq<Cell>

    constructor()
      ensures cells == []
    {
      cells := [];
    }

    /** `Box::new` and `boxes.push`: the new box's address. */
    method Push(c: Cell) returns (p: Ptr)
      modifies this
      ensures cells == old(cells) + [c] && p == Addr(|old(cells)|)
    {
      cells := cells + [c];
      p := Addr(|cells| - 1);
    }

    /** `IntoFfiArg::into_ffi` */
    method IntoFfi(a: Arg) returns (r: Result<Ptr, Failure>)
      modifies this
      ensures r.Ok? <==> Marshal(a, old(|cells|)).Ok?
      ensures r.Ok? ==> cells == old(cells) + Marshal(a, old(|cells|)).value.0 && r.value == Marshal(a, old(|cells|)).value.1
      ensures r.Err? ==> r.error == Marshal(a, old(|cells|)).error
      decreases a
    {
      match a {
        case I8Arg(v) =>
          cells := cells + [I8Cell(v)];
          return Ok(Addr(|cells| - 1));
        case I64Arg(v) =>
          cells := cells + [I64Cell(v)];
          return Ok(Addr(|cells| - 1));
        case F64Arg(f) =>
          cells := cells + [F64Cell(f)];
          return Ok(Addr(|cells| - 1));
        case StrArg(s) =>
          r := PushText(s);
        case StringArg(s) =>
          r := PushText(s);
        case BoxedArg(inner) =>
          r := IntoFfi(inner);
      }
    }

    method PushText(s: string) returns (r: Result<Ptr, Failure>)
      modifies this
      ensures r.Ok? <==> MarshalText(s, old(|cells|)).Ok?
      ensures r.Ok? ==> cells == old(cells) + MarshalText(s, old(|cells|)).value.0 && r.value == MarshalText(s, old(|cells|)).value.1
      ensures r.Err? ==> r.error == MarshalText(s, old(|cells|)).error && cells == old(cells)
    {
      var cstr := CStringNew(s);
      if cstr.Err? {
        return Err(UnwrapNulError(s));
      }
      cells := cells + [CStrCell(cstr.value)];
      var slot := |cells| - 1;
      cells := cells + [PtrCell(Addr(slot))];
      return Ok(Addr(|cells| - 1));
    }
  }

  /** The boxes and pointers of a whole argument list, marshalled in order
      into an empty vector. */
  function MarshalAll(args: seq<Arg>): Result<(seq<Cell>, seq<Ptr>), Failure>
    decreases |args|
  {
    if args == [] then Ok(([], []))
    else
      match MarshalAll(args[..|args| - 1])
      case Err(f) => Err(f)
      case Ok((cells, ptrs)) =>
        match Marshal(args[|args| - 1], |cells|)
        case Err(f) => Err(f)
        case Ok((more, p)) => Ok((cells + more, ptrs + [p]))
  }

  /** One pointer per argument, in order, each reading back as its argument
      from the boxes that are all still alive; marshalling fails exactly when
      some string argument holds a NUL. */
  lemma {:induction false} MarshalAllReadsBack(args: seq<Arg>)
    ensures MarshalAll(args).Err? <==> exists i :: 0 <= i < |args| && TextOf(args[i]).Some? && '\0' in TextOf(args[i]).value
    ensures MarshalAll(args).Ok? ==>
      var (cells, ptrs) := MarshalAll(args).value;
      |ptrs| == |args| && forall i :: 0 <= i < |args| ==> Deref(cells, ptrs[i]) == Some(ViewOf(args[i]))
    decreases |args|
  {
    if args != [] {
      var init, last := args[..|args| - 1], args[|args| - 1];
      MarshalAllReadsBack(init);
      assert forall i :: 0 <= i < |init| ==> args[i] == init[i];
      if MarshalAll(init).Ok? {
        var (cells, ptrs) := MarshalAll(init).value;
        MarshalReadsBack(last, cells);
        if Marshal(last, |cells|).Ok? {
          var (more, p) := Marshal(last, |cells|).value;
          forall i | 0 <= i < |args|
            ensures Deref(cells + more, (ptrs + [p])[i]) == Some(ViewOf(args[i]))
          {
            if i < |init| {
              DerefStable(cells, more, ptrs[i]);
            }
          }
        }
      }
    }
  }

  // ---------------------------------------------------------------------
  // Call interface

  /** An `i32` status code. */
  type Status = x: int | -0x8000_0000 <= x < 0x8000_0000

  const FFI_OK: Status := 0
  const FFI_UNIX64: nat := 2
  const FFI_DEFAULT_ABI: nat := FFI_UNIX64

  /** `ffi_prep_cif`: the status for an ABI, an argument count, the return
      type and the argument types. */
  type Prep = (nat, nat, FfiType, seq<FfiType>) -> Status

  /** Where the call's result goes: nowhere, or the `result` slot. */
  datatype RValue = NoResult | ResultSlot

  /** What `ffi_call` is handed. */
  datatype Invocation = Invocation(nargs: nat, argTypes: seq<FfiType>, retType: FfiType, fn: D.Sym, rvalue: RValue, args: seq<Ptr>)

  class CallInterface {
    const argTypes: seq<FfiType>
    const retType: FfiType
    /** `nargs` as prepared: the number of argument types as a `u32`. */
    const nargs: nat

    constructor(argTypes: seq<FfiType>, retType: FfiType, nargs: nat)
      ensures this.argTypes == argTypes && this.retType == retType && this.nargs == nargs
    {
      this.argTypes := argTypes;
      this.retType := retType;
      this.nargs := nargs;
    }

    /** `call` (src/cffi.rs:315-335): the result slot is passed unless the
        return type is `()`. The value libffi writes there is not modelled. */
    method Call(f: D.Sym, argValues: seq<Ptr>) returns (inv: Invocation)
      ensures inv.fn == f && inv.args == argValues
      ensures inv.nargs == nargs && inv.argTypes == argTypes && inv.retType == retType
      ensures inv.rvalue == NoResult <==> retType == Void
    {
      var rvalue := if retType == Void then NoResult else ResultSlot;
      inv := Invocation(nargs, argTypes, retType, f, rvalue, argValues);
    }

    /** `call_args` (src/cffi.rs:336-348): every argument boxed in order,
        then one call with their pointers while the boxes are alive. */
    method CallArgs(f: D.Sym, args: seq<Arg>) returns (r: Result<Invocation, Failure>, boxes: seq<Cell>)
      ensures r.Ok? <==> MarshalAll(args).Ok?
      ensures r.Ok? ==> boxes == MarshalAll(args).value.0 && r.value.args == MarshalAll(args).value.1
      ensures r.Ok? ==> r.value.fn == f && r.value.nargs == nargs && r.value.argTypes == argTypes && r.value.retType == retType
      ensures r.Ok? ==> (r.value.rvalue == NoResult <==> retType == Void)
      ensures r.Err? ==> r.error == MarshalAll(args).error
    {
      var arena := new ArgBoxes();
      var ptrs: seq<Ptr> := [];
      var i := 0;
      while i < |args|
        invariant 0 <= i <= |args|
        invariant MarshalAll(args[..i]) == Ok((arena.cells, ptrs))
        decreases |args| - i
      {
        assert args[..i + 1][..i] == args[..i];
        var p := arena.IntoFfi(args[i]);
        if p.Err? {
          assert MarshalAll(args[..i + 1]).Err?;
          MarshalFailureStays(args, i + 1);
          return Err(p.error), arena.cells;
        }
        ptrs := ptrs + [p.value];
        i := i + 1;
      }
      assert args[..|args|] == args;
      var inv := Call(f, ptrs);
      return Ok(inv), arena.cells;
    }
  }

  /** A failure in a prefix of the arguments is the failure of the whole
      list. */
  lemma {:induction false} MarshalFailureStays(args: seq<Arg>, n: nat)
    requires n <= |args| && MarshalAll(args[..n]).Err?
    ensures MarshalAll(args) == MarshalAll(args[..n])
    decreases |args| - n
  {
    if n < |args| {
      assert args[..n + 1][..n] == args[..n];
      MarshalFailureStays(args, n + 1);
    } else {
      assert args[..n] == args;
    }
  }

  /** `CallInterface::new` (src/cffi.rs:270-313) for return type `ret`: the
      interface when `ffi_prep_cif` returns `FFI_OK`, and otherwise the
      error naming the status. */
  method NewCallInterface(ret: RustType, argTypes: seq<FfiType>, prep: Prep) returns (r: Result<CallInterface, string>)
    ensures
      var status := prep(FFI_DEFAULT_ABI, |argTypes| % 0x1_0000_0000, FfiTypeOf(ret), argTypes);
      (r.Ok? <==> status == FFI_OK)
      && (r.Err? ==> r.error == "Error Preparing the CallInterface: C::ffi_prep_cif returned " + DecimalText(status))
    ensures r.Ok? ==> fresh(r.value) && r.value.argTypes == argTypes && r.value.retType == FfiTypeOf(ret)
                      && r.value.nargs == |argTypes| % 0x1_0000_0000
  {
    var retType := FfiTypeOf(ret);
    var nargs := |argTypes| % 0x1_0000_0000;
    var status := prep(FFI_DEFAULT_ABI, nargs, retType, argTypes);
    if status != FFI_OK {
      return Err("Error Preparing the CallInterface: C::ffi_prep_cif returned " + DecimalText(status));
    }
    var cif := new CallInterface(argTypes, retType, nargs);
    return Ok(cif);
  }

  // ---------------------------------------------------------------------
  // The `ffi_call!` macro

  /** A macro argument, by its static Rust type. */
  datatype AnyValue = AnyStr(s: string) | AnyString(s: string) | AnyI64(v: int) | AnyF64(f: P.Float) | AnyOther(typeName: string)

  /** The downcast chain of `ffi_call!` (src/cffi.rs:364-390): `&str`, then
      `String`, then `i64`, then `f64`; any other type has no conversion. */
  function Downcast(a: AnyValue): Option<Arg> {
    match a
    case AnyStr(s) => Some(StrArg(s))
    case AnyString(s) => Some(StringArg(s))
    case AnyI64(v) => Some(I64Arg(v))
    case AnyF64(f) => Some(F64Arg(f))
    case AnyOther(_) => None
  }

  /** What the macro pushes for its arguments, in order. */
  function MacroAll(args: seq<AnyValue>): Result<(seq<Cell>, seq<Ptr>), Failure>
    decreases |args|
  {
    if args == [] then Ok(([], []))
    else
      match MacroAll(args[..|args| - 1])
      case Err(f) => Err(f)
      case Ok((cells, ptrs)) =>
        match Downcast(args[|args| - 1])
        case None => Err(Panic("Unsupported argument type in ffi_call!"))
        case Some(a) =>
          match Marshal(a, |cells|)
          case Err(f) => Err(f)
          case Ok((more, p)) => Ok((cells + more, ptrs + [p]))
  }

  function DowncastAll(args: seq<AnyValue>): seq<Arg>
    requires forall i :: 0 <= i < |args| ==> Downcast(args[i]).Some?
  {
    seq(|args|, i requires 0 <= i < |args| => Downcast(args[i]).value)
  }

  /** For arguments of the four supported types the macro boxes exactly as
      `call_args` does. */
  lemma {:induction false} MacroAgreesWithCallArgs(args: seq<AnyValue>)
    requires forall i :: 0 <= i < |args| ==> Downcast(args[i]).Some?
    ensures MacroAll(args) == MarshalAll(DowncastAll(args))
    decreases |args|
  {
    if args != [] {
      var init := args[..|args| - 1];
      MacroAgreesWithCallArgs(init);
      assert DowncastAll(args)[..|args| - 1] == DowncastAll(init);
    }
  }

  /** An argument of any other type, an `i8` or an unsuffixed integer
      literal (an `i32`) among them, panics unless an earlier one already
      has. */
  lemma UnsupportedPanics(args: seq<AnyValue>, typeName: string)
    requires MacroAll(args).Ok?
    ensures MacroAll(args + [AnyOther(typeName)]) == Err(Panic("Unsupported argument type in ffi_call!"))
  {
    assert (args + [AnyOther(typeName)])[..|args|] == args;
  }

  /** The macro as expanded: each argument converted in turn, then one call. */
  method FfiCallMacro(cif: CallInterface, f: D.Sym, args: seq<AnyValue>) returns (r: Result<Invocation, Failure>, boxes: seq<Cell>)
    ensures r.Ok? <==> MacroAll(args).Ok?
    ensures r.Ok? ==> boxes == MacroAll(args).value.0 && r.value.args == MacroAll(args).value.1 && r.value.fn == f
    ensures r.Ok? ==> r.value.nargs == cif.nargs && r.value.argTypes == cif.argTypes && r.value.retType == cif.retType
    ensures r.Ok? ==> (r.value.rvalue == NoResult <==> cif.retType == Void)
    ensures r.Err? ==> r.error == MacroAll(args).error
  {
    var arena := new ArgBoxes();
    var ptrs: seq<Ptr> := [];
    var i := 0;
    while i < |args|
      invariant 0 <= i <= |args|
      invariant MacroAll(args[..i]) == Ok((arena.cells, ptrs))
      decreases |args| - i
    {
      MacroStep(args, i);
      var a := Downcast(args[i]);
      if a.None? {
        MacroFailureStays(args, i + 1);
        return Err(Panic("Unsupported argument type in ffi_call!")), arena.cells;
      }
      var p := arena.IntoFfi(a.value);
      if p.Err? {
        MacroFailureStays(args, i + 1);
        return Err(p.error), arena.cells;
      }
      ptrs := ptrs + [p.value];
      i := i + 1;
    }
    assert args[..|args|] == args;
    var inv := cif.Call(f, ptrs);
    return Ok(inv), arena.cells;
  }

  /** One more argument: converted and pushed after the earlier ones. */
  lemma MacroStep(args: seq<AnyValue>, i: nat)
    requires i < |args| && MacroAll(args[..i]).Ok?
    ensures Downcast(args[i]).None? ==> MacroAll(args[..i + 1]) == Err(Panic("Unsupported argument type in ffi_call!"))
    ensures Downcast(args[i]).Some? ==>
              var (cells, ptrs) := MacroAll(args[..i]).value;
              var m := Marshal(Downcast(args[i]).value, |cells|);
              MacroAll(args[..i + 1]) == if m.Err? then Err(m.error) else Ok((cells + m.value.0, ptrs + [m.value.1]))
  {
    assert args[..i + 1][..i] == args[..i];
  }

  lemma {:induction false} MacroFailureStays(args: seq<AnyValue>, n: nat)
    requires n <= |args| && MacroAll(args[..n]).Err?
    ensures MacroAll(args) == MacroAll(args[..n])
    decreases |args| - n
  {
    if n < |args| {
      assert args[..n + 1][..n] == args[..n];
      MacroFailureStays(args, n + 1);
    } else {
      assert args[..n] == args;
    }
  }
}
