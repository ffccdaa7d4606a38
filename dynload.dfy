/** The dynamic loader as the rest of the model sees it (src/dlfcn.rs):
    `dlopen` and `dlsym` themselves are supplied from outside; what is
    modelled is the name checks and the messages around them. */
module DynLoad {
  import opened Wrappers
  import opened StdText

  /** A loaded shared object, known by the symbols it exports. */
  datatype Lib = Lib(exports: set<string>)

  /** A resolved symbol: the function `name` in `lib`. */
  datatype Sym = Sym(lib: Lib, name: string)

  /** The system's `dlopen`: the library a file name loads, if any. */
  type Opener = string -> Option<Lib>

  /** `dlsym` finds a symbol: a valid C name that the library exports. */
  predicate Resolves(lib: Lib, sym: string) {
    '\0' !in sym && sym in lib.exports
  }

  /** `DynLib::open` (src/dlfcn.rs:52-64). A file name with a NUL in it
      reaches an `unwrap` on the mapped error and panics; a null handle is
      reported. */
  function Open(filename: string, dlopen: Opener): (r: Result<Lib, Failure>)
    ensures r.Err? && r.error.Panic? <==> '\0' in filename
    ensures r.Ok? <==> '\0' !in filename && dlopen(filename).Some?
    ensures r.Ok? ==> r.value == dlopen(filename).value
  {
    match CStringNew(filename)
    case Err(e) =>
      Err(Panic("called `Result::unwrap()` on an `Err` value: DL error: Error " + e + ", Invalid Filename " + filename))
    case Ok(_) =>
      match dlopen(filename)
      case None => Err(Error("DL error: Error Opening the shared object: " + filename))
      case Some(lib) => Ok(lib)
  }

  /** `DlSym::new` (src/dlfcn.rs:83-91): the symbol, or the reason it was
      not found. */
  function LookupSym(lib: Lib, sym: string): (r: Result<Sym, string>)
    ensures r.Ok? <==> Resolves(lib, sym)
    ensures r.Ok? ==> r.value == Sym(lib, sym)
  {
    match CStringNew(sym)
    case Err(e) => Err("DL error: Error " + e + ": Invalid Symbol name `" + sym + "`")
    case Ok(_) =>
      if sym in lib.exports then Ok(Sym(lib, sym)) else Err("DL error: Could not find the symbol")
  }
}
