/** The table of linked shared libraries (src/registry.rs): library names
    mapped to loaded libraries, created on first use with the C library in
    it. The table is an object whose map is updated in place. */
module Registry {
  import opened Wrappers
  import opened DynLoad

  const LIBC: string := "libc.so.6"

  /** No name occurs twice. */
  predicate Distinct(names: seq<string>) {
    forall i, j :: 0 <= i < j < |names| ==> names[i] != names[j]
  }

  class Registry {
    var libs: map<string, Lib>

    /** The table with only `libc.so.6`, as it is built on first use. */
    constructor(libc: Lib)
      ensures libs == map[LIBC := libc]
    {
      libs := map[LIBC := libc];
    }

    /** `add_lib`: a library that opens is inserted under its name,
        replacing any earlier entry; otherwise the table is unchanged and
        the loader's failure is returned. */
    method AddLib(libname: string, dlopen: Opener) returns (r: Result<(), Failure>)
      modifies this
      ensures r.Ok? <==> Open(libname, dlopen).Ok?
      ensures r.Ok? ==> libs == old(libs)[libname := Open(libname, dlopen).value]
      ensures r.Err? ==> r.error == Open(libname, dlopen).error && libs == old(libs)
    {
      var lib := Open(libname, dlopen);
      if lib.Err? {
        return Err(lib.error);
      }
      libs := libs[libname := lib.value];
      return Ok(());
    }

    /** `del_lib`: removes the entry if there is one, and reports that the
        library was not linked otherwise. */
    method DelLib(libname: string) returns (r: Result<(), Failure>)
      modifies this
      ensures r.Ok? <==> libname in old(libs)
      ensures libs == old(libs) - {libname}
      ensures r.Err? ==> r.error == Error("The library " + libname + " was not linked to unlink")
    {
      if libname !in libs {
        return Err(Error("The library " + libname + " was not linked to unlink"));
      }
      libs := libs - {libname};
      return Ok(());
    }

    /** `get_libs`: each linked name once, in the table's own order. */
    method GetLibs() returns (names: seq<string>)
      ensures Distinct(names) && |names| == |libs|
      ensures forall n :: n in names <==> n in libs
    {
      names := [];
      var remaining := libs.Keys;
      while remaining != {}
        invariant remaining <= libs.Keys
        invariant forall n :: n in libs ==> (n in names <==> n !in remaining)
        invariant forall n :: n in names ==> n in libs
        invariant Distinct(names) && |names| + |remaining| == |libs.Keys|
        decreases |remaining|
      {
        var name :| name in remaining;
        names := names + [name];
        remaining := remaining - {name};
      }
      assert libs.Keys == set n | n in names;
    }

    /** `get_sym`: the symbol from the first library, in the table's order,
        that resolves it; when none does, every linked name, each once, as
        the list of libraries searched. */
    method GetSym(sym: string) returns (r: Option<Sym>, searched: seq<string>)
      ensures r.Some? <==> exists n :: n in libs && Resolves(libs[n], sym)
      ensures r.Some? ==> exists n :: n in libs && LookupSym(libs[n], sym) == Ok(r.value)
      ensures r.None? ==> Distinct(searched) && |searched| == |libs| && forall n :: n in searched <==> n in libs
    {
      searched := [];
      var remaining := libs.Keys;
      while remaining != {}
        invariant remaining <= libs.Keys
        invariant forall n :: n in libs ==> (n in searched <==> n !in remaining)
        invariant forall n :: n in searched ==> n in libs && !Resolves(libs[n], sym)
        invariant Distinct(searched) && |searched| + |remaining| == |libs.Keys|
        decreases |remaining|
      {
        var name :| name in remaining;
        var found := LookupSym(libs[name], sym);
        if found.Ok? {
          return Some(found.value), searched;
        }
        searched := searched + [name];
        remaining := remaining - {name};
      }
      assert libs.Keys == set n | n in searched;
      return None, searched;
    }
  }

  /** The C library's name can be handed to the loader. */
  lemma LibcNameHasNoNul()
    ensures '\0' !in LIBC
  {
    assert forall i :: 0 <= i < |LIBC| ==> LIBC[i] != '\0';
  }

  /** `dlibs` on first use: the table holding the C library, or the panic
      of the `unwrap` when the C library cannot be opened. */
  method FirstUse(dlopen: Opener) returns (r: Result<Registry, Failure>)
    ensures r.Ok? <==> dlopen(LIBC).Some?
    ensures r.Ok? ==> fresh(r.value) && r.value.libs == map[LIBC := dlopen(LIBC).value]
    ensures r.Err? ==> r.error.Panic?
  {
    LibcNameHasNoNul();
    var libc := Open(LIBC, dlopen);
    if libc.Err? {
      return Err(Panic("called `Result::unwrap()` on an `Err` value: " + libc.error.msg));
    }
    var reg := new Registry(libc.value);
    return Ok(reg);
  }
}
