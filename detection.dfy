/**
 * The compiler-identification decision table of `main` in cppversion.cpp.
 *
 * The build environment is the set of predefined preprocessor symbols, each
 * with its integer value; a symbol is "defined" when it is a key of the map.
 * The `#if defined(...) / #elif ...` chain picks the first vendor whose guard
 * holds. The chosen branch then names some symbols in ordinary code to print
 * them; a symbol the environment lacks is an undeclared identifier there, so
 * the program does not compile.
 */
module Detection {
  import opened Wrappers
  import opened Numerals

  type Env = map<string, Int32>

  datatype Vendor = Clang | Intel | Gnu | Hp | Ibm | Msvc | Pgi | Sun

  /** The three ways the branches render a version. */
  datatype Shape = DottedDecimal | SingleDecimal | SingleHex

  /** The version a branch prints, with the values of the symbols it names. */
  datatype Version =
    | Dotted(major: Int32, minor: Int32, patch: Int32)
    | Decimal(n: Int32)
    | Hex(n: Int32)

  /** What the preprocessor left of `main`: one matched branch, or the `#else` branch. */
  datatype Branch = Identified(vendor: Vendor, version: Version) | Unknown

  /** A branch that names symbols the environment does not define fails to compile. */
  datatype CompileError = Undeclared(names: seq<string>)

  /** The order of the `#elif` chain. */
  const Priority: seq<Vendor> := [Clang, Intel, Gnu, Hp, Ibm, Msvc, Pgi, Sun]

  /** The position of a vendor's guard in the chain. */
  function Rank(v: Vendor): (r: nat)
    ensures r < |Priority| && Priority[r] == v
  {
    match v
    case Clang => 0
    case Intel => 1
    case Gnu => 2
    case Hp => 3
    case Ibm => 4
    case Msvc => 5
    case Pgi => 6
    case Sun => 7
  }

  /** The symbols vendor `v`'s guard tests with `defined(...)`. */
  function GuardSymbols(v: Vendor): seq<string>
  {
    match v
    case Clang => ["__clang__"]
    case Intel => ["__ICC", "__INTEL_COMPILER"]
    case Gnu => ["__GNUC__", "__GNUG__"]
    case Hp => ["__HP_cc", "__HP_aCC"]
    case Ibm => ["__IBMC__", "__IBMCPP__"]
    case Msvc => ["_MSC_VER"]
    case Pgi => ["__PGI"]
    case Sun => ["__SUNPRO_C", "__SUNPRO_CC"]
  }

  /** The guard of vendor `v`'s branch: one or two `defined(...)` tests joined by `||`. */
  predicate Matches(v: Vendor, env: Env)
    ensures Matches(v, env) <==> exists s :: s in GuardSymbols(v) && s in env
  {
    match v
    case Clang => "__clang__" in env
    case Intel => "__ICC" in env || "__INTEL_COMPILER" in env
    case Gnu => "__GNUC__" in env || "__GNUG__" in env
    case Hp => "__HP_cc" in env || "__HP_aCC" in env
    case Ibm => "__IBMC__" in env || "__IBMCPP__" in env
    case Msvc => "_MSC_VER" in env
    case Pgi => "__PGI" in env
    case Sun => "__SUNPRO_C" in env || "__SUNPRO_CC" in env
  }

  /** The `#if / #elif` chain: the first vendor whose guard holds, if any. */
  function Detect(env: Env): (r: Option<Vendor>)
    ensures r.Some? ==> Matches(r.value, env)
  {
    if Matches(Clang, env) then Some(Clang)
    else if Matches(Intel, env) then Some(Intel)
    else if Matches(Gnu, env) then Some(Gnu)
    else if Matches(Hp, env) then Some(Hp)
    else if Matches(Ibm, env) then Some(Ibm)
    else if Matches(Msvc, env) then Some(Msvc)
    else if Matches(Pgi, env) then Some(Pgi)
    else if Matches(Sun, env) then Some(Sun)
    else None
  }

  /** No guard earlier in the chain than the detected vendor's holds. */
  lemma EarlierGuardsFail(env: Env, w: Vendor)
    requires Detect(env).Some? && Rank(w) < Rank(Detect(env).value)
    ensures !Matches(w, env)
  {
  }

  /** First match wins: `Detect` picks `v` exactly when `v`'s guard holds and no earlier one does. */
  lemma DetectIsFirstMatch(env: Env, v: Vendor)
    ensures Detect(env) == Some(v) <==>
      Matches(v, env) && forall w :: Rank(w) < Rank(v) ==> !Matches(w, env)
  {
    var r := Detect(env);
    if r == Some(v) {
      forall w | Rank(w) < Rank(v) ensures !Matches(w, env) {
        EarlierGuardsFail(env, w);
      }
    }
    if Matches(v, env) && (forall w :: Rank(w) < Rank(v) ==> !Matches(w, env)) {
      assert r.Some?;
      var u := r.value;
      if Rank(v) < Rank(u) {
        EarlierGuardsFail(env, v);
        assert false;
      }
      assert Priority[Rank(u)] == u && Priority[Rank(v)] == v;
    }
  }

  /** Detection finds no vendor exactly when no guard holds. */
  lemma DetectNoneIffNoGuard(env: Env)
    ensures Detect(env).None? <==> forall w :: !Matches(w, env)
  {
    if Detect(env).Some? {
      assert Matches(Detect(env).value, env);
    }
  }

  /** The symbols whose values a vendor's branch prints, in the order it prints them. */
  function ValueSymbols(v: Vendor): (r: seq<string>)
    ensures |r| == 1 || |r| == 3
    ensures forall i, j :: 0 <= i < j < |r| ==> r[i] != r[j]
  {
    match v
    case Clang => ["__clang_major__", "__clang_minor__", "__clang_patchlevel__"]
    case Intel => ["__ICC"]
    case Gnu => ["__GNUC__", "__GNUC_MINOR__", "__GNUC_PATCHLEVEL__"]
    case Hp => ["__HP_cc"]
    case Ibm => ["__IBMCPP__"]
    case Msvc => ["_MSC_FULL_VER"]
    case Pgi => ["__PGIC__", "__PGIC_MINOR__", "__PGIC_PATCHLEVEL__"]
    case Sun => ["__SUNPRO_CC"]
  }

  /**
   * How a vendor's branch renders its version: a dotted triple exactly when it
   * prints three symbols, and hexadecimal for Solaris Studio alone.
   */
  function ShapeOf(v: Vendor): (r: Shape)
    ensures |ValueSymbols(v)| == if r == DottedDecimal then 3 else 1
    ensures r == SingleHex <==> v == Sun
  {
    match v
    case Clang | Gnu | Pgi => DottedDecimal
    case Intel | Hp | Ibm | Msvc => SingleDecimal
    case Sun => SingleHex
  }

  function VersionShape(ver: Version): Shape
  {
    match ver
    case Dotted(_, _, _) => DottedDecimal
    case Decimal(_) => SingleDecimal
    case Hex(_) => SingleHex
  }

  /** The printed values, in order. */
  function Values(ver: Version): seq<Int32>
  {
    match ver
    case Dotted(a, b, c) => [a, b, c]
    case Decimal(n) => [n]
    case Hex(n) => [n]
  }

  /** The values of `names` in `env`, in order. */
  function Lookup(names: seq<string>, env: Env): (r: seq<Int32>)
    requires forall s :: s in names ==> s in env
    ensures |r| == |names| && forall i :: 0 <= i < |r| ==> r[i] == env[names[i]]
  {
    if names == [] then [] else [env[names[0]]] + Lookup(names[1..], env)
  }

  /** The names in `names` that `env` does not define, in order. */
  function Missing(names: seq<string>, env: Env): (r: seq<string>)
    ensures forall i :: 0 <= i < |r| ==> r[i] in names && r[i] !in env
    ensures r == [] <==> forall i :: 0 <= i < |names| ==> names[i] in env
    ensures r == [] ==> forall s :: s in names ==> s in env
    ensures forall s :: s in names && s !in env ==> s in r
  {
    if names == [] then []
    else if names[0] in env then Missing(names[1..], env)
    else [names[0]] + Missing(names[1..], env)
  }

  /** When none of `names` is defined, all of them are missing, in order. */
  lemma {:induction false} MissingNone(names: seq<string>, env: Env)
    requires forall i :: 0 <= i < |names| ==> names[i] !in env
    ensures Missing(names, env) == names
  {
    if names != [] {
      MissingNone(names[1..], env);
    }
  }

  /**
   * Compiling the statement of vendor `v`'s branch: it succeeds exactly when
   * every symbol the statement prints is defined, and then the version holds
   * those symbols' values in the order printed, in the vendor's shape.
   */
  function ReadVersion(v: Vendor, env: Env): (r: Result<Version, CompileError>)
    ensures r.Ok? <==> forall i :: 0 <= i < |ValueSymbols(v)| ==> ValueSymbols(v)[i] in env
    ensures r.Err? ==> (r.error.names != [] &&
      forall i :: 0 <= i < |r.error.names| ==> r.error.names[i] in ValueSymbols(v) && r.error.names[i] !in env)
    ensures r.Err? ==> forall s :: s in ValueSymbols(v) && s !in env ==> s in r.error.names
    ensures r.Err? ==> r.error.names == Missing(ValueSymbols(v), env)
    ensures r.Ok? ==> VersionShape(r.value) == ShapeOf(v)
    ensures r.Ok? ==> Values(r.value) == Lookup(ValueSymbols(v), env)
  {
    var names := ValueSymbols(v);
    var missing := Missing(names, env);
    if missing != [] then Err(Undeclared(missing))
    else
      var vals := Lookup(names, env);
      match ShapeOf(v)
      case DottedDecimal => Ok(Dotted(vals[0], vals[1], vals[2]))
      case SingleDecimal => Ok(Decimal(vals[0]))
      case SingleHex => Ok(Hex(vals[0]))
  }

  /**
   * Preprocessing and compiling `main`: the branch the chain selects, or the
   * compile error of a selected branch that names an undefined symbol. The
   * `#else` branch names no symbols and always compiles.
   */
  function Build(env: Env): (r: Result<Branch, CompileError>)
    ensures Detect(env).None? ==> r == Ok(Unknown)
    ensures r == Ok(Unknown) ==> forall w :: !Matches(w, env)
    ensures r.Ok? && r.value.Identified? ==>
      Detect(env) == Some(r.value.vendor) && ReadVersion(r.value.vendor, env) == Ok(r.value.version)
    ensures r.Err? ==> Detect(env).Some? && ReadVersion(Detect(env).value, env) == Err(r.error)
  {
    match Detect(env)
    case None => Ok(Unknown)
    case Some(v) =>
      match ReadVersion(v, env)
      case Ok(ver) => Ok(Identified(v, ver))
      case Err(e) => Err(e)
  }
}
