/**
 * Particular build environments: the tie-breaks of the `#elif` chain, the
 * branches whose guard accepts a symbol other than the one they print, and
 * the reports of known compiler releases.
 */
module Scenarios {
  import opened Wrappers
  import opened Numerals
  import opened Detection
  import opened Report

  /** Clang also defines the GNU symbols; the chain reports Clang. */
  lemma ClangBeforeGnu(env: Env)
    requires "__clang__" in env && "__GNUC__" in env
    ensures Detect(env) == Some(Clang)
  {
  }

  /** The Intel compiler also defines `__GNUC__`; the chain reports Intel. */
  lemma IntelBeforeGnu(env: Env)
    requires "__clang__" !in env && "__INTEL_COMPILER" in env && "__GNUC__" in env
    ensures Detect(env) == Some(Intel)
  {
  }

  /**
   * A vendor printing a single value prints the value of its one printed
   * symbol, in decimal or, for Solaris Studio, in hexadecimal; without that
   * symbol the program does not build, whichever guard symbol selected it.
   */
  lemma SingleValueBranch(env: Env, v: Vendor)
    requires Detect(env) == Some(v) && ShapeOf(v) != DottedDecimal
    ensures var sym := ValueSymbols(v)[0];
      Build(env) ==
        if sym !in env then Err(Undeclared([sym]))
        else if v == Sun then Ok(Identified(v, Hex(env[sym])))
        else Ok(Identified(v, Decimal(env[sym])))
  {
    var sym := ValueSymbols(v)[0];
    assert ValueSymbols(v) == [sym];
    assert Missing([sym], env) == if sym in env then [] else [sym];
    if sym in env {
      assert Lookup([sym], env) == [env[sym]];
    }
  }

  /** The Microsoft branch is guarded on `_MSC_VER` but prints `_MSC_FULL_VER`. */
  lemma MsvcPrintsFullVersion(env: Env)
    requires Detect(env) == Some(Msvc)
    ensures "_MSC_VER" in env
    ensures "_MSC_FULL_VER" in env ==> Build(env) == Ok(Identified(Msvc, Decimal(env["_MSC_FULL_VER"])))
    ensures "_MSC_FULL_VER" !in env ==> Build(env) == Err(Undeclared(["_MSC_FULL_VER"]))
  {
    SingleValueBranch(env, Msvc);
  }

  /**
   * Selected by `__GNUG__` alone, the GNU branch names the missing `__GNUC__`;
   * with the minor and patch-level symbols absent too, it names all three.
   */
  lemma GnugOnly(env: Env)
    requires Detect(env) == Some(Gnu) && "__GNUC__" !in env
    ensures "__GNUG__" in env
    ensures Build(env).Err? && "__GNUC__" in Build(env).error.names
    ensures "__GNUC_MINOR__" !in env && "__GNUC_PATCHLEVEL__" !in env ==>
      Build(env) == Err(Undeclared(["__GNUC__", "__GNUC_MINOR__", "__GNUC_PATCHLEVEL__"]))
  {
    var names := ["__GNUC__", "__GNUC_MINOR__", "__GNUC_PATCHLEVEL__"];
    assert ValueSymbols(Gnu) == names;
    assert names[0] in names && names[0] !in env;
    if "__GNUC_MINOR__" !in env && "__GNUC_PATCHLEVEL__" !in env {
      MissingNone(names, env);
    }
  }

  /** Selected by `__INTEL_COMPILER` alone, the Intel branch names the missing `__ICC`. */
  lemma IntelCompilerOnly(env: Env)
    requires Detect(env) == Some(Intel) && "__ICC" !in env
    ensures "__INTEL_COMPILER" in env && Build(env) == Err(Undeclared(["__ICC"]))
  {
    SingleValueBranch(env, Intel);
  }

  /** Selected by `__HP_aCC` alone, the HP branch names the missing `__HP_cc`. */
  lemma HpAccOnly(env: Env)
    requires Detect(env) == Some(Hp) && "__HP_cc" !in env
    ensures "__HP_aCC" in env && Build(env) == Err(Undeclared(["__HP_cc"]))
  {
    SingleValueBranch(env, Hp);
  }

  /** Selected by `__IBMC__` alone, the IBM branch names the missing `__IBMCPP__`. */
  lemma IbmCOnly(env: Env)
    requires Detect(env) == Some(Ibm) && "__IBMCPP__" !in env
    ensures "__IBMC__" in env && Build(env) == Err(Undeclared(["__IBMCPP__"]))
  {
    SingleValueBranch(env, Ibm);
  }

  /** Selected by `__SUNPRO_C` alone, the Solaris branch names the missing `__SUNPRO_CC`. */
  lemma SunCOnly(env: Env)
    requires Detect(env) == Some(Sun) && "__SUNPRO_CC" !in env
    ensures "__SUNPRO_C" in env && Build(env) == Err(Undeclared(["__SUNPRO_CC"]))
  {
    SingleValueBranch(env, Sun);
  }

  /** GCC 11.4.0 reports "Compiled with GNU GCC/G++ version 11.4.0". */
  lemma GnuRelease(env: Env)
    requires Detect(env) == Some(Gnu)
    requires "__GNUC__" in env && "__GNUC_MINOR__" in env && "__GNUC_PATCHLEVEL__" in env
    requires env["__GNUC__"] == 11 && env["__GNUC_MINOR__"] == 4 && env["__GNUC_PATCHLEVEL__"] == 0
    ensures Build(env) == Ok(Identified(Gnu, Dotted(11, 4, 0)))
    ensures Headline(Gnu, Dotted(11, 4, 0)) == Claim + "GNU GCC/G++" + " version " + "11.4.0"
  {
    var names := ["__GNUC__", "__GNUC_MINOR__", "__GNUC_PATCHLEVEL__"];
    assert ValueSymbols(Gnu) == names;
    assert Missing(names, env) == [];
    assert Lookup(names, env) == [11, 4, 0];
    GnuText();
  }

  lemma GnuText()
    ensures VersionText(Dotted(11, 4, 0)) == "11.4.0"
  {
  }

  /** Visual Studio 2019 16.11 reports its full version 192930133. */
  lemma MsvcRelease()
    ensures Headline(Msvc, Decimal(192930133)) ==
      Claim + "Microsoft Visual Studio" + " version " + "192930133"
  {
  }

  /** Solaris Studio prints code 0x5150 as "5150", not as its decimal "20816". */
  lemma SunRelease()
    ensures Headline(Sun, Hex(0x5150)) == Claim + "Oracle Solaris Studio" + " version " + "5150"
    ensures VersionText(Decimal(0x5150)) == "20816"
  {
    SunText();
    DecimalText();
  }

  lemma SunText()
    ensures VersionText(Hex(0x5150)) == "5150"
  {
    assert NatText(0x51, 16) == "51";
    assert NatText(0x515, 16) == "515";
  }

  lemma DecimalText()
    ensures VersionText(Decimal(0x5150)) == "20816"
  {
    assert NatText(208, 10) == "208";
    assert NatText(2081, 10) == "2081";
  }

  /** A negative code shows its 32-bit two's-complement pattern. */
  lemma NegativeHex()
    ensures VersionText(Hex(-1)) == "ffffffff"
  {
  }
}
