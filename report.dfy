/**
 * The report `main` writes around the decision table: the separator before
 * and after, and between them the identification line on standard output or
 * the error line on standard error; and the exit status.
 *
 * A stream is the sequence of chunks written to it, one chunk per `<<`
 * statement; `Flatten` runs them together and `Lines` splits the result at
 * its newlines, which is what a reader of the terminal sees.
 */
module Report {
  import opened Wrappers
  import opened Numerals
  import opened TextLines
  import opened Detection

  /** The vendor name each branch prints after "Compiled with ". */
  function Label(v: Vendor): (r: string)
    ensures '\n' !in r && |r| >= 2
  {
    match v
    case Clang => "Clang/LLVM"
    case Intel => "Intel ICC/ICPC"
    case Gnu => "GNU GCC/G++"
    case Hp => "Hewlett-Packard C/aC++"
    case Ibm => "IBM XL C/C++"
    case Msvc => "Microsoft Visual Studio"
    case Pgi => "Portland Group PGCC/PGCPP"
    case Sun => "Oracle Solaris Studio"
  }

  /** Distinct vendors print distinct names, so the line names the vendor. */
  lemma LabelInjective(v: Vendor, w: Vendor)
    requires Label(v) == Label(w)
    ensures v == w
  {
  }

  /**
   * The text after " version ": `a << "." << b << "." << c` for the dotted
   * shape, the bare value for a single decimal, and the value after
   * `std::hex` for the hexadecimal one.
   */
  function VersionText(ver: Version): (r: string)
    ensures '\n' !in r
  {
    match ver
    case Dotted(a, b, c) => IntText(a as int) + "." + IntText(b as int) + "." + IntText(c as int)
    case Decimal(n) => IntText(n as int)
    case Hex(n) => HexText(n)
  }

  /** The version text, read back in the vendor's shape, gives the printed values. */
  lemma ParseVersionText(ver: Version)
    ensures ParseVersion(VersionShape(ver), VersionText(ver)) == Some(ver)
  {
    match ver
    case Dotted(a, b, c) =>
      ParseDottedText(a, b, c);
    case Decimal(n) =>
      ParseIntText(n as int);
    case Hex(n) =>
      ParseHexText(n);
  }

  lemma ParseDottedText(a: Int32, b: Int32, c: Int32)
    ensures ParseVersion(DottedDecimal, VersionText(Dotted(a, b, c))) == Some(Dotted(a, b, c))
  {
    DottedFields(a, b, c);
    ParseInt32Text(a);
    ParseInt32Text(b);
    ParseInt32Text(c);
  }

  lemma ParseInt32Text(n: Int32)
    ensures ParseInt32(IntText(n as int)) == Some(n)
  {
    ParseIntText(n as int);
  }

  /** Decimal renderings hold digits and a minus sign only, never a dot. */
  lemma NoDot(n: int)
    ensures '.' !in IntText(n)
  {
    var t := IntText(n);
    forall i | 0 <= i < |t| ensures t[i] != '.' {
    }
  }

  lemma DottedFields(a: Int32, b: Int32, c: Int32)
    ensures Fields(IntText(a as int) + "." + IntText(b as int) + "." + IntText(c as int), '.') ==
      [IntText(a as int), IntText(b as int), IntText(c as int)]
  {
    NoDot(a as int);
    NoDot(b as int);
    NoDot(c as int);
    ThreeFields(IntText(a as int), IntText(b as int), IntText(c as int), '.');
  }

  /** Reads a decimal rendering back into an `int`, if it is one and in range. */
  function ParseInt32(s: string): (r: Option<Int32>)
  {
    match ParseInt(s)
    case None => None
    case Some(x) => if -0x8000_0000 <= x < 0x8000_0000 then Some(x as Int32) else None
  }

  /** Reads a version text of the given shape back into the values it prints. */
  function ParseVersion(shape: Shape, s: string): Option<Version>
  {
    match shape
    case DottedDecimal =>
      var f := Fields(s, '.');
      if |f| != 3 || ParseInt32(f[0]).None? || ParseInt32(f[1]).None? || ParseInt32(f[2]).None? then None
      else Some(Dotted(ParseInt32(f[0]).value, ParseInt32(f[1]).value, ParseInt32(f[2]).value))
    case SingleDecimal =>
      if ParseInt32(s).None? then None else Some(Decimal(ParseInt32(s).value))
    case SingleHex =>
      if ParseHex(s).None? then None else Some(Hex(ParseHex(s).value))
  }

  /** `std::string( 80, '#' )` */
  function Rule(): (r: string)
    ensures |r| == 80 && forall i :: 0 <= i < |r| ==> r[i] == '#'
  {
    seq(80, _ => '#')
  }

  /** What one call of `horizontal_seperator` writes: "\n", the rule, "\n", then `std::endl`. */
  function Separator(): (r: string)
    ensures |r| == 83
  {
    "\n" + Rule() + "\n" + "\n"
  }

  /** The separator is a blank line, the rule, and another blank line, and nothing else. */
  lemma SeparatorLines()
    ensures Lines(Separator()) == ["", Rule(), ""]
  {
    SeparatorJoin();
    LinesJoinLines(["", Rule(), ""]);
  }

  lemma SeparatorJoin()
    ensures Separator() == JoinLines(["", Rule(), ""])
  {
    assert JoinLines([Rule(), ""]) == Rule() + "\n" + "\n";
  }

  const Claim: string := "Compiled with "

  /**
   * The identification line without its newline: it opens with "Compiled with "
   * and the vendor's name, and closes with the version text.
   */
  function Headline(v: Vendor, ver: Version): (r: string)
    ensures '\n' !in r
    ensures |r| == |Claim| + |Label(v)| + |" version "| + |VersionText(ver)|
    ensures r[..|Claim|] == Claim
    ensures r[|Claim|..|Claim| + |Label(v)|] == Label(v)
    ensures r[|Claim| + |Label(v)|..|r| - |VersionText(ver)|] == " version "
    ensures r[|r| - |VersionText(ver)|..] == VersionText(ver)
  {
    var name := Label(v);
    var text := VersionText(ver);
    assert '\n' !in Claim && '\n' !in " version ";
    Claim + name + " version " + text
  }

  /** The chunk a matched branch writes: the identification line, ended by `std::endl`. */
  function IdentificationChunk(v: Vendor, ver: Version): string
  {
    Headline(v, ver) + "\n"
  }

  /** The first two letters of the vendor names already tell the vendors apart. */
  lemma LabelStemInjective(v: Vendor, w: Vendor)
    requires |Label(v)| >= 2 && |Label(w)| >= 2
    requires Label(v)[0] == Label(w)[0] && Label(v)[1] == Label(w)[1]
    ensures v == w
  {
  }

  /** Two identification lines that agree name the same vendor. */
  lemma HeadlineVendor(v: Vendor, a: Version, w: Vendor, b: Version)
    requires Headline(v, a) == Headline(w, b)
    ensures v == w
  {
    HeadlineStem(v, a);
    HeadlineStem(w, b);
    LabelStemInjective(v, w);
  }

  /** The two letters after "Compiled with " are the first two of the vendor's name. */
  lemma HeadlineStem(v: Vendor, ver: Version)
    ensures |Headline(v, ver)| >= |Claim| + 2 && |Label(v)| >= 2
    ensures Headline(v, ver)[|Claim|] == Label(v)[0]
    ensures Headline(v, ver)[|Claim| + 1] == Label(v)[1]
  {
    var h, x, k := Headline(v, ver), Label(v), |Claim|;
    assert h[k..k + |x|] == x;
    assert x[0] == h[k..k + |x|][0] == h[k];
    assert x[1] == h[k..k + |x|][1] == h[k + 1];
  }

  /**
   * The identification line names one vendor and, read in that vendor's shape,
   * one version: two branches that print the same line print the same report.
   */
  lemma HeadlineDetermines(v: Vendor, a: Version, w: Vendor, b: Version)
    requires VersionShape(a) == ShapeOf(v) && VersionShape(b) == ShapeOf(w)
    requires Headline(v, a) == Headline(w, b)
    ensures v == w && a == b
  {
    HeadlineVendor(v, a, w, b);
    var h := Headline(v, a);
    assert VersionText(a) == h[|h| - |VersionText(a)|..] == VersionText(b);
    ParseVersionText(a);
    ParseVersionText(b);
  }

  /** A matched branch writes exactly one line: the headline. */
  lemma IdentificationChunkLines(v: Vendor, ver: Version)
    ensures Lines(IdentificationChunk(v, ver)) == [Headline(v, ver)]
  {
    assert IdentificationChunk(v, ver) == JoinLines([Headline(v, ver)]);
    LinesJoinLines([Headline(v, ver)]);
  }

  const UnknownCompiler: string := "Unknown compiler!"

  /** The lines `main` shows on standard output for a branch: seven for a match, six otherwise. */
  function ReportLines(b: Branch): (r: seq<string>)
    ensures |r| == if b.Identified? then 7 else 6
    ensures r[..3] == ["", Rule(), ""] && r[|r| - 3..] == ["", Rule(), ""]
    ensures b.Identified? ==> r[3] == Headline(b.vendor, b.version)
  {
    ["", Rule(), ""] + (if b.Identified? then [Headline(b.vendor, b.version)] else []) + ["", Rule(), ""]
  }

  predicate IsPrefix(p: string, s: string) {
    |p| <= |s| && s[..|p|] == p
  }

  /** `horizontal_seperator()`: appends the separator to standard output. */
  method HorizontalSeparator(stdout: seq<string>, ghost shown: seq<string>) returns (stdout': seq<string>)
    ensures stdout' == stdout + [Separator()]
    ensures Flatten(stdout) == JoinLines(shown) ==> Flatten(stdout') == JoinLines(shown + ["", Rule(), ""])
  {
    stdout' := stdout + [Separator()];
    SeparatorJoin();
    FlattenAppend(stdout, Separator());
    JoinLinesAppend(shown, ["", Rule(), ""]);
  }

  /** Joined runs of lines, written one after another, show those lines in order. */
  lemma ThreeRuns(x: string, y: string, xs: seq<string>, ys: seq<string>)
    requires x == JoinLines(xs) && y == JoinLines(ys)
    ensures Flatten([x, y, x]) == JoinLines(xs + ys + xs)
  {
    JoinLinesAppend(xs, ys);
    JoinLinesAppend(xs + ys, xs);
    assert [x, y, x][1..][1..] == [x];
  }

  lemma TwoRuns(x: string, xs: seq<string>)
    requires x == JoinLines(xs)
    ensures Flatten([x, x]) == JoinLines(xs + xs)
  {
    JoinLinesAppend(xs, xs);
    assert [x, x][1..] == [x];
  }

  /** The chunks on standard output run together into exactly the report's lines. */
  lemma ReportText(b: Branch, stdout: seq<string>)
    requires b.Identified? ==> stdout == [Separator(), IdentificationChunk(b.vendor, b.version), Separator()]
    requires b.Unknown? ==> stdout == [Separator(), Separator()]
    ensures Lines(Flatten(stdout)) == ReportLines(b)
  {
    if b.Identified? {
      IdentifiedReportText(b.vendor, b.version);
    } else {
      UnknownReportText();
    }
  }

  lemma IdentifiedReportText(v: Vendor, ver: Version)
    ensures Lines(Flatten([Separator(), IdentificationChunk(v, ver), Separator()])) ==
      ReportLines(Identified(v, ver))
  {
    var h := Headline(v, ver);
    SeparatorJoin();
    assert IdentificationChunk(v, ver) == JoinLines([h]);
    FramedLine(Separator(), ["", Rule(), ""], IdentificationChunk(v, ver), h);
  }

  /** A line written between two copies of a block of lines shows exactly those lines. */
  lemma FramedLine(s: string, sep: seq<string>, c: string, h: string)
    requires s == JoinLines(sep) && c == JoinLines([h])
    requires '\n' !in h && forall i :: 0 <= i < |sep| ==> '\n' !in sep[i]
    ensures Lines(Flatten([s, c, s])) == sep + [h] + sep
  {
    ThreeRuns(s, c, sep, [h]);
    FramedLineSingleLines(sep, h);
    LinesJoinLines(sep + [h] + sep);
  }

  lemma FramedLineSingleLines(sep: seq<string>, h: string)
    requires '\n' !in h && forall i :: 0 <= i < |sep| ==> '\n' !in sep[i]
    ensures var all := sep + [h] + sep; forall i :: 0 <= i < |all| ==> '\n' !in all[i]
  {
    var all := sep + [h] + sep;
    forall i | 0 <= i < |all| ensures '\n' !in all[i] {
      if i < |sep| {
        assert all[i] == sep[i];
      } else if i > |sep| {
        assert all[i] == sep[i - |sep| - 1];
      }
    }
  }

  lemma UnknownReportText()
    ensures Lines(Flatten([Separator(), Separator()])) == ReportLines(Unknown)
  {
    var sep := ["", Rule(), ""];
    SeparatorJoin();
    TwoRuns(Separator(), sep);
    assert ReportLines(Unknown) == sep + sep;
    LinesJoinLines(sep + sep);
  }

  /** One run of the built program: the chunks on each stream and the exit status. */
  datatype Execution = Execution(stdout: seq<string>, stderr: seq<string>, exitStatus: int)

  /** What a run of the program compiled with branch `b` writes and returns. */
  function Expected(b: Branch): Execution
  {
    if b.Identified? then
      Execution([Separator(), IdentificationChunk(b.vendor, b.version), Separator()], [], 0)
    else
      Execution([Separator(), Separator()], [UnknownCompiler + "\n"], 1)
  }

  /**
   * The body of `main` once the preprocessor has chosen branch `b`: the
   * exit status starts at 0 and only the `#else` branch sets it to 1.
   */
  method RunMain(b: Branch) returns (stdout: seq<string>, stderr: seq<string>, exitStatus: int)
    ensures exitStatus == (if b.Identified? then 0 else 1)
    ensures Execution(stdout, stderr, exitStatus) == Expected(b)
    ensures Lines(Flatten(stdout)) == ReportLines(b)
    ensures Lines(Flatten(stderr)) == if b.Identified? then [] else [UnknownCompiler]
  {
    exitStatus := 0;
    stdout, stderr := [], [];
    stdout := HorizontalSeparator(stdout, []);
    match b {
      case Identified(v, ver) =>
        stdout := stdout + [IdentificationChunk(v, ver)];
      case Unknown =>
        stderr := stderr + [UnknownCompiler + "\n"];
        exitStatus := 1;
    }
    stdout := HorizontalSeparator(stdout, []);
    ReportText(b, stdout);
    LinesJoinLines(if b.Identified? then [] else [UnknownCompiler]);
  }

  /** The 80-`#` rule appears on exactly two of the report's lines, on every path. */
  lemma RuleTwice(b: Branch)
    ensures multiset(ReportLines(b))[Rule()] == 2
  {
    var sep := ["", Rule(), ""];
    assert Rule() != "";
    if b.Identified? {
      var h := Headline(b.vendor, b.version);
      assert h[0] == 'C' && Rule()[0] == '#';
      assert ReportLines(b) == sep + [h] + sep;
      assert multiset(sep + [h] + sep) == multiset(sep) + multiset([h]) + multiset(sep);
    } else {
      assert ReportLines(b) == sep + sep;
      assert multiset(sep + sep) == multiset(sep) + multiset(sep);
    }
  }

  /** A line claiming a vendor appears exactly when a guard matched, and then as the fourth line. */
  lemma ClaimIffIdentified(b: Branch)
    ensures (exists i :: 0 <= i < |ReportLines(b)| && IsPrefix(Claim, ReportLines(b)[i])) <==> b.Identified?
    ensures b.Identified? ==> |ReportLines(b)| == 7 && ReportLines(b)[3] == Headline(b.vendor, b.version)
    ensures b.Unknown? ==> |ReportLines(b)| == 6
  {
    var lines := ReportLines(b);
    if b.Identified? {
      var h := Headline(b.vendor, b.version);
      assert lines[3] == h;
      assert h[..|Claim|] == Claim;
    } else {
      forall i | 0 <= i < |lines| ensures !IsPrefix(Claim, lines[i]) {
        assert lines[i] == "" || lines[i] == Rule();
        if lines[i] == Rule() {
          assert Rule()[0] != Claim[0];
        }
      }
    }
  }


  /**
   * Building the program in environment `env` and running it. A build that
   * fails produces no program, hence no output at all.
   */
  method BuildAndRun(env: Env) returns (r: Result<Execution, CompileError>)
    ensures r == match Build(env) case Err(e) => Err(e) case Ok(b) => Ok(Expected(b))
    ensures r.Ok? ==> (r.value.exitStatus == 0 <==> exists v :: Matches(v, env))
    ensures r.Ok? ==> (r.value.exitStatus == 1 <==> forall v :: !Matches(v, env))
    ensures r.Ok? ==> Lines(Flatten(r.value.stdout)) == ReportLines(Build(env).value)
    ensures r.Ok? && Detect(env).Some? ==>
      var v := Detect(env).value;
      r.value.stderr == [] && ReadVersion(v, env).Ok? &&
      Lines(Flatten(r.value.stdout))[3] == Headline(v, ReadVersion(v, env).value)
    ensures r.Ok? && Detect(env).None? ==> Lines(Flatten(r.value.stderr)) == [UnknownCompiler]
  {
    DetectNoneIffNoGuard(env);
    match Build(env) {
      case Err(e) =>
        r := Err(e);
      case Ok(b) =>
        var stdout, stderr, status := RunMain(b);
        ClaimIffIdentified(b);
        r := Ok(Execution(stdout, stderr, status));
    }
  }
}
