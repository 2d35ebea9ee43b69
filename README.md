# cppversion — a verified model of the compiler-identification report

`cppversion.cpp` is a one-file diagnostic program: at compile time a chain of
`#if defined(...) / #elif` tests picks the first known compiler vendor whose
identification macros are predefined, and at run time `main` prints a report
naming that vendor and its version between two separator rules, or writes
"Unknown compiler!" to standard error and exits with status 1.

This project models that program in Dafny:

- **Build environment.** The predefined macros are a `map<string, Int32>` from
  symbol name to the C++ `int` value it expands to; a symbol is defined when it
  is a key of the map (`Detection.Env`).
- **Decision table.** `Detection.Detect` is the `#if/#elif` chain: eight guards
  tested in the order Clang, Intel, GNU, HP, IBM, MSVC, PGI, Sun, first match
  wins. `Detection.ReadVersion` and `Detection.Build` model compiling the
  selected branch: the branch names some symbols in ordinary code to print
  them, so if the environment lacks one of those the program does not compile
  (an undeclared identifier), which the model returns as a `CompileError`.
- **Rendering.** `Numerals` renders an `int` as `std::ostream` does: decimal
  with a minus sign, or after `std::hex` the lower-case hexadecimal digits of
  its 32-bit two's-complement pattern with no `0x` prefix. Every renderer has a
  parser, and the round trips are proved, so each printed text determines the
  values it was printed from.
- **Report.** `Report.RunMain` is the body of `main`: it appends chunks to
  standard-output and standard-error buffers (`seq<string>`, one chunk per
  output statement) and returns the exit status. `TextLines` splits what the
  buffers hold into the lines a terminal shows. `Report.BuildAndRun` composes
  building and running.
- **Scenarios.** `Scenarios` states the tie-breaks, the branches whose guard
  accepts a symbol other than the one they print, and the reports of a few
  known compiler releases.

Where the code and a plain reading of the program's purpose differ, the model
follows the code:

- The Intel, GNU, HP, IBM and Sun guards each accept either of two symbols, but
  the branch prints fixed symbols: `__GNUG__` alone selects the GNU branch,
  which prints `__GNUC__`, `__GNUC_MINOR__` and `__GNUC_PATCHLEVEL__`. The MSVC guard tests `_MSC_VER` but prints
  `_MSC_FULL_VER`. So an environment that defines only the other symbol selects
  the branch and then fails to build. The model reports this as
  `Err(Undeclared(...))`; it is not a run-time failure.
- The Solaris version is printed in hexadecimal without a `0x` prefix. A
  negative value shows its 32-bit two's-complement pattern.

## Model

| member | source | states |
|---|---|---|
| Detection.Rank | cppversion.cpp:54-76 | each vendor's position in the chain; the priority list at that position is that vendor |
| Detection.Matches | cppversion.cpp:54-75 | a vendor's guard holds exactly when one of the symbols its `defined(...)` tests name is defined: `__clang__`; `__ICC` or `__INTEL_COMPILER`; `__GNUC__` or `__GNUG__`; `__HP_cc` or `__HP_aCC`; `__IBMC__` or `__IBMCPP__`; `_MSC_VER`; `__PGI`; `__SUNPRO_C` or `__SUNPRO_CC` |
| Detection.Detect | cppversion.cpp:54-82 | a detected vendor's guard holds in the environment |
| Detection.DetectIsFirstMatch | cppversion.cpp:54-77 | `Detect` yields vendor v exactly when v's guard holds and no guard earlier in the order Clang, Intel, GNU, HP, IBM, MSVC, PGI, Sun holds (both directions) |
| Detection.EarlierGuardsFail | cppversion.cpp:54-76 | no guard ranked before the detected vendor holds |
| Detection.DetectNoneIffNoGuard | cppversion.cpp:54-82 | the `#else` branch is reached exactly when none of the eight guards holds |
| Detection.ValueSymbols | cppversion.cpp:55-76 | each branch prints one or three symbols, none of them twice |
| Detection.ShapeOf | cppversion.cpp:55-76 | a branch prints a dotted triple exactly when it prints three symbols, and a single value otherwise; only the Solaris Studio branch prints hexadecimal |
| Detection.Lookup | cppversion.cpp:55-76 | the printed values are the environment's values of the printed symbols, in order |
| Detection.Missing | cppversion.cpp:55-76 | lists exactly the printed symbols the environment lacks: every listed name is printed and undefined, and every printed, undefined name is listed; empty iff all are defined |
| Detection.ReadVersion | cppversion.cpp:55-76 | a branch compiles iff every symbol it prints is defined; otherwise the error names every undefined printed symbol and no other, in the order printed; on success the version has the vendor's shape and holds the printed symbols' values in order |
| Detection.MissingNone | cppversion.cpp:55-76 | when none of the printed symbols is defined, all of them are reported, in order |
| Detection.Build | cppversion.cpp:54-82 | no matching guard gives the `#else` branch, which compiles and only arises when no guard holds; otherwise the first-matching vendor's branch with its version, or that branch's compile error |
| Numerals.IntText | cppversion.cpp:55 | decimal rendering of an `int`: non-empty, digits and minus sign only, with a minus sign iff the value is negative, and no leading zero except for the value 0 itself |
| Numerals.ParseIntText | cppversion.cpp:55 | parsing the decimal rendering gives back the value |
| Numerals.IntTextInjective | cppversion.cpp:55 | distinct values print differently in decimal |
| Numerals.Unsigned | cppversion.cpp:76 | the 32-bit two's-complement pattern of an `int`, read as unsigned |
| Numerals.HexText | cppversion.cpp:76 | `std::hex` rendering: non-empty, hexadecimal digits only, no upper-case letters, and no leading zero except for the value 0 itself |
| Numerals.ParseHexText | cppversion.cpp:76 | parsing the hexadecimal rendering gives back the `int`; for a non-negative value, the digits spell the value itself |
| Numerals.HexTextInjective | cppversion.cpp:76 | distinct values print differently in hexadecimal |
| Report.Label | cppversion.cpp:55-76 | the vendor name each branch prints; contains no newline and has at least two characters |
| Report.LabelInjective | cppversion.cpp:55-76 | distinct vendors print distinct names |
| Report.VersionText | cppversion.cpp:55-76 | the version text: dotted decimal triple, single decimal or hexadecimal; never contains a newline |
| Report.ParseVersionText | cppversion.cpp:55-76 | reading the version text back in its shape recovers exactly the printed values |
| Report.ParseDottedText | cppversion.cpp:55-73 | reading a dotted triple back recovers its three values |
| Report.ParseInt32Text | cppversion.cpp:55 | reading an `int`'s decimal rendering back as an `int` gives the value |
| Report.Rule | cppversion.cpp:40 | `std::string(80, '#')` is 80 `#` characters |
| Report.Separator | cppversion.cpp:39-41 | one separator is 83 characters long |
| Report.SeparatorLines | cppversion.cpp:39-41 | the separator shows as a blank line, the 80-`#` rule and another blank line, and nothing else |
| Report.HorizontalSeparator | cppversion.cpp:39-41 | appends exactly one separator to standard output; on line-terminated output it adds those three lines |
| Report.Headline | cppversion.cpp:55-76 | the identification line: starts with "Compiled with " followed by the vendor's name, ends with the version text, is exactly that long with " version " between them, and has no newline |
| Report.HeadlineStem | cppversion.cpp:55-76 | the two characters after "Compiled with " are the first two of the vendor's name |
| Report.LabelStemInjective | cppversion.cpp:55-76 | the first two characters of the vendor names already tell the eight vendors apart |
| Report.HeadlineVendor | cppversion.cpp:55-76 | two equal identification lines name the same vendor |
| Report.HeadlineDetermines | cppversion.cpp:55-76 | the identification line determines the vendor and, read in that vendor's shape, the printed version values |
| Report.ReportLines | cppversion.cpp:52-84 | the lines on standard output are seven for a matched branch and six otherwise; the first three and the last three are a blank line, the rule and a blank line; on a match the fourth line is the identification line |
| Report.IdentificationChunkLines | cppversion.cpp:55-76 | the chunk a matched branch writes (`IdentificationChunk`, the headline followed by `std::endl`'s newline) shows as exactly one line, `Compiled with <label> version <text>` |
| Report.ReportText | cppversion.cpp:52-84 | the standard-output chunks of either path show exactly the report's lines |
| Report.RunMain | cppversion.cpp:49-87 | the buffers and status equal `Expected(b)`, the specification of one run: exit status 0 for a matched branch and 1 for the `#else` branch; standard output is separator, identification line, separator (or two separators); standard error is empty, or the single line "Unknown compiler!" |
| Report.RuleTwice | cppversion.cpp:52-84 | on every path the 80-`#` rule is exactly two of the lines shown on standard output |
| Report.ClaimIffIdentified | cppversion.cpp:52-84 | a "Compiled with" line appears on standard output iff a guard matched; it is then the fourth of seven lines; otherwise there are six lines |
| Report.BuildAndRun | cppversion.cpp:49-87 | the outcome is a function of the environment alone (the build's compile error, or `Expected` of the built branch); exit status 0 iff some guard holds and 1 iff none does; the fourth line names the first-matching vendor and its version; "Unknown compiler!" on standard error when nothing matched; a build failure produces no run |
| Scenarios.ClangBeforeGnu | cppversion.cpp:54-61 | with both `__clang__` and `__GNUC__` defined, Clang is reported |
| Scenarios.IntelBeforeGnu | cppversion.cpp:54-61 | with `__INTEL_COMPILER` and `__GNUC__` defined and no Clang, Intel is reported |
| Scenarios.SingleValueBranch | cppversion.cpp:57-76 | a single-value branch prints its one fixed symbol, in hexadecimal for Sun and decimal otherwise, and does not build without it |
| Scenarios.MsvcPrintsFullVersion | cppversion.cpp:69-70 | the MSVC branch is guarded on `_MSC_VER` and prints `_MSC_FULL_VER`, failing to build without it |
| Scenarios.GnugOnly | cppversion.cpp:60-61 | selected by `__GNUG__` without `__GNUC__`, the GNU branch fails to build and names `__GNUC__`; with the minor and patch-level symbols absent too, it names all three in order |
| Scenarios.IntelCompilerOnly | cppversion.cpp:57-58 | selected by `__INTEL_COMPILER` alone, the Intel branch fails to build on `__ICC` |
| Scenarios.HpAccOnly | cppversion.cpp:63-64 | selected by `__HP_aCC` alone, the HP branch fails to build on `__HP_cc` |
| Scenarios.IbmCOnly | cppversion.cpp:66-67 | selected by `__IBMC__` alone, the IBM branch fails to build on `__IBMCPP__` |
| Scenarios.SunCOnly | cppversion.cpp:75-76 | selected by `__SUNPRO_C` alone, the Solaris branch fails to build on `__SUNPRO_CC` |
| Scenarios.GnuRelease | cppversion.cpp:60-61 | GCC 11.4.0 builds the GNU branch and reports `Compiled with GNU GCC/G++ version 11.4.0` |
| Scenarios.MsvcRelease | cppversion.cpp:69-70 | full version 192930133 is reported as `Compiled with Microsoft Visual Studio version 192930133` |
| Scenarios.SunRelease | cppversion.cpp:75-76 | code 0x5150 is reported as `5150`, not as its decimal `20816` |
| Scenarios.NegativeHex | cppversion.cpp:76 | a negative code shows its two's-complement pattern, `-1` as `ffffffff` |

## Left out

- The `SYSTEMC` entry-point variant (`sc_main` instead of `main`): it changes only how the host calls the program, not what it does.
- Standard output and standard error are separate buffers, so the model does not record the order of writes across the two streams. In particular, it does not state that "Unknown compiler!" is written between the two separators.
- Real stream I/O: `std::endl` flushing is not modelled. Each stream is a sequence of written chunks, one per output statement, rather than one per `<<`.
- `std::hex` stays in effect after the Solaris line, but nothing numeric is printed after it, so that state is not modelled.
- `version.cpp` is not part of this model. It only prints the text of `cppversion.hpp` and `osversion.hpp` between separators, and neither of those files is part of this model.
- The shell commands in the trailing comment are build instructions, not program logic.
- Which compilers predefine which macros is not modelled. The environment is an input.
- Macro values are modelled as C++ `int` values. The preprocessor's own integer arithmetic and non-integer macro expansions are not modelled.
- Report.Separator: its own contract gives only the length; the exact lines are stated by Report.SeparatorLines.
