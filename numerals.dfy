/**
 * How `std::ostream` renders an `int`: decimal with a leading minus sign for
 * negative values, or, after `std::hex`, the lower-case hexadecimal digits of
 * the value's 32-bit two's-complement pattern, without a `0x` prefix.
 * Each renderer has a parser beside it, and the round trips are proved.
 */
module Numerals {
  import opened Wrappers

  /** The C++ `int` of the platforms the program targets: 32-bit signed. */
  newtype Int32 = x: int | -0x8000_0000 <= x < 0x8000_0000

  const TwoTo32: nat := 0x1_0000_0000

  predicate ValidBase(base: nat) {
    2 <= base <= 16
  }

  /** The value of digit character `c` in `base`, if it is one. */
  function DigitValue(c: char, base: nat): (r: Option<nat>)
    requires ValidBase(base)
    ensures r.Some? ==> r.value < base
  {
    var d: int :=
      if '0' <= c <= '9' then c as int - '0' as int
      else if 'a' <= c <= 'f' then c as int - 'a' as int + 10
      else base;
    if d < base then Some(d) else None
  }

  /** The lower-case digit character for `d`. */
  function DigitChar(d: nat, base: nat): (c: char)
    requires ValidBase(base) && d < base
    ensures DigitValue(c, base) == Some(d)
  {
    if d < 10 then ('0' as int + d) as char else ('a' as int + d - 10) as char
  }

  predicate IsDigits(s: string, base: nat)
    requires ValidBase(base)
  {
    forall i :: 0 <= i < |s| ==> DigitValue(s[i], base).Some?
  }

  /** The digits of `n` in `base`, most significant first, without leading zeros. */
  function NatText(n: nat, base: nat): (r: string)
    requires ValidBase(base)
    ensures |r| >= 1 && IsDigits(r, base)
    ensures r[0] == '0' ==> n == 0
    decreases n
  {
    if n < base then [DigitChar(n, base)]
    else NatText(n / base, base) + [DigitChar(n % base, base)]
  }

  /** Reads a non-empty string of digits in `base`; anything else is rejected. */
  function ParseNat(s: string, base: nat): (r: Option<nat>)
    requires ValidBase(base)
    ensures r.Some? ==> s != [] && IsDigits(s, base)
    decreases |s|
  {
    if s == [] then None
    else
      var last := DigitValue(s[|s| - 1], base);
      if last.None? then None
      else if |s| == 1 then last
      else
        match ParseNat(s[..|s| - 1], base)
        case None => None
        case Some(p) => Some(p * base + last.value)
  }

  /** Appending a digit to a parsed string shifts its value by one place. */
  lemma ParseNatSnoc(t: string, c: char, base: nat, p: nat, d: nat)
    requires ValidBase(base)
    requires ParseNat(t, base) == Some(p) && DigitValue(c, base) == Some(d)
    ensures ParseNat(t + [c], base) == Some(p * base + d)
  {
    var s := t + [c];
    assert s[..|s| - 1] == t;
  }

  /** Euclidean division by the base, the step the digit recursion takes. */
  lemma DivMod(n: nat, base: nat)
    requires ValidBase(base)
    ensures n / base * base + n % base == n && n % base < base
    ensures n >= base ==> n / base < n
  {
  }

  lemma {:induction false} ParseNatText(n: nat, base: nat)
    requires ValidBase(base)
    ensures ParseNat(NatText(n, base), base) == Some(n)
    decreases n
  {
    if n >= base {
      var q, d := n / base, n % base;
      DivMod(n, base);
      ParseNatText(q, base);
      ParseNatSnoc(NatText(q, base), DigitChar(d, base), base, q, d);
      assert NatText(n, base) == NatText(q, base) + [DigitChar(d, base)];
      assert ParseNat(NatText(n, base), base) == Some(q * base + d);
      assert q * base + d == n;
    }
  }

  /** `std::cout << n` for an `int` in the default decimal mode. */
  function IntText(n: int): (r: string)
    ensures |r| >= 1
    ensures forall i :: 0 <= i < |r| ==> r[i] == '-' || '0' <= r[i] <= '9'
    ensures '-' in r <==> n < 0
    ensures n >= 0 && r[0] == '0' ==> n == 0
    ensures n < 0 ==> |r| >= 2 && r[1] != '0'
  {
    if n < 0 then "-" + NatText(-n, 10) else NatText(n, 10)
  }

  function ParseInt(s: string): (r: Option<int>)
  {
    if |s| > 0 && s[0] == '-' then
      match ParseNat(s[1..], 10)
      case None => None
      case Some(m) => Some(-(m as int))
    else
      match ParseNat(s, 10)
      case None => None
      case Some(m) => Some(m)
  }

  lemma ParseIntText(n: int)
    ensures ParseInt(IntText(n)) == Some(n)
  {
    var t := IntText(n);
    if n < 0 {
      assert t == "-" + NatText(-n, 10);
      assert t[1..] == NatText(-n, 10);
      ParseNatText(-n, 10);
    } else {
      assert t == NatText(n, 10);
      assert DigitValue(t[0], 10).Some?;
      ParseNatText(n, 10);
    }
  }

  /** The 32-bit pattern of `n` read as an unsigned number. */
  function Unsigned(n: Int32): (u: nat)
    ensures u < TwoTo32
    ensures n >= 0 ==> u == n as int
    ensures n < 0 ==> u == n as int + TwoTo32
  {
    (n as int) % TwoTo32
  }

  /** `std::cout << std::hex << n` for an `int`. */
  function HexText(n: Int32): (r: string)
    ensures 1 <= |r| && IsDigits(r, 16)
    ensures forall i :: 0 <= i < |r| ==> !('A' <= r[i] <= 'Z')
    ensures r[0] == '0' ==> n == 0
  {
    NatText(Unsigned(n), 16)
  }

  /** Reads hexadecimal digits back into the `int` whose pattern they spell. */
  function ParseHex(s: string): (r: Option<Int32>)
  {
    match ParseNat(s, 16)
    case None => None
    case Some(u) =>
      if u >= TwoTo32 then None
      else if u >= 0x8000_0000 then Some((u - TwoTo32) as Int32)
      else Some(u as Int32)
  }

  lemma ParseHexText(n: Int32)
    ensures ParseHex(HexText(n)) == Some(n)
    ensures n >= 0 ==> ParseNat(HexText(n), 16) == Some(n as int)
  {
    ParseNatText(Unsigned(n), 16);
  }

  /** The decimal rendering of an `int` determines it. */
  lemma IntTextInjective(m: int, n: int)
    requires IntText(m) == IntText(n)
    ensures m == n
  {
    ParseIntText(m);
    ParseIntText(n);
  }

  lemma HexTextInjective(m: Int32, n: Int32)
    requires HexText(m) == HexText(n)
    ensures m == n
  {
    ParseHexText(m);
    ParseHexText(n);
  }
}
