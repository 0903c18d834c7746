/** Number fields as the server reads them: size_t arithmetic wraps at 2^64. */
module Numbers {

  const MOD64: nat := 0x1_0000_0000_0000_0000
  const LONG_MAX: int := 0x7FFF_FFFF_FFFF_FFFF
  const LONG_MIN: int := -0x8000_0000_0000_0000

  // ------------------------------------------------------------------ hex

  function HexDigit(c: char): (d: int)
    ensures -1 <= d < 16
  {
    if '0' <= c <= '9' then c as int - '0' as int
    else if 'a' <= c <= 'f' then 10 + (c as int - 'a' as int)
    else if 'A' <= c <= 'F' then 10 + (c as int - 'A' as int)
    else -1
  }

  /** The digits, in either case, and no other character. */
  lemma HexDigitExactly(c: char, d: nat)
    requires d < 16
    ensures HexDigit(c) == d <==> c == "0123456789abcdef"[d] || c == "0123456789ABCDEF"[d]
  {
  }

  predicate IsHex(s: string) {
    forall i :: 0 <= i < |s| ==> HexDigit(s[i]) >= 0
  }

  /** The number a string of hex digits denotes, with no bound on its size. */
  function HexValue(s: string): nat
    requires IsHex(s)
  {
    if s == "" then 0 else 16 * HexValue(s[..|s| - 1]) + HexDigit(s[|s| - 1])
  }

  lemma WrapMultiple(k: nat, y: nat)
    ensures (y + k * MOD64) % MOD64 == y % MOD64
  {
  }

  lemma WrapStep(x: nat, d: nat)
    ensures (16 * x + d) % MOD64 == (x % MOD64 * 16 % MOD64 + d) % MOD64
  {
    var q, m := x / MOD64, x % MOD64;
    var q2, m2 := m * 16 / MOD64, m * 16 % MOD64;
    assert 16 * x + d == (m2 + d) + (16 * q + q2) * MOD64;
    WrapMultiple(16 * q + q2, m2 + d);
  }

  /** One size_t step of the accumulating loop agrees with the unbounded value modulo 2^64. */
  lemma HexStep(s: string, i: nat)
    requires IsHex(s) && i < |s|
    ensures HexValue(s[..i + 1]) == 16 * HexValue(s[..i]) + HexDigit(s[i])
    ensures HexValue(s[..i + 1]) % MOD64 == (HexValue(s[..i]) % MOD64 * 16 % MOD64 + HexDigit(s[i])) % MOD64
  {
    assert s[..i + 1][..i] == s[..i];
    WrapStep(HexValue(s[..i]), HexDigit(s[i]));
  }

  function HexChar(d: nat, upper: bool): (c: char)
    requires d < 16
    ensures HexDigit(c) == d
  {
    if d < 10 then ('0' as int + d) as char
    else if upper then ('A' as int + d - 10) as char
    else ('a' as int + d - 10) as char
  }

  /** The shortest hex numeral, in either case. */
  function HexOf(n: nat, upper: bool): (s: string)
    ensures s != "" && IsHex(s) && HexValue(s) == n
  {
    if n < 16 then
      assert [HexChar(n, upper)][..0] == "";
      [HexChar(n, upper)]
    else
      var s := HexOf(n / 16, upper) + [HexChar(n % 16, upper)];
      assert s[..|s| - 1] == HexOf(n / 16, upper);
      s
  }

  /** HTTPRequest::parse_hex_string: the numeral is checked first, then accumulated. */
  method ParseHexString(s: string) returns (ok: bool, out: nat)
    ensures ok <==> IsHex(s)
    ensures ok ==> out == HexValue(s) % MOD64
  {
    out := 0;
    for i := 0 to |s|
      invariant IsHex(s[..i])
    {
      if HexDigit(s[i]) < 0 {
        return false, 0;
      }
    }
    assert s[..|s|] == s;
    for i := 0 to |s|
      invariant out == HexValue(s[..i]) % MOD64
    {
      HexStep(s, i);
      out := (out * 16 % MOD64 + HexDigit(s[i])) % MOD64;
    }
    ok := true;
  }

  // -------------------------------------------------------------- decimal

  predicate IsDigit(c: char) {
    '0' <= c <= '9'
  }

  predicate IsSpace(c: char) {
    c == ' ' || '\t' <= c <= '\r'
  }

  /** Continue a decimal numeral already read as `acc` over the leading digits of `s`. */
  function Digits(s: string, acc: nat): nat {
    if s != "" && IsDigit(s[0]) then Digits(s[1..], 10 * acc + (s[0] as int - '0' as int)) else acc
  }

  function SkipSpaces(s: string): string {
    if s != "" && IsSpace(s[0]) then SkipSpaces(s[1..]) else s
  }

  function Clamp(n: int): int {
    if n > LONG_MAX then LONG_MAX else if n < LONG_MIN then LONG_MIN else n
  }

  /** atol: leading white space, an optional sign, digits; anything after is ignored. */
  function Atol(s: string): int {
    var t := SkipSpaces(s);
    if t != "" && t[0] == '-' then Clamp(0 - Digits(t[1..], 0))
    else if t != "" && t[0] == '+' then Clamp(Digits(t[1..], 0))
    else Clamp(Digits(t, 0))
  }

  /** static_cast<size_t>(atol(s)). */
  function AtolSize(s: string): nat {
    Atol(s) % MOD64
  }

  function DecOf(n: nat): (s: string)
    ensures s != "" && forall i :: 0 <= i < |s| ==> IsDigit(s[i])
  {
    var d := ('0' as int + n % 10) as char;
    if n < 10 then [d] else DecOf(n / 10) + [d]
  }

  lemma {:induction false} DigitsAppend(a: string, b: string, acc: nat)
    requires forall i :: 0 <= i < |a| ==> IsDigit(a[i])
    ensures Digits(a + b, acc) == Digits(b, Digits(a, acc))
    decreases |a|
  {
    if a == "" {
      assert a + b == b;
    } else {
      assert (a + b)[1..] == a[1..] + b;
      DigitsAppend(a[1..], b, 10 * acc + (a[0] as int - '0' as int));
    }
  }

  lemma {:induction false} DigitsOfDec(n: nat)
    ensures Digits(DecOf(n), 0) == n
  {
    var d := ('0' as int + n % 10) as char;
    assert Digits([d], n / 10) == n;
    if n >= 10 {
      DigitsOfDec(n / 10);
      DigitsAppend(DecOf(n / 10), [d], 0);
    }
  }

  /** A printed length below 2^63 is read back exactly. */
  lemma AtolOfDec(n: nat)
    requires n <= LONG_MAX
    ensures AtolSize(DecOf(n)) == n
  {
    DigitsOfDec(n);
    assert IsDigit(DecOf(n)[0]);
    assert SkipSpaces(DecOf(n)) == DecOf(n);
  }

  /** The white space of isspace in the C locale. */
  predicate White(s: string) {
    forall i :: 0 <= i < |s| ==> s[i] in " \t\n\r" || s[i] as int == 11 || s[i] as int == 12
  }

  lemma {:induction false} SkipsWhite(space: string, rest: string)
    requires White(space) && (rest == "" || !IsSpace(rest[0]))
    ensures SkipSpaces(space + rest) == rest
    decreases |space|
  {
    if space == "" {
      assert space + rest == rest;
    } else {
      assert IsSpace(space[0]) && (space + rest)[1..] == space[1..] + rest;
      SkipsWhite(space[1..], rest);
    }
  }

  /** A numeral is read behind white space and up to the first other character; `long` is the bound. */
  lemma AtolReads(space: string, n: nat, rest: string)
    requires White(space) && (rest == "" || !('0' <= rest[0] <= '9'))
    ensures Atol(space + (DecOf(n) + rest)) == Atol(space + ("+" + (DecOf(n) + rest)))
         == if n < 0x8000_0000_0000_0000 then n else 0x7FFF_FFFF_FFFF_FFFF
    ensures Atol(space + ("-" + (DecOf(n) + rest))) == if n <= 0x8000_0000_0000_0000 then 0 - n else LONG_MIN
  {
    hide DecOf;
    var digits := DecOf(n) + rest;
    assert IsDigit(digits[0]);
    SkipsWhite(space, digits);
    SkipsWhite(space, "+" + digits);
    SkipsWhite(space, "-" + digits);
    assert ("+" + digits)[1..] == digits && ("-" + digits)[1..] == digits;
    DigitsAppend(DecOf(n), rest, 0);
    DigitsOfDec(n);
  }
}
