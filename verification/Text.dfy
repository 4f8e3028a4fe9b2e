/** Text encodings used by the node: UTF-8, decimal, hexadecimal and fixed-width
    little-endian integers, each with the fact that it loses nothing. */
module Text {
  import opened MachineInts
  import opened Ordering

  type Byte = x: nat | x < 256
  type Bytes = seq<Byte>

  // ---- Decimal ---------------------------------------------------------------------

  const DIGITS: string := "0123456789"

  predicate IsDigit(c: char) { '0' <= c <= '9' }

  function DigitValue(c: char): nat
    requires IsDigit(c)
  {
    c as int - '0' as int
  }

  /** `to_string` of an unsigned integer. */
  function Dec(n: nat): (s: string)
    ensures |s| > 0 && AllDigits(s) && DigitsValue(s) == n
  {
    if n < 10 then
      assert DigitsValue([DIGITS[n]]) == n by { assert [DIGITS[n]][..0] == []; }
      [DIGITS[n]]
    else
      var s := Dec(n / 10);
      assert (s + [DIGITS[n % 10]])[..|s|] == s;
      s + [DIGITS[n % 10]]
  }

  predicate AllDigits(s: string) { forall i :: 0 <= i < |s| ==> IsDigit(s[i]) }

  function DigitsValue(s: string): nat
    requires AllDigits(s)
  {
    if s == "" then 0 else 10 * DigitsValue(s[..|s| - 1]) + DigitValue(s[|s| - 1])
  }

  lemma DecInjective(a: nat, b: nat)
    requires Dec(a) == Dec(b)
    ensures a == b
  {
    assert a == DigitsValue(Dec(a)) == DigitsValue(Dec(b)) == b;
  }

  /** `parse::<u64>`: an optional plus sign, at least one digit, and no overflow. */
  function ParseU64(s: string): Option<U64>
  {
    var t := if |s| > 1 && s[0] == '+' then s[1..] else s;
    if t == "" || !AllDigits(t) || DigitsValue(t) > U64_MAX then None else Some(DigitsValue(t))
  }

  lemma ParsePrinted(n: U64)
    ensures ParseU64(Dec(n)) == Some(n)
  {
  }

  // ---- Hexadecimal -----------------------------------------------------------------

  const HEX: string := "0123456789abcdef"

  function HexValue(c: char): Option<nat>
  {
    if '0' <= c <= '9' then Some(c as int - '0' as int)
    else if 'a' <= c <= 'f' then Some(c as int - 'a' as int + 10)
    else if 'A' <= c <= 'F' then Some(c as int - 'A' as int + 10)
    else None
  }

  function HexEncode(b: Bytes): string
  {
    if b == [] then "" else [HEX[b[0] / 16], HEX[b[0] % 16]] + HexEncode(b[1..])
  }

  /** `hex::decode`: pairs of digits of either case. */
  function HexDecode(s: string): Option<Bytes>
  {
    if s == "" then Some([])
    else if |s| == 1 then None
    else
      var hi, lo, rest := HexValue(s[0]), HexValue(s[1]), HexDecode(s[2..]);
      if hi.Some? && lo.Some? && rest.Some? && hi.value < 16 && lo.value < 16
      then Some([16 * hi.value + lo.value] + rest.value)
      else None
  }

  lemma HexDigitValue(n: nat)
    requires n < 16
    ensures HexValue(HEX[n]) == Some(n) && HEX[n] != ':'
  {
  }

  lemma {:induction false} HexRoundTrip(b: Bytes)
    ensures HexDecode(HexEncode(b)) == Some(b)
    ensures forall i :: 0 <= i < |HexEncode(b)| ==> HexEncode(b)[i] != ':'
    ensures |HexEncode(b)| == 2 * |b|
  {
    if b != [] {
      var head, rest := b[0], HexEncode(b[1..]);
      HexRoundTrip(b[1..]);
      HexDigitValue(head / 16);
      HexDigitValue(head % 16);
      assert HexEncode(b) == [HEX[head / 16], HEX[head % 16]] + rest;
      HexDecodeCons(head / 16, head % 16, rest);
      assert b == [head] + b[1..];
    }
  }

  lemma HexDecodeCons(hi: nat, lo: nat, rest: string)
    requires hi < 16 && lo < 16
    ensures HexDecode([HEX[hi], HEX[lo]] + rest)
         == if HexDecode(rest).Some? then Some([16 * hi + lo] + HexDecode(rest).value) else None
  {
    var s := [HEX[hi], HEX[lo]] + rest;
    assert |s| > 1 && s[0] == HEX[hi] && s[1] == HEX[lo] && s[2..] == rest;
    HexDigitValue(hi);
    HexDigitValue(lo);
    HexDecodePair(s, hi, lo);
  }

  lemma HexDecodePair(s: string, hi: nat, lo: nat)
    requires |s| > 1 && HexValue(s[0]) == Some(hi) && HexValue(s[1]) == Some(lo) && hi < 16 && lo < 16
    ensures HexDecode(s) == if HexDecode(s[2..]).Some? then Some([16 * hi + lo] + HexDecode(s[2..]).value) else None
  {
  }

  lemma HexInjective(a: Bytes, b: Bytes)
    requires HexEncode(a) == HexEncode(b)
    ensures a == b
  {
    HexRoundTrip(a);
    HexRoundTrip(b);
  }

  // ---- UTF-8 -----------------------------------------------------------------------

  function Utf8Char(c: char): (b: Bytes)
    ensures 1 <= |b| <= 4
  {
    var n := c as int;
    if n < 0x80 then [n]
    else if n < 0x800 then [0xC0 + n / 0x40, 0x80 + n % 0x40]
    else if n < 0x10000 then [0xE0 + n / 0x1000, 0x80 + n / 0x40 % 0x40, 0x80 + n % 0x40]
    else [0xF0 + n / 0x40000, 0x80 + n / 0x1000 % 0x40, 0x80 + n / 0x40 % 0x40, 0x80 + n % 0x40]
  }

  /** The bytes of a string, whose number is `str::len`. */
  function Utf8(s: string): Bytes
  {
    if s == "" then [] else Utf8Char(s[0]) + Utf8(s[1..])
  }

  /** The character code read back from its bytes. */
  function Utf8Value(b: seq<int>): int
    requires 1 <= |b| <= 4
  {
    match |b|
    case 1 => b[0]
    case 2 => (b[0] - 0xC0) * 0x40 + (b[1] - 0x80)
    case 3 => (b[0] - 0xE0) * 0x1000 + (b[1] - 0x80) * 0x40 + (b[2] - 0x80)
    case _ => (b[0] - 0xF0) * 0x40000 + (b[1] - 0x80) * 0x1000 + (b[2] - 0x80) * 0x40 + (b[3] - 0x80)
  }

  lemma Utf8CharValue(c: char)
    ensures Utf8Value(Utf8Char(c)) == c as int
  {
    var n := c as int;
    assert n / 0x1000 == n / 0x40 / 0x40 && n / 0x40000 == n / 0x1000 / 0x40;
  }

  /** The first byte fixes the length of a character's encoding, and the bytes the character. */
  lemma Utf8CharPrefixFree(c: char, d: char, x: Bytes, y: Bytes)
    requires Utf8Char(c) + x == Utf8Char(d) + y
    ensures c == d && x == y
  {
    var a, b := Utf8Char(c), Utf8Char(d);
    assert a[0] == (a + x)[0] == (b + y)[0] == b[0];
    assert |a| == |b|;
    assert forall i :: 0 <= i < |a| ==> a[i] == (a + x)[i] && b[i] == (b + y)[i];
    Utf8CharValue(c);
    Utf8CharValue(d);
    assert x == (a + x)[|a|..] && y == (b + y)[|b|..];
  }

  lemma {:induction false} Utf8Injective(s: string, t: string)
    requires Utf8(s) == Utf8(t)
    ensures s == t
  {
    if s != "" && t != "" {
      Utf8CharPrefixFree(s[0], t[0], Utf8(s[1..]), Utf8(t[1..]));
      Utf8Injective(s[1..], t[1..]);
      assert s == [s[0]] + s[1..] && t == [t[0]] + t[1..];
    }
  }

  // ---- Ordering of byte strings and strings ----------------------------------------

  predicate BytesLess(a: Bytes, b: Bytes)
  {
    if b == [] then false
    else if a == [] then true
    else a[0] < b[0] || (a[0] == b[0] && BytesLess(a[1..], b[1..]))
  }

  lemma {:induction false} BytesLessIrreflexive(a: Bytes)
    ensures !BytesLess(a, a)
  {
    if a != [] { BytesLessIrreflexive(a[1..]); }
  }

  lemma {:induction false} BytesLessTransitive(a: Bytes, b: Bytes, c: Bytes)
    requires BytesLess(a, b) && BytesLess(b, c)
    ensures BytesLess(a, c)
  {
    if a != [] && a[0] == b[0] == c[0] { BytesLessTransitive(a[1..], b[1..], c[1..]); }
  }

  lemma {:induction false} BytesLessConnected(a: Bytes, b: Bytes)
    requires a != b
    ensures BytesLess(a, b) || BytesLess(b, a)
  {
    if a != [] && b != [] && a[0] == b[0] {
      assert a == [a[0]] + a[1..] && b == [b[0]] + b[1..];
      BytesLessConnected(a[1..], b[1..]);
    }
  }

  lemma BytesLessTotal()
    ensures StrictTotal(BytesLess)
  {
    forall x ensures !BytesLess(x, x) { BytesLessIrreflexive(x); }
    forall x, y, z ensures Chains(BytesLess, x, y, z) {
      if BytesLess(x, y) && BytesLess(y, z) { BytesLessTransitive(x, y, z); }
    }
    forall x, y ensures Comparable(BytesLess, x, y) {
      if x != y { BytesLessConnected(x, y); }
    }
  }

  /** Strings are ordered by their bytes. */
  predicate StringLess(a: string, b: string) { BytesLess(Utf8(a), Utf8(b)) }

  lemma StringLessTotal()
    ensures StrictTotal(StringLess)
  {
    BytesLessTotal();
    forall x ensures !StringLess(x, x) { BytesLessIrreflexive(Utf8(x)); }
    forall x, y, z ensures Chains(StringLess, x, y, z) {
      assert Chains(BytesLess, Utf8(x), Utf8(y), Utf8(z));
    }
    forall x, y ensures Comparable(StringLess, x, y) {
      assert Comparable(BytesLess, Utf8(x), Utf8(y));
      if Utf8(x) == Utf8(y) { Utf8Injective(x, y); }
    }
  }

  // ---- Little-endian length prefixes -----------------------------------------------

  /** `(n as u32).to_le_bytes()`: the cast drops everything above 32 bits. */
  function Le32(n: nat): (b: Bytes)
    ensures |b| == 4
  {
    [n % 256, n / 256 % 256, n / 65536 % 256, n / 16777216 % 256]
  }

  function Le32Value(b: Bytes): nat
    requires |b| == 4
  {
    var (b0: nat, b1: nat, b2: nat, b3: nat) := (b[0], b[1], b[2], b[3]);
    b0 + 256 * (b1 + 256 * (b2 + 256 * b3))
  }

  lemma Le32RoundTrip(n: nat)
    requires n <= U32_MAX
    ensures Le32Value(Le32(n)) == n
  {
    assert n / 65536 == n / 256 / 256;
    assert n / 16777216 == n / 65536 / 256;
  }

  lemma Le32Injective(a: nat, b: nat)
    requires a <= U32_MAX && b <= U32_MAX && Le32(a) == Le32(b)
    ensures a == b
  {
    Le32RoundTrip(a);
    Le32RoundTrip(b);
  }
}
