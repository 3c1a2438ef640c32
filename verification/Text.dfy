// Bytes and text: UTF-8 encoding, UTF-16 length, decimal numerals, the white space JavaScript trims.
module Text {
  type Byte = b: int | 0 <= b < 256
  type Bytes = seq<Byte>

  // ---- UTF-8 -------------------------------------------------------------

  function Utf8Char(c: char): (r: Bytes)
    ensures 1 <= |r| <= 4
  {
    var n := c as int;
    if n < 0x80 then [n]
    else if n < 0x800 then [0xC0 + n / 64, 0x80 + n % 64]
    else if n < 0x10000 then [0xE0 + n / 4096, 0x80 + n / 64 % 64, 0x80 + n % 64]
    else [0xF0 + n / 262144, 0x80 + n / 4096 % 64, 0x80 + n / 64 % 64, 0x80 + n % 64]
  }

  // Buffer.from(s, 'utf8') on well-formed text.
  function Utf8(s: string): Bytes {
    if s == "" then [] else Utf8Char(s[0]) + Utf8(s[1..])
  }

  // Buffer.byteLength(s, 'utf8').
  function ByteLength(s: string): nat {
    |Utf8(s)|
  }

  // The code point a UTF-8 sequence starts with, read off its lead byte.
  function LeadCode(w: Bytes): int {
    if |w| >= 1 && w[0] < 0x80 then w[0]
    else if |w| >= 2 && w[0] < 0xE0 then (w[0] as int - 0xC0) * 64 + (w[1] as int - 0x80)
    else if |w| >= 3 && w[0] < 0xF0 then ((w[0] as int - 0xE0) * 64 + (w[1] as int - 0x80)) * 64 + (w[2] as int - 0x80)
    else if |w| >= 4 then
      (((w[0] as int - 0xF0) * 64 + (w[1] as int - 0x80)) * 64 + (w[2] as int - 0x80)) * 64 + (w[3] as int - 0x80)
    else 0
  }

  lemma SixBitDigits(n: nat)
    ensures n == n / 64 * 64 + n % 64
    ensures n / 4096 == n / 64 / 64 && n / 262144 == n / 4096 / 64
  {
  }

  lemma LeadCodeOfChar(c: char, x: Bytes)
    ensures LeadCode(Utf8Char(c) + x) == c as int
  {
    var n := c as int;
    SixBitDigits(n);
    SixBitDigits(n / 64);
    SixBitDigits(n / 4096);
  }

  // Section 3 of RFC 3629: how many bytes a character takes, which of them lead and which continue, and that
  // together they carry its number.
  lemma Utf8Layout(c: char)
    ensures var n, r := c as int, Utf8Char(c);
            && |r| == (if n < 0x80 then 1 else if n < 0x800 then 2 else if n < 0x10000 then 3 else 4)
            && (|r| == 1 ==> r[0] < 0x80) && (|r| == 2 ==> 0xC0 <= r[0] < 0xE0)
            && (|r| == 3 ==> 0xE0 <= r[0] < 0xF0) && (|r| == 4 ==> 0xF0 <= r[0] < 0xF8)
            && (forall k :: 1 <= k < |r| ==> 0x80 <= r[k] < 0xC0)
            && LeadCode(r) == n && Utf8([c]) == r
  {
    assert Utf8Char(c) + [] == Utf8Char(c) && [c][1..] == "";
    LeadCodeOfChar(c, []);
  }

  // No encoded character is a prefix of another.
  lemma Utf8CharUnique(c: char, d: char, x: Bytes, y: Bytes)
    requires Utf8Char(c) + x == Utf8Char(d) + y
    ensures c == d && x == y
  {
    LeadCodeOfChar(c, x);
    LeadCodeOfChar(d, y);
    var p, q := Utf8Char(c), Utf8Char(d);
    assert x == (p + x)[|p|..] && y == (q + y)[|q|..];
  }

  lemma {:induction false} Utf8Injective(s: string, t: string)
    requires Utf8(s) == Utf8(t)
    ensures s == t
  {
    if s != "" && t != "" {
      Utf8CharUnique(s[0], t[0], Utf8(s[1..]), Utf8(t[1..]));
      Utf8Injective(s[1..], t[1..]);
      assert s == [s[0]] + s[1..] && t == [t[0]] + t[1..];
    }
  }

  lemma {:induction false} Utf8Concat(s: string, t: string)
    ensures Utf8(s + t) == Utf8(s) + Utf8(t)
  {
    if s == "" {
      assert s + t == t;
    } else {
      assert (s + t)[1..] == s[1..] + t;
      Utf8Concat(s[1..], t);
    }
  }

  lemma {:induction false} Utf8NonEmpty(s: string)
    ensures |Utf8(s)| >= |s|
  {
    if s != "" {
      Utf8NonEmpty(s[1..]);
    }
  }

  predicate IsAscii(s: string) {
    forall k :: 0 <= k < |s| ==> s[k] as int < 0x80
  }

  lemma {:induction false} AsciiByteLength(s: string)
    requires IsAscii(s)
    ensures ByteLength(s) == |s|
  {
    if s != "" {
      AsciiByteLength(s[1..]);
    }
  }

  // ---- UTF-16 length (JavaScript's String.length) -------------------------

  function Utf16Length(s: string): nat {
    if s == "" then 0 else (if s[0] as int < 0x10000 then 1 else 2) + Utf16Length(s[1..])
  }

  lemma {:induction false} Utf16LengthBmp(s: string)
    requires forall k :: 0 <= k < |s| ==> s[k] as int < 0x10000
    ensures Utf16Length(s) == |s|
  {
    if s != "" {
      Utf16LengthBmp(s[1..]);
    }
  }

  // Two units for a character outside the basic plane, one for any other, and their sum for a text.
  lemma {:induction false} Utf16LengthExactly(s: string, c: char)
    ensures Utf16Length("") == 0
    ensures Utf16Length(s + [c]) == Utf16Length(s) + (if c as int > 0xFFFF then 2 else 1)
  {
    if s == "" {
      assert s + [c] == [c] && [c][1..] == "";
    } else {
      assert (s + [c])[1..] == s[1..] + [c];
      Utf16LengthExactly(s[1..], c);
    }
  }

  // ---- Decimal numerals ---------------------------------------------------

  predicate IsDigit(c: char) { '0' <= c <= '9' }

  function DigitChar(d: nat): (c: char)
    requires d < 10
    ensures IsDigit(c) && DigitValue(c) == d
  {
    ('0' as int + d) as char
  }

  function DigitValue(c: char): (d: nat)
    requires IsDigit(c)
    ensures d < 10
  {
    c as int - '0' as int
  }

  // String(n) for a non-negative integer that JavaScript prints without an exponent.
  function Decimal(n: nat): (s: string)
    ensures |s| >= 1 && forall k :: 0 <= k < |s| ==> IsDigit(s[k])
  {
    if n < 10 then [DigitChar(n)] else Decimal(n / 10) + [DigitChar(n % 10)]
  }

  function DecimalValue(s: string): nat
    requires forall k :: 0 <= k < |s| ==> IsDigit(s[k])
  {
    if s == "" then 0 else DecimalValue(s[..|s| - 1]) * 10 + DigitValue(s[|s| - 1])
  }

  lemma {:induction false} DecimalRoundTrip(n: nat)
    ensures DecimalValue(Decimal(n)) == n
  {
    var s := Decimal(n);
    if n < 10 {
      assert s[..0] == "";
    } else {
      DecimalRoundTrip(n / 10);
      assert s[..|s| - 1] == Decimal(n / 10);
    }
  }

  // The one numeral without leading zeros that has this value.
  lemma {:induction false} DecimalExactly(n: nat, s: string)
    ensures s == Decimal(n) <==>
      && s != "" && (|s| > 1 ==> s[0] != '0') && (forall k :: 0 <= k < |s| ==> IsDigit(s[k]))
      && DecimalValue(s) == n
  {
    DecimalRoundTrip(n);
    NoLeadingZero(n);
    if s != "" && (|s| > 1 ==> s[0] != '0') && (forall k :: 0 <= k < |s| ==> IsDigit(s[k])) && DecimalValue(s) == n {
      NumeralUnique(n, s);
    }
  }

  lemma {:induction false} NoLeadingZero(n: nat)
    ensures Decimal(n)[0] == '0' <==> n == 0
    ensures |Decimal(n)| > 1 <==> n >= 10
  {
    if n >= 10 {
      NoLeadingZero(n / 10);
    }
  }

  lemma {:induction false} NumeralUnique(n: nat, s: string)
    requires s != "" && (|s| > 1 ==> s[0] != '0') && forall k :: 0 <= k < |s| ==> IsDigit(s[k])
    requires DecimalValue(s) == n
    ensures s == Decimal(n)
  {
    var t := s[..|s| - 1];
    assert s == t + [s[|s| - 1]];
    if t == "" {
      assert DecimalValue(t) == 0;
    } else {
      NumeralUnique(n / 10, t);
      NumeralPositive(t);
    }
  }

  lemma {:induction false} NumeralPositive(s: string)
    requires s != "" && s[0] != '0' && forall k :: 0 <= k < |s| ==> IsDigit(s[k])
    ensures DecimalValue(s) > 0
  {
    if |s| > 1 {
      NumeralPositive(s[..|s| - 1]);
    }
  }

  lemma DecimalInjective(m: nat, n: nat)
    requires Decimal(m) == Decimal(n)
    ensures m == n
  {
    DecimalRoundTrip(m);
    DecimalRoundTrip(n);
  }

  // ---- String.prototype.trim ----------------------------------------------

  predicate IsJsSpace(c: char) {
    var n := c as int;
    || 0x09 <= n <= 0x0D || n == 0x20 || n == 0xA0 || n == 0x1680 || 0x2000 <= n <= 0x200A
    || n == 0x2028 || n == 0x2029 || n == 0x202F || n == 0x205F || n == 0x3000 || n == 0xFEFF
  }

  // The white space and line terminators of sections 12.2 and 12.3 of ECMA-262, by number.
  lemma JsSpaces(c: char)
    ensures IsJsSpace(c) <==>
      c as int in {9, 10, 11, 12, 13, 32, 160, 5760, 8192, 8193, 8194, 8195, 8196, 8197, 8198, 8199, 8200, 8201, 8202,
                   8232, 8233, 8239, 8287, 12288, 65279}
  {
  }

  // s.trim() === ''
  predicate IsBlank(s: string) {
    forall k :: 0 <= k < |s| ==> IsJsSpace(s[k])
  }

  // s contains the text sub, as /sub/.test(s) for a pattern without metacharacters.
  predicate Contains(s: string, sub: string) {
    exists i :: 0 <= i <= |s| && sub <= s[i..]
  }

  // A text contains another exactly if something stands before it and something after it, maybe nothing.
  lemma ContainsExactly(s: string, sub: string)
    ensures Contains(s, sub) <==> exists a: string, b: string :: s == a + sub + b
  {
    if i :| 0 <= i <= |s| && sub <= s[i..] {
      assert s == s[..i] + sub + s[i..][|sub|..];
    }
    if a: string, b: string :| s == a + sub + b {
      assert sub <= s[|a|..];
    }
  }
}
