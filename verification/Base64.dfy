// Standard base64 (section 4 of RFC 4648) as Node's Buffer writes and reads it, and the
// canonical-form check applied to wire fields (src/protocol/message.js:222-233).
module Base64 {
  import opened Text

  predicate IsSymbol(c: char) {
    'A' <= c <= 'Z' || 'a' <= c <= 'z' || '0' <= c <= '9' || c == '+' || c == '/'
  }

  function Symbol(v: nat): (c: char)
    requires v < 64
    ensures IsSymbol(c) && c as int < 0x80
    ensures SymbolValue(c) == v
  {
    if v < 26 then (v + 65) as char
    else if v < 52 then (v + 71) as char
    else if v < 62 then (v - 4) as char
    else if v == 62 then '+' else '/'
  }

  function SymbolValue(c: char): (v: nat)
    requires IsSymbol(c)
    ensures v < 64
  {
    if 'A' <= c <= 'Z' then c as int - 65
    else if 'a' <= c <= 'z' then c as int - 71
    else if '0' <= c <= '9' then c as int + 4
    else if c == '+' then 62 else 63
  }

  lemma SymbolOfValue(c: char)
    requires IsSymbol(c)
    ensures Symbol(SymbolValue(c)) == c
  {
  }

  function EncodeGroup(b: Bytes): (g: string)
    requires 1 <= |b| <= 3
    ensures IsGroup(g, true)
  {
    if |b| == 1 then
      [Symbol(b[0] / 4), Symbol(b[0] % 4 * 16), '=', '=']
    else if |b| == 2 then
      [Symbol(b[0] / 4), Symbol(b[0] % 4 * 16 + b[1] / 16), Symbol(b[1] % 16 * 4), '=']
    else
      [Symbol(b[0] / 4), Symbol(b[0] % 4 * 16 + b[1] / 16), Symbol(b[1] % 16 * 4 + b[2] / 64), Symbol(b[2] % 64)]
  }

  // buffer.toString('base64')
  function Encode(b: Bytes): string {
    if b == [] then "" else if |b| <= 3 then EncodeGroup(b) else EncodeGroup(b[..3]) + Encode(b[3..])
  }

  // Four characters of the pattern [A-Za-z0-9+/]+={0,2}: padding only at the very end.
  predicate IsGroup(g: string, last: bool) {
    && |g| == 4
    && IsSymbol(g[0]) && IsSymbol(g[1])
    && (IsSymbol(g[2]) || (last && g[2] == '=' && g[3] == '='))
    && (IsSymbol(g[3]) || (last && g[3] == '='))
  }

  // A non-empty text whose length is a multiple of four and that matches the pattern.
  predicate IsShaped(s: string) {
    && |s| > 0 && |s| % 4 == 0
    && (forall k :: 0 <= k < |s| - 2 ==> IsSymbol(s[k]))
    && (IsSymbol(s[|s| - 2]) || (s[|s| - 2] == '=' && s[|s| - 1] == '='))
    && (IsSymbol(s[|s| - 1]) || s[|s| - 1] == '=')
  }

  function DecodeGroup(g: string): (b: Bytes)
    requires IsGroup(g, true)
    ensures 1 <= |b| <= 3
  {
    var v0, v1 := SymbolValue(g[0]), SymbolValue(g[1]);
    if g[2] == '=' then [v0 * 4 + v1 / 16]
    else
      var v2 := SymbolValue(g[2]);
      if g[3] == '=' then [v0 * 4 + v1 / 16, v1 % 16 * 16 + v2 / 4]
      else [v0 * 4 + v1 / 16, v1 % 16 * 16 + v2 / 4, v2 % 4 * 64 + SymbolValue(g[3])]
  }

  // Buffer.from(s, 'base64') on a shaped text.
  function Decode(s: string): (b: Bytes)
    requires IsShaped(s)
    ensures b != []
  {
    if |s| == 4 then DecodeGroup(s) else DecodeGroup(s[..4]) + Decode(s[4..])
  }

  predicate IsCanonicalBase64(s: string) {
    IsShaped(s) && Encode(Decode(s)) == s
  }

  // ---- Round trip -----------------------------------------------------------

  lemma ShapeExtends(g: string, t: string)
    requires IsGroup(g, false) && IsShaped(t)
    ensures IsShaped(g + t)
  {
    assert forall k :: 0 <= k < |g + t| ==> (g + t)[k] == if k < 4 then g[k] else t[k - 4];
  }

  lemma GroupIsShaped(g: string)
    requires IsGroup(g, true)
    ensures IsShaped(g)
  {
  }

  lemma {:induction false} EncodeLength(b: Bytes)
    ensures |Encode(b)| == (|b| + 2) / 3 * 4
  {
    hide EncodeGroup;
    if b == [] {
    } else if |b| <= 3 {
      assert |EncodeGroup(b)| == 4;
    } else {
      EncodeLength(b[3..]);
      assert |EncodeGroup(b[..3])| == 4;
    }
  }

  lemma {:induction false} EncodeShape(b: Bytes)
    requires b != []
    ensures IsShaped(Encode(b))
  {
    if |b| <= 3 {
      GroupIsShaped(EncodeGroup(b));
    } else {
      EncodeShape(b[3..]);
      FullGroupRoundTrip(b[..3]);
      ShapeExtends(EncodeGroup(b[..3]), Encode(b[3..]));
    }
  }

  // Three bytes regrouped as four sextets and back.
  lemma Sextets(b0: Byte, b1: Byte, b2: Byte)
    ensures b0 / 4 < 64 && b0 % 4 * 16 + b1 / 16 < 64 && b1 % 16 * 4 + b2 / 64 < 64
    ensures b0 / 4 * 4 + (b0 % 4 * 16 + b1 / 16) / 16 == b0
    ensures (b0 % 4 * 16 + b1 / 16) % 16 * 16 + (b1 % 16 * 4 + b2 / 64) / 4 == b1
    ensures (b1 % 16 * 4 + b2 / 64) % 4 * 64 + b2 % 64 == b2
  {
    assert (b0 % 4 * 16 + b1 / 16) / 16 == b0 % 4;
    assert (b1 % 16 * 4 + b2 / 64) / 4 == b1 % 16;
  }

  // Four sextets packed into three bytes and back.
  lemma Octets(v0: nat, v1: nat, v2: nat, v3: nat)
    requires v0 < 64 && v1 < 64 && v2 < 64 && v3 < 64
    ensures var b0, b1, b2 := v0 * 4 + v1 / 16, v1 % 16 * 16 + v2 / 4, v2 % 4 * 64 + v3;
            && b0 / 4 == v0 && b0 % 4 * 16 + b1 / 16 == v1
            && b1 % 16 * 4 + b2 / 64 == v2 && b2 % 64 == v3
            && b0 % 4 * 16 == v1 / 16 * 16 && b1 % 16 * 4 == v2 / 4 * 4
  {
    assert v1 / 16 < 4 && v2 / 4 < 16;
    assert (v1 % 16 * 16 + v2 / 4) / 16 == v1 % 16;
    assert (v2 % 4 * 64 + v3) / 64 == v2 % 4;
  }

  lemma FullGroupRoundTrip(b: Bytes)
    requires |b| == 3
    ensures IsGroup(EncodeGroup(b), false) && DecodeGroup(EncodeGroup(b)) == b
  {
    Sextets(b[0], b[1], b[2]);
  }

  lemma GroupRoundTrip(b: Bytes)
    requires 1 <= |b| <= 3
    ensures DecodeGroup(EncodeGroup(b)) == b
  {
    if |b| == 1 {
      Sextets(b[0], 0, 0);
    } else if |b| == 2 {
      Sextets(b[0], b[1], 0);
    } else {
      FullGroupRoundTrip(b);
    }
  }

  // Decoding undoes encoding, for every non-empty byte string.
  lemma {:induction false} DecodeEncode(b: Bytes)
    requires b != []
    ensures IsShaped(Encode(b)) && Decode(Encode(b)) == b
  {
    EncodeShape(b);
    if |b| <= 3 {
      GroupRoundTrip(b);
    } else {
      GroupRoundTrip(b[..3]);
      EncodeShape(b[3..]);
      DecodeEncode(b[3..]);
      assert Encode(b)[..4] == EncodeGroup(b[..3]) && Encode(b)[4..] == Encode(b[3..]);
      assert b == b[..3] + b[3..];
    }
  }

  // The check accepts exactly the encodings of the non-empty byte strings.
  lemma CanonicalImage(s: string)
    ensures IsCanonicalBase64(s) <==> exists b: Bytes :: b != [] && s == Encode(b)
  {
    if IsCanonicalBase64(s) {
      var b := Decode(s);
      assert b != [] && s == Encode(b);
    }
    if exists b: Bytes :: b != [] && s == Encode(b) {
      var b: Bytes :| b != [] && s == Encode(b);
      DecodeEncode(b);
    }
  }

  // So one byte string has one accepted text form.
  lemma CanonicalDecodeInjective(s: string, t: string)
    requires IsCanonicalBase64(s) && IsCanonicalBase64(t) && Decode(s) == Decode(t)
    ensures s == t
  {
  }

  // Section 3.5 of RFC 4648: the unused low bits of the last symbol are zero.
  predicate PadBitsZero(s: string)
    requires IsShaped(s)
  {
    && (s[|s| - 2] == '=' ==> SymbolValue(s[|s| - 3]) % 16 == 0)
    && (s[|s| - 2] != '=' && s[|s| - 1] == '=' ==> SymbolValue(s[|s| - 2]) % 4 == 0)
  }

  lemma TwoPadsCanonical(g: string)
    requires IsGroup(g, true) && g[2] == '=' && g[3] == '='
    ensures EncodeGroup(DecodeGroup(g)) == g <==> SymbolValue(g[1]) % 16 == 0
  {
    hide Symbol, SymbolValue;
    var v0, v1 := SymbolValue(g[0]), SymbolValue(g[1]);
    SymbolOfValue(g[0]);
    SymbolOfValue(g[1]);
    Octets(v0, v1, 0, 0);
    assert EncodeGroup(DecodeGroup(g)) == [g[0], Symbol(v1 / 16 * 16), '=', '='];
    assert SymbolValue(Symbol(v1 / 16 * 16)) == v1 / 16 * 16;
  }

  lemma OnePadCanonical(g: string)
    requires IsGroup(g, true) && g[2] != '=' && g[3] == '='
    ensures EncodeGroup(DecodeGroup(g)) == g <==> SymbolValue(g[2]) % 4 == 0
  {
    hide Symbol, SymbolValue;
    var v0, v1, v2 := SymbolValue(g[0]), SymbolValue(g[1]), SymbolValue(g[2]);
    SymbolOfValue(g[0]);
    SymbolOfValue(g[1]);
    SymbolOfValue(g[2]);
    Octets(v0, v1, v2, 0);
    assert EncodeGroup(DecodeGroup(g)) == [g[0], g[1], Symbol(v2 / 4 * 4), '='];
    assert SymbolValue(Symbol(v2 / 4 * 4)) == v2 / 4 * 4;
  }

  lemma PaddedGroupCanonical(g: string)
    requires IsGroup(g, true) && g[3] == '='
    ensures EncodeGroup(DecodeGroup(g)) == g <==> PadBitsZero(g)
  {
    hide Symbol, SymbolValue, EncodeGroup, DecodeGroup;
    if g[2] == '=' {
      TwoPadsCanonical(g);
    } else {
      OnePadCanonical(g);
    }
  }

  lemma FullGroupBytes(g: string)
    requires IsGroup(g, false)
    ensures var v0, v1, v2, v3 := SymbolValue(g[0]), SymbolValue(g[1]), SymbolValue(g[2]), SymbolValue(g[3]);
            && v0 < 64 && v1 < 64 && v2 < 64 && v3 < 64
            && v0 * 4 + v1 / 16 < 256 && v1 % 16 * 16 + v2 / 4 < 256 && v2 % 4 * 64 + v3 < 256
            && DecodeGroup(g) == [v0 * 4 + v1 / 16, v1 % 16 * 16 + v2 / 4, v2 % 4 * 64 + v3]
  {
    hide SymbolValue;
  }

  // Three bytes whose sextets are known.
  lemma FullGroupText(b: Bytes, v0: nat, v1: nat, v2: nat, v3: nat)
    requires |b| == 3 && v0 < 64 && v1 < 64 && v2 < 64 && v3 < 64
    requires b[0] / 4 == v0 && b[0] % 4 * 16 + b[1] / 16 == v1 && b[1] % 16 * 4 + b[2] / 64 == v2 && b[2] % 64 == v3
    ensures EncodeGroup(b) == [Symbol(v0), Symbol(v1), Symbol(v2), Symbol(v3)]
  {
    hide Symbol;
  }

  lemma Repacked(v0: nat, v1: nat, v2: nat, v3: nat, b: Bytes)
    requires v0 < 64 && v1 < 64 && v2 < 64 && v3 < 64 && |b| == 3
    requires b[0] == v0 * 4 + v1 / 16 && b[1] == v1 % 16 * 16 + v2 / 4 && b[2] == v2 % 4 * 64 + v3
    ensures EncodeGroup(b) == [Symbol(v0), Symbol(v1), Symbol(v2), Symbol(v3)]
  {
    hide Symbol, EncodeGroup;
    Octets(v0, v1, v2, v3);
    FullGroupText(b, v0, v1, v2, v3);
  }

  lemma FullGroupCanonical(g: string)
    requires IsGroup(g, false)
    ensures |DecodeGroup(g)| == 3 && EncodeGroup(DecodeGroup(g)) == g
  {
    hide Symbol, SymbolValue, DecodeGroup, EncodeGroup;
    FullGroupBytes(g);
    Repacked(SymbolValue(g[0]), SymbolValue(g[1]), SymbolValue(g[2]), SymbolValue(g[3]), DecodeGroup(g));
    SymbolOfValue(g[0]);
    SymbolOfValue(g[1]);
    SymbolOfValue(g[2]);
    SymbolOfValue(g[3]);
  }

  // On shaped texts the re-encoding check is precisely the pad-bit rule.
  lemma {:induction false} CanonicalIffPadBitsZero(s: string)
    requires IsShaped(s)
    ensures IsCanonicalBase64(s) <==> PadBitsZero(s)
  {
    if |s| == 4 {
      if s[3] == '=' {
        PaddedGroupCanonical(s);
      } else {
        FullGroupCanonical(s);
      }
    } else {
      var g, t := s[..4], s[4..];
      FullGroupCanonical(g);
      CanonicalIffPadBitsZero(t);
      ReencodeSplit(s);
    }
  }

  lemma ReencodeSplit(s: string)
    requires IsShaped(s) && |s| > 4
    ensures IsShaped(s[4..])
    ensures IsCanonicalBase64(s) <==> IsCanonicalBase64(s[4..])
  {
    var g, t := s[..4], s[4..];
    FullGroupCanonical(g);
    var b, d := DecodeGroup(g), Decode(t);
    assert (b + d)[..3] == b && (b + d)[3..] == d;
    assert Encode(b + d) == g + Encode(d);
    assert s == g + t;
    assert (g + Encode(d))[4..] == Encode(d);
  }

  // ---- The alphabet ------------------------------------------------------------------------------

  // Table 1 of RFC 4648, eight values to a row.
  const ALPHABET := ["ABCDEFGH", "IJKLMNOP", "QRSTUVWX", "YZabcdef", "ghijklmn", "opqrstuv", "wxyz0123", "456789+/"]

  function Digit64(v: nat): char
    requires v < 64
  {
    var row := ALPHABET[v / 8];
    row[v % 8]
  }

  lemma SymbolIsAlphabet(v: nat)
    requires v < 64
    ensures Symbol(v) == Digit64(v)
  {
    var c := v % 8;
    assert c in {0, 1, 2, 3, 4, 5, 6, 7};
    match v / 8
    case 0 => assert v == c;
    case 1 => assert v == 8 + c;
    case 2 => assert v == 16 + c;
    case 3 => assert v == 24 + c;
    case 4 => assert v == 32 + c;
    case 5 => assert v == 40 + c;
    case 6 => assert v == 48 + c;
    case _ => assert v == 56 + c;
  }

  // Three bytes as a number of 24 bits, and that number in four digits of the alphabet.
  function Bits24(b0: Byte, b1: Byte, b2: Byte): (n: nat)
    ensures n < 0x100_0000
  {
    ((b0 as int) * 256 + b1) * 256 + b2
  }

  function Digits64(n: nat): string
    requires n < 0x100_0000
  {
    [Digit64(n / 0x4_0000), Digit64(n / 0x1000 % 64), Digit64(n / 64 % 64), Digit64(n % 64)]
  }

  lemma SextetsOfBits(b0: Byte, b1: Byte, b2: Byte)
    ensures var n := Bits24(b0, b1, b2);
            && n / 0x4_0000 == b0 / 4 && n / 0x1000 % 64 == b0 % 4 * 16 + b1 / 16
            && n / 64 % 64 == b1 % 16 * 4 + b2 / 64 && n % 64 == b2 % 64
  {
    var m := b0 as int * 256 + b1;
    HighSextets(b0, b1, m);
    LowSextets(m, b2, Bits24(b0, b1, b2));
  }

  lemma HighSextets(b0: Byte, b1: Byte, m: int)
    requires m == b0 as int * 256 + b1
    ensures m / 1024 == b0 / 4 && m / 16 % 64 == b0 % 4 * 16 + b1 / 16 && m % 16 == b1 % 16
  {
    assert m == 16 * (b0 as int * 16 + b1 / 16) + (b1 % 16) && 0 <= b1 % 16 < 16;
    assert m / 16 == 64 * (b0 / 4) + (b0 % 4 * 16 + b1 / 16) && 0 <= b0 % 4 * 16 + b1 / 16 < 64;
    assert m == 1024 * (b0 / 4) + (b0 % 4 * 256 + b1) && 0 <= b0 % 4 * 256 + b1 < 1024;
  }

  lemma LowSextets(m: nat, b2: Byte, n: int)
    requires n == m * 256 + b2
    ensures n / 0x4_0000 == m / 1024 && n / 0x1000 == m / 16 && n / 64 % 64 == m % 16 * 4 + b2 / 64 && n % 64 == b2 % 64
  {
    assert n == 64 * (m * 4 + b2 / 64) + (b2 % 64) && 0 <= b2 % 64 < 64;
    assert n / 64 == 64 * (m / 16) + (m % 16 * 4 + b2 / 64) && 0 <= m % 16 * 4 + b2 / 64 < 64;
    assert n == 0x1000 * (m / 16) + (m % 16 * 256 + b2) && 0 <= m % 16 * 256 + b2 < 0x1000;
    assert n == 0x4_0000 * (m / 1024) + (m % 1024 * 256 + b2) && 0 <= m % 1024 * 256 + b2 < 0x4_0000;
  }

  lemma DigitsExactly(b0: Byte, b1: Byte, b2: Byte)
    ensures b0 / 4 < 64 && b0 % 4 * 16 + b1 / 16 < 64 && b1 % 16 * 4 + b2 / 64 < 64
    ensures Digits64(Bits24(b0, b1, b2)) ==
      [Symbol(b0 / 4), Symbol(b0 % 4 * 16 + b1 / 16), Symbol(b1 % 16 * 4 + b2 / 64), Symbol(b2 % 64)]
  {
    hide Symbol, Bits24, Digit64, ALPHABET;
    SextetsOfBits(b0, b1, b2);
    Sextets(b0, b1, b2);
    SymbolIsAlphabet(b0 / 4);
    SymbolIsAlphabet(b0 % 4 * 16 + b1 / 16);
    SymbolIsAlphabet(b1 % 16 * 4 + b2 / 64);
    SymbolIsAlphabet(b2 % 64);
  }

  lemma GroupExactly(b: Bytes)
    requires 1 <= |b| <= 3
    ensures |b| == 3 ==> EncodeGroup(b) == Digits64(Bits24(b[0], b[1], b[2]))
    ensures |b| == 2 ==> EncodeGroup(b) == Digits64(Bits24(b[0], b[1], 0))[..3] + "="
    ensures |b| == 1 ==> EncodeGroup(b) == Digits64(Bits24(b[0], 0, 0))[..2] + "=="
  {
    hide Symbol, Bits24, Digits64;
    if |b| == 1 {
      DigitsExactly(b[0], 0, 0);
    } else if |b| == 2 {
      DigitsExactly(b[0], b[1], 0);
    } else {
      DigitsExactly(b[0], b[1], b[2]);
    }
  }

  // Section 4 of RFC 4648: each group of three bytes gives the four digits of its 24 bits; one or two bytes
  // at the end are filled up with zero bits, and the digits without data are written '='.
  lemma {:induction false} EncodeExactly(b: Bytes, k: nat)
    requires 3 * k < |b|
    ensures |Encode(b)| == (|b| + 2) / 3 * 4
    ensures var g := Encode(b)[4 * k..4 * k + 4];
            && (3 * k + 2 < |b| ==> g == Digits64(Bits24(b[3 * k], b[3 * k + 1], b[3 * k + 2])))
            && (3 * k + 2 == |b| ==> g == Digits64(Bits24(b[3 * k], b[3 * k + 1], 0))[..3] + "=")
            && (3 * k + 1 == |b| ==> g == Digits64(Bits24(b[3 * k], 0, 0))[..2] + "==")
  {
    hide EncodeGroup, Digits64, Bits24;
    EncodeLength(b);
    GroupExactly(if |b| <= 3 then b else b[..3]);
    if k > 0 {
      EncodeLength(b[3..]);
      EncodeExactly(b[3..], k - 1);
      assert Encode(b)[4 * k..4 * k + 4] == Encode(b[3..])[4 * (k - 1)..4 * (k - 1) + 4];
    } else if |b| > 3 {
      assert Encode(b)[..4] == EncodeGroup(b[..3]);
    }
  }
}
