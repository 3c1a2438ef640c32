// The bytes that handshake signatures cover (src/protocol/canonical.js).
module Canonical {
  import opened Wrappers
  import opened Text

  const SIGNATURE_LABEL := "CipherLink handshake signature"
  const KEY_EXCHANGE := "KEY_EXCHANGE"
  const KEY_EXCHANGE_ACK := "KEY_EXCHANGE_ACK"
  const UINT32_LIMIT := 0x1_0000_0000

  // Integers that JavaScript's String() prints as plain decimal digits.
  type Version = v: int | v < 1_000_000_000_000_000_000_000

  datatype Fields = Fields(
    version: Version,
    kind: string,
    sender: string,
    recipient: string,
    sessionId: string,
    encryptedSessionKey: Option<Bytes>,
    recipientFingerprint: Option<Bytes>)

  datatype CanonicalError =
    | BadVersion
    | EmptyField(name: string)
    | FieldTooLong          // writeUInt32BE refuses lengths of 2^32 and above
    | MissingKeyFields
    | UnexpectedKeyFields
    | UnknownType

  function Uint32(n: nat): (r: Bytes)
    requires n < UINT32_LIMIT
    ensures |r| == 4
  {
    [n / 0x100_0000, n / 0x1_0000 % 256, n / 0x100 % 256, n % 256]
  }

  // One field: its byte length as a big-endian uint32, then the bytes.
  function LengthPrefixed(bytes: Bytes): (r: Result<Bytes, CanonicalError>)
  {
    if |bytes| < UINT32_LIMIT then Success(Uint32(|bytes|) + bytes) else Failure(FieldTooLong)
  }

  // The fields one after the other.
  function Concatenated(fields: seq<Bytes>): Result<Bytes, CanonicalError> {
    if fields == [] then Success([])
    else
      var first :- LengthPrefixed(fields[0]);
      var rest :- Concatenated(fields[1..]);
      Success(first + rest)
  }

  function CommonFields(f: Fields): seq<Bytes>
    requires f.version >= 0
  {
    [Utf8(SIGNATURE_LABEL), Utf8(Decimal(f.version)), Utf8(f.kind), Utf8(f.sender), Utf8(f.recipient),
     Utf8(f.sessionId)]
  }

  function KeyFields(f: Fields): seq<Bytes> {
    if f.encryptedSessionKey.Some? && f.recipientFingerprint.Some?
    then [f.encryptedSessionKey.value, f.recipientFingerprint.value] else []
  }

  function CanonicalizeHandshake(f: Fields): Result<Bytes, CanonicalError> {
    if f.version < 0 then Failure(BadVersion)
    else if f.kind == "" then Failure(EmptyField("type"))
    else if f.sender == "" then Failure(EmptyField("sender"))
    else if f.recipient == "" then Failure(EmptyField("recipient"))
    else if f.sessionId == "" then Failure(EmptyField("sessionId"))
    else
      var common :- Concatenated(CommonFields(f));
      if f.kind == KEY_EXCHANGE then
        if f.encryptedSessionKey.None? || f.recipientFingerprint.None? then Failure(MissingKeyFields)
        else
          var keys :- Concatenated(KeyFields(f));
          Success(common + keys)
      else if f.kind == KEY_EXCHANGE_ACK then
        if f.encryptedSessionKey.Some? || f.recipientFingerprint.Some? then Failure(UnexpectedKeyFields)
        else Success(common)
      else Failure(UnknownType)
  }

  // ---- Unambiguity ----------------------------------------------------------

  // The value of four big-endian base-256 digits.
  lemma Uint32Digits(n: nat)
    requires n < UINT32_LIMIT
    ensures n == ((n / 0x100_0000 * 256 + n / 0x1_0000 % 256) * 256 + n / 0x100 % 256) * 256 + n % 256
  {
    var p := n / 0x100;
    var q := p / 0x100;
    assert q == n / 0x1_0000 && q / 0x100 == n / 0x100_0000;
  }

  lemma Uint32Injective(m: nat, n: nat)
    requires m < UINT32_LIMIT && n < UINT32_LIMIT && Uint32(m) == Uint32(n)
    ensures m == n
  {
    Uint32Digits(m);
    Uint32Digits(n);
    var p, q := Uint32(m), Uint32(n);
    assert p[0] == q[0] && p[1] == q[1] && p[2] == q[2] && p[3] == q[3];
  }

  // A length-prefixed field can be read off the front of any text in only one way.
  lemma FieldUnique(a: Bytes, b: Bytes, x: Bytes, y: Bytes)
    requires |a| < UINT32_LIMIT && |b| < UINT32_LIMIT
    requires LengthPrefixed(a).value + x == LengthPrefixed(b).value + y
    ensures a == b && x == y
  {
    hide Uint32;
    var p, q := LengthPrefixed(a).value, LengthPrefixed(b).value;
    assert (p + x)[..4] == Uint32(|a|) && (q + y)[..4] == Uint32(|b|);
    Uint32Injective(|a|, |b|);
    assert p == (p + x)[..|p|] && q == (q + y)[..|p|];
    assert a == p[4..] && b == q[4..];
    assert x == (p + x)[|p|..] && y == (q + y)[|p|..];
  }

  // Equally many fields followed by anything: the fields and the remainder are determined.
  lemma {:induction false} FieldsUnique(f: seq<Bytes>, g: seq<Bytes>, x: Bytes, y: Bytes)
    requires |f| == |g| && Concatenated(f).Success? && Concatenated(g).Success?
    requires Concatenated(f).value + x == Concatenated(g).value + y
    ensures f == g && x == y
  {
    hide LengthPrefixed;
    if f == [] {
      assert x == Concatenated(f).value + x && y == Concatenated(g).value + y;
    } else {
      var p, q := LengthPrefixed(f[0]).value, LengthPrefixed(g[0]).value;
      var s, t := Concatenated(f[1..]).value, Concatenated(g[1..]).value;
      assert (p + s) + x == p + (s + x) && (q + t) + y == q + (t + y);
      FieldLengths(f);
      FieldLengths(g);
      FieldUnique(f[0], g[0], s + x, t + y);
      FieldsUnique(f[1..], g[1..], x, y);
      assert f == [f[0]] + f[1..] && g == [g[0]] + g[1..];
    }
  }

  lemma FieldLengths(f: seq<Bytes>)
    requires f != [] && Concatenated(f).Success?
    ensures |f[0]| < UINT32_LIMIT && LengthPrefixed(f[0]).Success? && Concatenated(f[1..]).Success?
  {
  }

  // The signed encoding is prefix-free: if the bytes of f begin the bytes of g, then f and g
  // agree on every field. In particular it is injective, and no KEY_EXCHANGE collides with an ACK.
  lemma CanonicalPrefixFree(f: Fields, g: Fields)
    requires CanonicalizeHandshake(f).Success? && CanonicalizeHandshake(g).Success?
    requires CanonicalizeHandshake(f).value <= CanonicalizeHandshake(g).value
    ensures f == g
  {
    hide Concatenated, Decimal, Utf8;
    var x, y := CanonicalizeHandshake(f).value, CanonicalizeHandshake(g).value;
    var cf, cg := Concatenated(CommonFields(f)).value, Concatenated(CommonFields(g)).value;
    assert y == x + y[|x|..];
    var tailF := x[|cf|..] + y[|x|..];
    assert cf + tailF == y && cg + y[|cg|..] == y;
    FieldsUnique(CommonFields(f), CommonFields(g), tailF, y[|cg|..]);
    CommonFieldsInjective(f, g);
    if f.kind == KEY_EXCHANGE {
      assert Concatenated(KeyFields(f)).value == x[|cf|..];
      assert Concatenated(KeyFields(g)).value == y[|cg|..] + [];
      FieldsUnique(KeyFields(f), KeyFields(g), y[|x|..], []);
      assert f.encryptedSessionKey.value == KeyFields(f)[0] == g.encryptedSessionKey.value;
      assert f.recipientFingerprint.value == KeyFields(f)[1] == g.recipientFingerprint.value;
    }
  }

  lemma CommonFieldsInjective(f: Fields, g: Fields)
    requires f.version >= 0 && g.version >= 0 && CommonFields(f) == CommonFields(g)
    ensures f.version == g.version && f.kind == g.kind && f.sender == g.sender
    ensures f.recipient == g.recipient && f.sessionId == g.sessionId
  {
    hide Decimal, Utf8;
    var a, b := CommonFields(f), CommonFields(g);
    assert a[1] == b[1] && a[2] == b[2] && a[3] == b[3] && a[4] == b[4] && a[5] == b[5];
    Utf8Injective(Decimal(f.version), Decimal(g.version));
    DecimalInjective(f.version, g.version);
    Utf8Injective(f.kind, g.kind);
    Utf8Injective(f.sender, g.sender);
    Utf8Injective(f.recipient, g.recipient);
    Utf8Injective(f.sessionId, g.sessionId);
  }

  // ---- The layout --------------------------------------------------------------------------------

  // Four bytes as a number, the most significant first.
  function BigEndian(b: Bytes): nat
    requires |b| == 4
  {
    (((b[0] as int) * 256 + b[1]) * 256 + b[2]) * 256 + b[3]
  }

  // The bytes are these fields one after the other and nothing else, each behind its length as four bytes, the
  // most significant first.
  predicate ReadsAs(bytes: Bytes, fields: seq<Bytes>)
    decreases |fields|
  {
    if fields == [] then bytes == []
    else
      && |bytes| >= 4
      && var n := BigEndian(bytes[..4]);
         && n == |fields[0]| && 4 + n <= |bytes| && bytes[4..4 + n] == fields[0]
         && ReadsAs(bytes[4 + n..], fields[1..])
  }

  // The fields the protocol description lists for the two signed types.
  function SignedParts(f: Fields): seq<Bytes>
    requires f.version >= 0
    requires f.kind == "KEY_EXCHANGE" ==> f.encryptedSessionKey.Some? && f.recipientFingerprint.Some?
  {
    [Utf8("CipherLink handshake signature"), Utf8(Decimal(f.version)), Utf8(f.kind), Utf8(f.sender),
     Utf8(f.recipient), Utf8(f.sessionId)]
    + if f.kind == "KEY_EXCHANGE" then [f.encryptedSessionKey.value, f.recipientFingerprint.value] else []
  }

  // Only one byte string reads as these fields.
  lemma {:induction false} ReadsOnce(x: Bytes, y: Bytes, fields: seq<Bytes>)
    requires ReadsAs(x, fields) && ReadsAs(y, fields)
    ensures x == y
    decreases |fields|
  {
    if fields != [] {
      var n := |fields[0]|;
      BigEndianInjective(x[..4], y[..4]);
      ReadsOnce(x[4 + n..], y[4 + n..], fields[1..]);
      assert x == x[..4] + x[4..4 + n] + x[4 + n..] && y == y[..4] + y[4..4 + n] + y[4 + n..];
      assert x[..4] == y[..4];
    }
  }

  lemma BigEndianInjective(x: Bytes, y: Bytes)
    requires |x| == 4 && |y| == 4 && BigEndian(x) == BigEndian(y)
    ensures x == y
  {
    assert x[0] == y[0] && x[1] == y[1] && x[2] == y[2] && x[3] == y[3];
  }

  lemma {:induction false} ConcatenatedReads(fields: seq<Bytes>)
    requires Concatenated(fields).Success?
    ensures ReadsAs(Concatenated(fields).value, fields)
    decreases |fields|
  {
    if fields != [] {
      var prefix, rest := Uint32(|fields[0]|), Concatenated(fields[1..]).value;
      var x := prefix + fields[0] + rest;
      var n := |fields[0]|;
      Uint32Digits(n);
      assert x[..4] == prefix && BigEndian(prefix) == n;
      assert x[4..4 + n] == fields[0] && x[4 + n..] == rest;
      ConcatenatedReads(fields[1..]);
    }
  }

  lemma {:induction false} ReadsConcat(x: Bytes, y: Bytes, xs: seq<Bytes>, ys: seq<Bytes>)
    requires ReadsAs(x, xs) && ReadsAs(y, ys)
    ensures ReadsAs(x + y, xs + ys)
    decreases |xs|
  {
    if xs == [] {
      assert x + y == y && xs + ys == ys;
    } else {
      var n := |xs[0]|;
      assert (x + y)[..4] == x[..4];
      assert (x + y)[4 + n..] == x[4 + n..] + y && (x + y)[4..4 + n] == x[4..4 + n];
      assert (xs + ys)[1..] == xs[1..] + ys;
      ReadsConcat(x[4 + n..], y, xs[1..], ys);
    }
  }

  // Exactly which field records have an encoding.
  predicate Encodable(f: Fields) {
    && f.version >= 0 && f.sender != "" && f.recipient != "" && f.sessionId != ""
    && (|| (f.kind == "KEY_EXCHANGE" && f.encryptedSessionKey.Some? && f.recipientFingerprint.Some?)
        || (f.kind == "KEY_EXCHANGE_ACK" && f.encryptedSessionKey.None? && f.recipientFingerprint.None?))
    && forall b :: b in SignedParts(f) ==> |b| < 0x1_0000_0000
  }

  lemma {:induction false} ConcatenatedIff(fields: seq<Bytes>)
    ensures Concatenated(fields).Success? <==> forall b :: b in fields ==> |b| < UINT32_LIMIT
  {
    if fields != [] {
      ConcatenatedIff(fields[1..]);
      assert fields == [fields[0]] + fields[1..];
    }
  }

  lemma PartsOf(f: Fields)
    requires f.version >= 0
    requires f.kind == "KEY_EXCHANGE" ==> f.encryptedSessionKey.Some? && f.recipientFingerprint.Some?
    ensures f.kind == "KEY_EXCHANGE" ==> SignedParts(f) == CommonFields(f) + KeyFields(f)
    ensures f.kind != "KEY_EXCHANGE" ==> SignedParts(f) == CommonFields(f)
  {
    hide Decimal, Utf8;
  }

  // Exactly the records of Encodable are signed, the others refused.
  lemma CanonicalizeIff(f: Fields)
    ensures CanonicalizeHandshake(f).Success? <==> Encodable(f)
  {
    hide Concatenated, Decimal, Utf8, SignedParts;
    ConcatenatedIff(KeyFields(f));
    if f.version >= 0 {
      ConcatenatedIff(CommonFields(f));
      if f.kind == "KEY_EXCHANGE" ==> f.encryptedSessionKey.Some? && f.recipientFingerprint.Some? {
        PartsOf(f);
      }
      assert forall b :: b in CommonFields(f) + KeyFields(f) <==> b in CommonFields(f) || b in KeyFields(f);
    }
  }

  // Which bytes are signed: the one byte string that reads as the parts in their order.
  lemma CanonicalizeExactly(f: Fields, x: Bytes)
    ensures CanonicalizeHandshake(f) == Success(x) <==> Encodable(f) && ReadsAs(x, SignedParts(f))
  {
    hide Concatenated, Decimal, Utf8, SignedParts, ReadsAs, CommonFields, KeyFields;
    CanonicalizeIff(f);
    if CanonicalizeHandshake(f).Success? {
      PartsOf(f);
      var y := CanonicalizeHandshake(f).value;
      ConcatenatedReads(CommonFields(f));
      if f.kind == "KEY_EXCHANGE" {
        ConcatenatedReads(KeyFields(f));
        ReadsConcat(Concatenated(CommonFields(f)).value, Concatenated(KeyFields(f)).value, CommonFields(f),
                    KeyFields(f));
      }
      if ReadsAs(x, SignedParts(f)) {
        ReadsOnce(x, y, SignedParts(f));
      }
    }
  }
}
