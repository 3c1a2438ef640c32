// The verdict of validateMessage read off the decoded value: when it is valid, and which refusal it gets
// otherwise (src/protocol/message.js:214-372).
module Verdicts {
  import opened Wrappers
  import opened Text
  import opened Crypto
  import opened Messages
  import opened Validation
  import Base64

  // ---- Fields --------------------------------------------------------------------------------------

  // The field is a string with something other than white space in it.
  ghost predicate Says(o: Object, field: string) {
    field in o && o[field].Str? && exists k :: 0 <= k < |o[field].s| && !IsJsSpace(o[field].s[k])
  }

  // An identity string: not blank, and at most 64 UTF-16 units.
  ghost predicate Names(o: Object, field: string) {
    Says(o, field) && Utf16Length(o[field].s) <= 64
  }

  // The field is one of these strings.
  predicate IsOneOf(o: Object, field: string, words: set<string>) {
    field in o && o[field].Str? && o[field].s in words
  }

  // A public key: a PEM of at most 4096 units with the right header that parses as a key of at least 3072 bits.
  function KeyIn(env: Env, o: Object, field: string): Option<PublicKey> {
    if field in o && o[field].Str? && 0 < Utf16Length(o[field].s) <= 4096
       && Contains(o[field].s, "-----BEGIN PUBLIC KEY-----")
       && env.parseKey(o[field].s).Some? && env.modulusBits(env.parseKey(o[field].s).value) >= 3072
    then env.parseKey(o[field].s) else None
  }

  // Thirty-two lower-case hexadecimal digits.
  predicate IsIdField(o: Object, field: string) {
    && field in o && o[field].Str? && |o[field].s| == 32
    && forall k :: 0 <= k < 32 ==> '0' <= o[field].s[k] <= '9' || 'a' <= o[field].s[k] <= 'f'
  }

  // The base64 text of 384 to 1024 bytes.
  ghost predicate IsRsaField(o: Object, field: string) {
    field in o && o[field].Str? && exists b: Bytes :: 384 <= |b| <= 1024 && o[field].s == Base64.Encode(b)
  }

  // The word private in a name, in letters of either case.
  ghost predicate NamesPrivate(field: string) {
    exists i :: 0 <= i && PrivateAt(field, i)
  }

  predicate PrivateAt(field: string, i: nat) {
    && i + 7 <= |field|
    && forall k :: 0 <= k < 7 ==> field[i + k] == "private"[k] || field[i + k] == "PRIVATE"[k]
  }

  // A field whose name or text speaks of a private key.
  ghost predicate ShowsPrivateKey(o: Object) {
    exists field :: field in o && (NamesPrivate(field) || (o[field].Str? && Contains(o[field].s, "PRIVATE KEY")))
  }

  lemma SaysExactly(o: Object, field: string)
    ensures Says(o, field) <==> IsText(o, field) && !IsBlank(o[field].s)
    ensures Names(o, field) <==> IsText(o, field) && IsIdentity(o[field].s)
  {
  }

  lemma KeyInExactly(env: Env, o: Object, field: string)
    ensures KeyIn(env, o, field) == if IsText(o, field) then ParsePem(env, o[field].s) else None
  {
    if IsText(o, field) {
      EmptyHasNoUnits(o[field].s);
    }
    hide Contains, Utf16Length;
  }

  lemma EmptyHasNoUnits(s: string)
    ensures s == "" <==> Utf16Length(s) == 0
  {
  }

  lemma IsIdFieldExactly(o: Object, field: string)
    ensures IsIdField(o, field) <==> IsText(o, field) && IsSessionId(o[field].s)
  {
  }

  lemma IsRsaFieldExactly(o: Object, field: string)
    ensures IsRsaField(o, field) <==> IsText(o, field) && IsRsaOutputField(o[field].s)
  {
    hide Base64.Encode, Base64.Decode, Base64.IsShaped;
    if IsText(o, field) {
      var s := o[field].s;
      if IsRsaOutputField(s) {
        assert s == Base64.Encode(Base64.Decode(s));
      }
      if b: Bytes :| 384 <= |b| <= 1024 && s == Base64.Encode(b) {
        Base64.DecodeEncode(b);
      }
    }
  }

  lemma LowerAt(field: string, i: nat, k: nat)
    requires i + 7 <= |field| && k < 7
    ensures AsciiLower(field)[i + k] == "private"[k] <==>
      field[i + k] == "private"[k] || field[i + k] == "PRIVATE"[k]
  {
  }

  lemma NamesPrivateExactly(field: string)
    ensures NamesPrivate(field) <==> Contains(AsciiLower(field), "private")
  {
    hide AsciiLower;
    var low := AsciiLower(field);
    forall i: nat | i + 7 <= |field|
      ensures PrivateAt(field, i) <==> "private" <= low[i..]
    {
      forall k | 0 <= k < 7
        ensures low[i + k] == "private"[k] <==> field[i + k] == "private"[k] || field[i + k] == "PRIVATE"[k]
        ensures low[i..][k] == low[i + k]
      {
        LowerAt(field, i, k);
      }
      PrefixAt("private", low[i..]);
    }
    if Contains(low, "private") {
      var i :| 0 <= i <= |low| && "private" <= low[i..];
      assert PrivateAt(field, i);
    }
  }

  lemma PrefixAt(p: string, s: string)
    requires |p| <= |s|
    ensures p <= s <==> forall k :: 0 <= k < |p| ==> s[k] == p[k]
  {
  }

  lemma ShowsPrivateKeyExactly(o: Object)
    ensures ShowsPrivateKey(o) <==> ContainsPrivateKeyMaterial(o)
  {
    hide Contains, AsciiLower, NamesPrivate;
    forall field: string
      ensures NamesPrivate(field) <==> Contains(AsciiLower(field), "private")
    {
      NamesPrivateExactly(field);
    }
  }

  // ---- Messages that are no handshake messages ---------------------------------------------------

  predicate IsHandshakeObject(o: Object) {
    IsOneOf(o, "type", {"HELLO", "KEY_EXCHANGE", "KEY_EXCHANGE_ACK"})
  }

  predicate VersionIsOneIfAny(o: Object) {
    "version" in o ==> o["version"] == Num(1)
  }

  ghost predicate IsPlainMessage(o: Object) {
    && VersionIsOneIfAny(o) && Says(o, "text")
    && (|| IsOneOf(o, "type", {"CHAT", "ERROR"})
        || (IsOneOf(o, "type", {"SYSTEM"}) &&
            ("event" in o ==> IsOneOf(o, "event", {"PEER_JOINED", "PEER_LEFT"}) && Names(o, "peer"))))
  }

  // Of all values that are no handshake message exactly these are valid.
  lemma PlainExactly(env: Env, j: Json)
    requires !(j.Obj? && IsHandshakeObject(j.fields))
    ensures ValidateMessage(env, j).Valid? <==> j.Obj? && IsPlainMessage(j.fields)
  {
    hide HandshakeVerdict, IsBlank, IsIdentity, Says, Names;
    if j.Obj? {
      SaysExactly(j.fields, "type");
      SaysExactly(j.fields, "text");
      SaysExactly(j.fields, "peer");
      PlainTypesSpeak(j.fields);
    }
  }

  lemma PlainTypesSpeak(o: Object)
    ensures IsOneOf(o, "type", {"CHAT", "ERROR", "SYSTEM"}) ==> Says(o, "type")
    ensures IsOneOf(o, "type", {"HELLO", "KEY_EXCHANGE", "KEY_EXCHANGE_ACK", "REKEY", "REKEY_ACK"}) ==> Says(o, "type")
  {
    if IsText(o, "type") && o["type"].s != "" && o["type"].s[0] in {'C', 'E', 'S', 'H', 'K', 'R'} {
      assert !IsJsSpace(o["type"].s[0]);
    }
  }

  // Why any other such value is refused, unless the refusal cannot be worded.
  lemma PlainRefusals(env: Env, o: Object)
    requires !IsHandshakeObject(o)
    ensures var v := ValidateMessage(env, Obj(o));
            var plain := IsOneOf(o, "type", {"CHAT", "SYSTEM", "ERROR"}) && VersionIsOneIfAny(o);
            var event := plain && Says(o, "text") && IsOneOf(o, "type", {"SYSTEM"}) && "event" in o;
            && (v == Invalid(MissingType) <==> !Says(o, "type"))
            && (v == Invalid(ReservedType) <==> IsOneOf(o, "type", {"REKEY", "REKEY_ACK"}))
            && (v == Invalid(UnsupportedType) <==>
                Says(o, "type") && !IsOneOf(o, "type", {"REKEY", "REKEY_ACK", "CHAT", "SYSTEM", "ERROR"}))
            && (v == Invalid(UnsupportedVersion) <==>
                IsOneOf(o, "type", {"CHAT", "SYSTEM", "ERROR"}) && !VersionIsOneIfAny(o) && Printable(o["version"]))
            && (v == Invalid(BadText) <==> plain && !Says(o, "text"))
            && (v == Invalid(UnknownEvent) <==>
                event && !IsOneOf(o, "event", {"PEER_JOINED", "PEER_LEFT"}) && Printable(o["event"]))
            && (v == Invalid(BadPeer) <==>
                event && IsOneOf(o, "event", {"PEER_JOINED", "PEER_LEFT"}) && !Names(o, "peer"))
    ensures forall j :: ValidateMessage(env, j) == Invalid(NotAnObject) <==> !j.Obj?
  {
    hide HandshakeVerdict, IsBlank, IsIdentity, Says, Names;
    SaysExactly(o, "type");
    SaysExactly(o, "text");
    SaysExactly(o, "peer");
    PlainTypesSpeak(o);
    OnlyObjects(env);
  }

  lemma OnlyObjects(env: Env)
    ensures forall j :: ValidateMessage(env, j) == Invalid(NotAnObject) <==> !j.Obj?
  {
    forall o: Object, kind: string
      ensures HandshakeVerdict(env, o, kind) != Invalid(NotAnObject)
    {
      NeverNoObject(env, o, kind);
    }
    hide HandshakeVerdict, IsBlank, IsIdentity;
  }

  lemma NeverNoObject(env: Env, o: Object, kind: string)
    ensures HandshakeVerdict(env, o, kind) != Invalid(NotAnObject)
  {
    FieldReasons(env, o, kind);
    hide FieldVerdict, ContainsPrivateKeyMaterial, Allowed;
  }

  // ---- Handshake messages ------------------------------------------------------------------------

  ghost predicate HasExactly(o: Object, fields: set<string>) {
    forall f :: f in o <==> f in fields
  }

  // The fields of a type, in the order in which missing ones are reported.
  function FieldOrder(kind: string): seq<string> {
    if kind == "HELLO" then ["type", "version", "sender", "encryptionPublicKey", "signingPublicKey"]
    else ["type", "version", "sender", "recipient", "sessionId"]
         + (if kind == "KEY_EXCHANGE" then ["encryptedSessionKey"] else []) + ["signature"]
  }

  function FieldsOf(kind: string): set<string> {
    set f | f in FieldOrder(kind)
  }

  // This is the first field of the order that the object lacks.
  ghost predicate LacksFirst(o: Object, order: seq<string>, name: string) {
    exists i :: 0 <= i < |order| && order[i] == name && name !in o && forall k :: 0 <= k < i ==> order[k] in o
  }

  lemma {:induction false} FirstMissingExactly(o: Object, order: seq<string>)
    ensures forall name :: FirstMissing(o, order) == Some(name) <==> LacksFirst(o, order, name)
  {
    if order != [] {
      FirstMissingExactly(o, order[1..]);
      forall name
        ensures LacksFirst(o, order, name) <==>
                  if order[0] !in o then name == order[0] else LacksFirst(o, order[1..], name)
      {
        LacksNext(o, order, name);
      }
    }
  }

  lemma LacksNext(o: Object, order: seq<string>, name: string)
    requires order != []
    ensures LacksFirst(o, order, name) <==>
              if order[0] !in o then name == order[0] else LacksFirst(o, order[1..], name)
  {
    if i :| 0 <= i < |order| && order[i] == name && name !in o && forall k :: 0 <= k < i ==> order[k] in o {
      if i > 0 {
        assert order[1..][i - 1] == name;
      }
    }
    if i :| 0 <= i < |order[1..]| && order[1..][i] == name && name !in o
            && forall k :: 0 <= k < i ==> order[1..][k] in o {
      assert order[i + 1] == name;
      assert order[0] in o ==> forall k :: 0 <= k < i + 1 ==> order[k] in o by {
        assert forall k :: 1 <= k < i + 1 ==> order[k] == order[1..][k - 1];
      }
    }
  }

  lemma OrderIsAllowed(kind: string)
    requires IsHandshakeType(kind)
    ensures FieldOrder(kind) == Allowed(kind)
  {
  }

  // Two different public keys, or two parties, a session ID and the RSA values of the type.
  ghost predicate HasBody(env: Env, o: Object, kind: string)
    requires "sender" in o
  {
    if kind == "HELLO" then
      && KeyIn(env, o, "encryptionPublicKey").Some? && KeyIn(env, o, "signingPublicKey").Some?
      && KeyIn(env, o, "encryptionPublicKey") != KeyIn(env, o, "signingPublicKey")
    else
      && Names(o, "recipient") && o["recipient"] != o["sender"] && IsIdField(o, "sessionId")
      && (kind == "KEY_EXCHANGE" ==> IsRsaField(o, "encryptedSessionKey")) && IsRsaField(o, "signature")
  }

  // The handshake messages in full.
  ghost predicate IsHandshakeMessage(env: Env, o: Object, kind: string) {
    && HasExactly(o, FieldsOf(kind)) && o["version"] == Num(1) && !ShowsPrivateKey(o)
    && Names(o, "sender") && HasBody(env, o, kind)
  }

  lemma FieldsExactly(o: Object, kind: string)
    requires IsHandshakeType(kind)
    ensures HasExactly(o, FieldsOf(kind)) <==> forall f :: f in o <==> f in Allowed(kind)
  {
    hide Allowed, FieldOrder;
    OrderIsAllowed(kind);
  }

  lemma BodyExactly(env: Env, o: Object, kind: string)
    requires IsHandshakeType(kind) && "sender" in o
    ensures FieldVerdict(env, o, kind).Valid? <==> Names(o, "sender") && HasBody(env, o, kind)
  {
    hide KeyIn, IsIdField, IsRsaField, Names, ParsePem, IsIdentity, IsRsaOutputField, IsSessionId;
    SaysExactly(o, "sender");
    SaysExactly(o, "recipient");
    KeyInExactly(env, o, "encryptionPublicKey");
    KeyInExactly(env, o, "signingPublicKey");
    IsIdFieldExactly(o, "sessionId");
    IsRsaFieldExactly(o, "encryptedSessionKey");
    IsRsaFieldExactly(o, "signature");
  }

  // Of the objects of a handshake type exactly these are valid.
  lemma HandshakeExactly(env: Env, o: Object)
    requires IsHandshakeObject(o)
    ensures ValidateMessage(env, Obj(o)).Valid? <==> IsHandshakeMessage(env, o, o["type"].s)
  {
    hide HandshakeVerdict, FieldVerdict, ContainsPrivateKeyMaterial, ShowsPrivateKey, HasBody, Names, Allowed, FieldsOf,
         ValidateMessage;
    var kind := o["type"].s;
    HandshakeAccepts(env, o, kind);
    ShowsPrivateKeyExactly(o);
    FieldsExactly(o, kind);
    VerdictOfType(env, o);
    SenderAllowed(kind);
    if "sender" in o {
      BodyExactly(env, o, kind);
    }
  }

  lemma SenderAllowed(kind: string)
    ensures "sender" in Allowed(kind) && "version" in Allowed(kind)
    ensures "sender" in FieldsOf(kind) && "version" in FieldsOf(kind)
  {
  }

  // Version 1, and nothing that looks like a private key.
  ghost predicate IsClean(o: Object) {
    !ShowsPrivateKey(o) && "version" in o && o["version"] == Num(1)
  }

  // Why a handshake message is refused before its fields are looked at.
  lemma HandshakeRefusals(env: Env, o: Object)
    requires IsHandshakeObject(o)
    ensures var v, fields := ValidateMessage(env, Obj(o)), FieldsOf(o["type"].s);
            var known := forall f :: f in o ==> f in fields;
            && (v == Invalid(PrivateKeyMaterial) <==> ShowsPrivateKey(o))
            && (v == Invalid(VersionRequired) <==> !ShowsPrivateKey(o) && "version" !in o)
            && (v == Invalid(UnsupportedVersion) <==>
                !ShowsPrivateKey(o) && "version" in o && o["version"] != Num(1) && Printable(o["version"]))
            && (v == Invalid(UnexpectedField) <==> IsClean(o) && !known)
            && (forall name :: v == Invalid(MissingField(name)) <==>
                  IsClean(o) && known && LacksFirst(o, FieldOrder(o["type"].s), name))
  {
    hide FieldVerdict, ContainsPrivateKeyMaterial, ShowsPrivateKey, Allowed, FieldsOf, FieldOrder, LacksFirst,
         ValidateMessage;
    var kind := o["type"].s;
    ShowsPrivateKeyExactly(o);
    KnownExactly(o, kind);
    VerdictOfType(env, o);
    OrderIsAllowed(kind);
    FirstMissingExactly(o, Allowed(kind));
    FieldReasons(env, o, kind);
  }

  lemma KnownExactly(o: Object, kind: string)
    requires IsHandshakeType(kind)
    ensures forall f :: f in FieldsOf(kind) <==> f in Allowed(kind)
  {
    hide Allowed, FieldOrder;
    OrderIsAllowed(kind);
  }

  lemma FieldReasons(env: Env, o: Object, kind: string)
    ensures var v := FieldVerdict(env, o, kind);
            v.Invalid? ==> !v.reason.NotAnObject? && !v.reason.PrivateKeyMaterial? && !v.reason.VersionRequired?
                           && !v.reason.UnsupportedVersion? && !v.reason.UnexpectedField? && !v.reason.MissingField?
    ensures !FieldVerdict(env, o, kind).Throws?
  {
    hide ParsePem, IsIdentity, IsSessionId, IsRsaOutputField;
  }

  // Why one with the right fields is refused: the first of them that fails its check.
  lemma FieldRefusals(env: Env, o: Object)
    requires IsHandshakeObject(o) && IsClean(o) && HasExactly(o, FieldsOf(o["type"].s))
    ensures var v, kind := ValidateMessage(env, Obj(o)), o["type"].s;
            var enc, sig := KeyIn(env, o, "encryptionPublicKey"), KeyIn(env, o, "signingPublicKey");
            var hello, signed := Names(o, "sender") && kind == "HELLO", Names(o, "sender") && kind != "HELLO";
            var parties := signed && Names(o, "recipient") && o["recipient"] != o["sender"];
            var id := parties && IsIdField(o, "sessionId");
            var wrapped := id && (kind == "KEY_EXCHANGE" ==> IsRsaField(o, "encryptedSessionKey"));
            && (v == Invalid(BadIdentity("sender")) <==> !Names(o, "sender"))
            && (v == Invalid(BadPublicKey("encryptionPublicKey")) <==> hello && enc.None?)
            && (v == Invalid(BadPublicKey("signingPublicKey")) <==> hello && enc.Some? && sig.None?)
            && (v == Invalid(ReusedKeys) <==> hello && enc.Some? && sig == enc)
            && (v == Invalid(BadIdentity("recipient")) <==> signed && !Names(o, "recipient"))
            && (v == Invalid(SameParties) <==> signed && Names(o, "recipient") && o["recipient"] == o["sender"])
            && (v == Invalid(BadSessionId) <==> parties && !IsIdField(o, "sessionId"))
            && (v == Invalid(BadRsaField("encryptedSessionKey")) <==> id && !wrapped)
            && (v == Invalid(BadRsaField("signature")) <==> wrapped && !IsRsaField(o, "signature"))
  {
    hide KeyIn, IsIdField, IsRsaField, Names, ParsePem, IsIdentity, IsRsaOutputField, IsSessionId,
         ShowsPrivateKey, ContainsPrivateKeyMaterial, HandshakeVerdict, FieldsOf, IsBlank, Says, Allowed;
    var kind := o["type"].s;
    VerdictOfFields(env, o);
    SaysExactly(o, "sender");
    SaysExactly(o, "recipient");
    KeyInExactly(env, o, "encryptionPublicKey");
    KeyInExactly(env, o, "signingPublicKey");
    IsIdFieldExactly(o, "sessionId");
    IsRsaFieldExactly(o, "encryptedSessionKey");
    IsRsaFieldExactly(o, "signature");
    SenderAllowed(kind);
  }

  lemma VerdictOfFields(env: Env, o: Object)
    requires IsHandshakeObject(o) && IsClean(o) && HasExactly(o, FieldsOf(o["type"].s))
    ensures ValidateMessage(env, Obj(o)) == FieldVerdict(env, o, o["type"].s)
  {
    hide FieldVerdict, ContainsPrivateKeyMaterial, ShowsPrivateKey, Allowed, FieldsOf, ValidateMessage;
    ShowsPrivateKeyExactly(o);
    KnownExactly(o, o["type"].s);
    VerdictOfType(env, o);
  }

  lemma VerdictOfType(env: Env, o: Object)
    requires IsHandshakeObject(o)
    ensures ValidateMessage(env, Obj(o)) == HandshakeVerdict(env, o, o["type"].s)
  {
    hide HandshakeVerdict, IsBlank;
    TypesAreNotBlank(o["type"].s);
  }
}
