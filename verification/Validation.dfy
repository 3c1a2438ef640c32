// What structural validation accepts, and how far the signed bytes determine a message.
module Validation {
  import opened Wrappers
  import opened Text
  import opened Crypto
  import opened Messages
  import Base64
  import Canonical

  function KindOf(m: Msg): string {
    match m
    case Hello(_, _, _, _) => "HELLO"
    case KeyExchange(_, _, _, _, _, _) => "KEY_EXCHANGE"
    case KeyExchangeAck(_, _, _, _, _) => "KEY_EXCHANGE_ACK"
  }

  // ---- Objects and messages ----------------------------------------------------------------

  lemma FromToObject(m: Msg)
    ensures FromObject(ToObject(m)) == m
    ensures TextOf(ToObject(m), "type") == KindOf(m)
  {
  }

  // With exactly the allowed fields, all of the right type, the object is the message's own.
  ghost predicate HasShape(o: Object, kind: string) {
    && (forall f :: f in o <==> f in Allowed(kind))
    && o["version"].Num?
    && o["type"] == Str(kind)
    && forall f :: f in o && f != "version" ==> o[f].Str?
  }

  // The fields of a schema, as a set.
  lemma AllowedNames(kind: string, f: string)
    ensures kind == "HELLO" ==>
      (f in Allowed(kind) <==> f in {"type", "version", "sender", "encryptionPublicKey", "signingPublicKey"})
    ensures kind == "KEY_EXCHANGE" ==>
      (f in Allowed(kind) <==>
       f in {"type", "version", "sender", "recipient", "sessionId", "encryptedSessionKey", "signature"})
    ensures kind == "KEY_EXCHANGE_ACK" ==>
      (f in Allowed(kind) <==> f in {"type", "version", "sender", "recipient", "sessionId", "signature"})
  {
  }

  predicate SameField(o: Object, p: Object, f: string) {
    (f in p <==> f in o) && (f in o ==> p[f] == o[f])
  }

  lemma HelloShape(o: Object, f: string)
    requires HasShape(o, "HELLO")
    ensures FromObject(o).Hello? && SameField(o, ToObject(FromObject(o)), f)
  {
    hide Allowed;
    AllowedNames("HELLO", f);
    AllowedNames("HELLO", "type");
    AllowedNames("HELLO", "version");
  }

  lemma KeyShape(o: Object, f: string)
    requires HasShape(o, "KEY_EXCHANGE")
    ensures FromObject(o).KeyExchange? && SameField(o, ToObject(FromObject(o)), f)
  {
    hide Allowed;
    AllowedNames("KEY_EXCHANGE", f);
    AllowedNames("KEY_EXCHANGE", "type");
    AllowedNames("KEY_EXCHANGE", "version");
  }

  lemma AckShape(o: Object, f: string)
    requires HasShape(o, "KEY_EXCHANGE_ACK")
    ensures FromObject(o).KeyExchangeAck? && SameField(o, ToObject(FromObject(o)), f)
  {
    hide Allowed;
    AllowedNames("KEY_EXCHANGE_ACK", f);
    AllowedNames("KEY_EXCHANGE_ACK", "type");
    AllowedNames("KEY_EXCHANGE_ACK", "version");
  }

  lemma ShapeIsMessage(o: Object, kind: string)
    requires IsHandshakeType(kind) && HasShape(o, kind)
    ensures ToObject(FromObject(o)) == o && KindOf(FromObject(o)) == kind
  {
    hide Allowed, HasShape, FromObject, ToObject;
    forall f
      ensures SameField(o, ToObject(FromObject(o)), f) && KindOf(FromObject(o)) == kind
    {
      if kind == "HELLO" {
        HelloShape(o, f);
      } else if kind == "KEY_EXCHANGE" {
        KeyShape(o, f);
      } else {
        AckShape(o, f);
      }
    }
    assert SameField(o, ToObject(FromObject(o)), "type");
    SameFieldsSameObject(o, ToObject(FromObject(o)));
  }

  lemma SameFieldsSameObject(o: Object, p: Object)
    requires forall f :: SameField(o, p, f)
    ensures o == p
  {
    forall f
      ensures (f in p <==> f in o) && (f in o ==> p[f] == o[f])
    {
      assert SameField(o, p, f);
    }
  }

  // ---- Soundness of validation --------------------------------------------------------------

  lemma NoMarkInFields(o: Object, field: string)
    requires !ContainsPrivateKeyMaterial(o) && field in o && o[field].Str?
    ensures NoPrivateMark(o[field].s)
  {
    hide Contains;
  }

  // A handshake object is accepted exactly when it carries no private-key mark, has version 1 and
  // the fields of its schema, and each field passes its own check.
  lemma HandshakeAccepts(env: Env, o: Object, kind: string)
    ensures HandshakeVerdict(env, o, kind).Valid? <==>
      && !ContainsPrivateKeyMaterial(o)
      && "version" in o && o["version"] == Num(PROTOCOL_VERSION)
      && (forall f :: f in o <==> f in Allowed(kind))
      && FieldVerdict(env, o, kind).Valid?
  {
    hide ContainsPrivateKeyMaterial, FieldVerdict, Allowed;
  }

  lemma ValidHasShape(env: Env, o: Object, kind: string)
    requires IsHandshakeType(kind) && IsText(o, "type") && o["type"].s == kind
    requires HandshakeVerdict(env, o, kind).Valid?
    ensures HasShape(o, kind)
  {
    HandshakeAccepts(env, o, kind);
    hide ContainsPrivateKeyMaterial, ParsePem, IsIdentity, IsRsaOutputField, IsSessionId, Allowed, HandshakeVerdict;
    forall f | f in o && f != "version"
      ensures o[f].Str?
    {
      AllowedNames(kind, f);
    }
  }

  lemma ValidIsWellFormed(env: Env, o: Object)
    requires IsValidHandshake(env, o)
    ensures ToObject(FromObject(o)) == o && WellFormed(env, FromObject(o))
    ensures KindOf(FromObject(o)) == TextOf(o, "type")
  {
    hide ContainsPrivateKeyMaterial, ParsePem, IsIdentity, IsRsaOutputField, IsSessionId, Allowed, ToObject,
         NoPrivateMark, IsBlank, HandshakeVerdict;
    var kind := o["type"].s;
    HandshakeAccepts(env, o, kind);
    ValidHasShape(env, o, kind);
    SchemaFields(o, kind);
    ShapeIsMessage(o, kind);
    NoMarkInFields(o, "sender");
    if kind == "HELLO" {
      NoMarkInFields(o, "encryptionPublicKey");
      NoMarkInFields(o, "signingPublicKey");
    } else {
      NoMarkInFields(o, "recipient");
    }
  }

  lemma SchemaFields(o: Object, kind: string)
    requires IsHandshakeType(kind) && HasShape(o, kind)
    ensures "type" in o && "version" in o && IsText(o, "sender")
    ensures kind == "HELLO" ==> IsText(o, "encryptionPublicKey") && IsText(o, "signingPublicKey")
    ensures kind != "HELLO" ==> IsText(o, "recipient") && IsText(o, "sessionId") && IsText(o, "signature")
    ensures kind == "KEY_EXCHANGE" ==> IsText(o, "encryptedSessionKey")
  {
    hide Allowed;
    AllowedNames(kind, "sender");
    AllowedNames(kind, "recipient");
    AllowedNames(kind, "sessionId");
    AllowedNames(kind, "signature");
    AllowedNames(kind, "encryptedSessionKey");
    AllowedNames(kind, "encryptionPublicKey");
    AllowedNames(kind, "signingPublicKey");
  }

  // ---- Completeness of validation --------------------------------------------------------------

  lemma ObjectHasShape(m: Msg)
    ensures HasShape(ToObject(m), KindOf(m))
  {
    hide Allowed;
    forall f
      ensures f in ToObject(m) <==> f in Allowed(KindOf(m))
    {
      AllowedNames(KindOf(m), f);
    }
    AllowedNames(KindOf(m), "type");
    AllowedNames(KindOf(m), "version");
  }

  lemma KindHasNoMark(m: Msg)
    ensures NoPrivateMark(KindOf(m))
  {
    hide Contains;
    if Contains(KindOf(m), PRIVATE_KEY_MARK) {
      MarkHasSpace(KindOf(m));
    }
  }

  // Every text field of a well-formed message is free of the private-key mark.
  lemma WellFormedHasNoMark(env: Env, m: Msg, field: string)
    requires WellFormed(env, m) && field in ToObject(m) && ToObject(m)[field].Str?
    ensures NoPrivateMark(ToObject(m)[field].s)
  {
    hide Contains, ParsePem, IsIdentity, NoPrivateMark, IsSessionId, IsRsaOutputField;
    KindHasNoMark(m);
    SignedFieldsHaveNoMark(env, m);
  }

  lemma SignedFieldsHaveNoMark(env: Env, m: Msg)
    requires WellFormed(env, m)
    ensures !m.Hello? ==> NoPrivateMark(m.sessionId) && NoPrivateMark(m.signature)
    ensures m.KeyExchange? ==> NoPrivateMark(m.encryptedSessionKey)
  {
    hide Contains, ParsePem, IsIdentity, NoPrivateMark, IsSessionId, Base64.IsCanonicalBase64, Base64.Decode;
    if !m.Hello? {
      HexHasNoMark(m.sessionId);
      Base64HasNoMark(m.signature);
    }
    if m.KeyExchange? {
      Base64HasNoMark(m.encryptedSessionKey);
    }
  }

  lemma WellFormedHasNoPrivateMaterial(env: Env, m: Msg)
    requires WellFormed(env, m)
    ensures !ContainsPrivateKeyMaterial(ToObject(m))
  {
    hide WellFormed, Contains, ToObject, Allowed, KindOf;
    var o := ToObject(m);
    ObjectHasShape(m);
    forall field | field in o
      ensures !Contains(AsciiLower(field), "private") && (o[field].Str? ==> !Contains(o[field].s, PRIVATE_KEY_MARK))
    {
      SchemaNamesArePublic(KindOf(m), field);
      if o[field].Str? {
        WellFormedHasNoMark(env, m, field);
      }
    }
  }

  lemma KindNotBlank(m: Msg)
    ensures !IsBlank(KindOf(m)) && IsHandshakeType(KindOf(m))
  {
    assert KindOf(m)[0] == 'H' || KindOf(m)[0] == 'K';
  }

  lemma WellFormedIsValid(env: Env, m: Msg)
    requires WellFormed(env, m)
    ensures IsValidHandshake(env, ToObject(m))
  {
    hide WellFormed, HandshakeVerdict, IsBlank, ToObject, Allowed, KindOf, FieldVerdict, ContainsPrivateKeyMaterial;
    WellFormedFields(env, m);
    WellFormedVersion(env, m);
    WellFormedHasNoPrivateMaterial(env, m);
    ObjectHasShape(m);
    KindNotBlank(m);
    FromToObject(m);
    HandshakeAccepts(env, ToObject(m), KindOf(m));
    assert IsText(ToObject(m), "type");
  }

  lemma WellFormedVersion(env: Env, m: Msg)
    requires WellFormed(env, m)
    ensures "version" in ToObject(m) && ToObject(m)["version"] == Num(PROTOCOL_VERSION)
  {
    hide Contains, ParsePem, IsIdentity, NoPrivateMark, IsSessionId, IsRsaOutputField;
  }

  lemma WellFormedFields(env: Env, m: Msg)
    requires WellFormed(env, m)
    ensures FieldVerdict(env, ToObject(m), KindOf(m)).Valid?
  {
    hide Contains, ParsePem, IsIdentity, NoPrivateMark, IsSessionId, IsRsaOutputField;
  }

  // Validation accepts a handshake object exactly when it is the object of a well-formed message:
  // no other field, no other type of value, can ride along.
  lemma ValidationExact(env: Env, o: Object)
    ensures IsValidHandshake(env, o) <==> exists m: Msg :: o == ToObject(m) && WellFormed(env, m)
  {
    hide WellFormed, IsValidHandshake, ToObject, FromObject;
    if IsValidHandshake(env, o) {
      ValidIsWellFormed(env, o);
    }
    if exists m: Msg :: o == ToObject(m) && WellFormed(env, m) {
      var m: Msg :| o == ToObject(m) && WellFormed(env, m);
      WellFormedIsValid(env, m);
    }
  }

  // ---- Signed bytes determine the message ----------------------------------------------------------

  // The canonical fields a verifier whose own key has the given fingerprint rebuilds from a message.
  function SignedFields(m: Msg, ownFingerprint: Bytes): Canonical.Fields
    requires !m.Hello? && m.version == PROTOCOL_VERSION
    requires m.KeyExchange? ==> Base64.IsShaped(m.encryptedSessionKey)
  {
    match m
    case KeyExchange(v, s, r, i, k, _) =>
      Canonical.Fields(v, "KEY_EXCHANGE", s, r, i, Some(Base64.Decode(k)), Some(ownFingerprint))
    case KeyExchangeAck(v, s, r, i, _) =>
      Canonical.Fields(v, "KEY_EXCHANGE_ACK", s, r, i, None, None)
  }

  // The message with its signature text replaced.
  function WithSignature(m: Msg, signature: string): Msg
    requires !m.Hello?
  {
    match m
    case KeyExchange(v, s, r, i, k, _) => KeyExchange(v, s, r, i, k, signature)
    case KeyExchangeAck(v, s, r, i, _) => KeyExchangeAck(v, s, r, i, signature)
  }

  // Two validated signed messages whose signed bytes are equal, or of which one's begin the
  // other's, agree on every field except the signature, the base64 text of the ciphertext included.
  lemma SignedBytesDetermineMessage(env: Env, o1: Object, o2: Object, fp1: Bytes, fp2: Bytes)
    requires IsValidHandshake(env, o1) && !FromObject(o1).Hello?
    requires IsValidHandshake(env, o2) && !FromObject(o2).Hello?
    ensures var m1, m2 := FromObject(o1), FromObject(o2);
            && WellFormed(env, m1) && WellFormed(env, m2)
            && var c1 := Canonical.CanonicalizeHandshake(SignedFields(m1, fp1));
               var c2 := Canonical.CanonicalizeHandshake(SignedFields(m2, fp2));
               c1.Success? && c2.Success? && c1.value <= c2.value ==>
                 && WithSignature(m1, "") == WithSignature(m2, "")
                 && o1["signature" := Null] == o2["signature" := Null]
                 && (m1.KeyExchange? ==> fp1 == fp2)
  {
    hide IsValidHandshake, Canonical.CanonicalizeHandshake, ToObject, FromObject;
    ValidIsWellFormed(env, o1);
    ValidIsWellFormed(env, o2);
    var m1, m2 := FromObject(o1), FromObject(o2);
    var f1, f2 := SignedFields(m1, fp1), SignedFields(m2, fp2);
    var c1, c2 := Canonical.CanonicalizeHandshake(f1), Canonical.CanonicalizeHandshake(f2);
    if c1.Success? && c2.Success? && c1.value <= c2.value {
      Canonical.CanonicalPrefixFree(f1, f2);
      if m1.KeyExchange? {
        Base64.CanonicalDecodeInjective(m1.encryptedSessionKey, m2.encryptedSessionKey);
      }
      ObjectsUpToSignature(m1, m2);
    }
  }

  lemma ObjectsUpToSignature(m1: Msg, m2: Msg)
    requires !m1.Hello? && !m2.Hello? && WithSignature(m1, "") == WithSignature(m2, "")
    ensures ToObject(m1)["signature" := Null] == ToObject(m2)["signature" := Null]
  {
  }
}
