// Construction and verification of the signed handshake messages (src/security/handshake.js).
module Handshake {
  import opened Wrappers
  import opened Text
  import opened Crypto
  import opened Messages
  import opened Validation
  import Base64
  import Canonical

  datatype HandshakeError =
    | Malformed | UnexpectedSender | NotAddressed | InvalidSignature
    | UndecryptableKey | WrongKeyLength | UnexpectedSessionId
    | PrimitiveFailed       // an exception that is not a HandshakeError

  // What createKeyExchange hands back, and the ledger after it.
  datatype Created = Created(message: Msg, sessionId: string, sessionKey: Bytes, ledger: Ledger)

  datatype Accepted = Accepted(sessionId: string, sessionKey: Bytes)

  function KeyFields(sender: string, recipient: string, sessionId: string, ciphertext: Bytes,
                     fingerprint: Bytes): Canonical.Fields {
    Canonical.Fields(PROTOCOL_VERSION, "KEY_EXCHANGE", sender, recipient, sessionId, Some(ciphertext),
                     Some(fingerprint))
  }

  function AckFields(sender: string, recipient: string, sessionId: string): Canonical.Fields {
    Canonical.Fields(PROTOCOL_VERSION, "KEY_EXCHANGE_ACK", sender, recipient, sessionId, None, None)
  }

  // The initiator's side. coins is None when a primitive throws.
  function CreateKeyExchange(env: Env, ledger: Ledger, sender: string, recipient: string,
                             signer: PublicKey, peerEncryption: PublicKey, coins: Option<KeyCoins>)
    : Result<Created, HandshakeError>
  {
    if coins.None? || !FitsOaep(env, peerEncryption, coins.value.sessionKey) then Failure(PrimitiveFailed)
    else
      var c := coins.value;
      var sessionId := Hex(c.idBytes);
      var wrapped := Wrapped(ledger, peerEncryption, c.sessionKey, c.ciphertext);
      match Canonical.CanonicalizeHandshake(KeyFields(sender, recipient, sessionId, c.ciphertext,
                                                      peerEncryption.fingerprint))
      case Failure(_) => Failure(PrimitiveFailed)
      case Success(data) =>
        Success(Created(
          KeyExchange(PROTOCOL_VERSION, sender, recipient, sessionId, Base64.Encode(c.ciphertext),
                      Base64.Encode(c.signature)),
          sessionId, c.sessionKey, Signed(wrapped, signer, data, c.signature)))
  }

  // The responder's side: authenticate first, decrypt afterwards.
  function VerifyKeyExchange(env: Env, ledger: Ledger, m: Msg, expectedSender: string, expectedRecipient: string,
                             peerSigning: PublicKey, ownEncryption: PublicKey)
    : Result<Accepted, HandshakeError>
  {
    if !m.KeyExchange? || !WellFormed(env, m) then Failure(Malformed)
    else if m.sender != expectedSender then Failure(UnexpectedSender)
    else if m.recipient != expectedRecipient then Failure(NotAddressed)
    else
      var ciphertext := Base64.Decode(m.encryptedSessionKey);
      match Canonical.CanonicalizeHandshake(SignedFields(m, ownEncryption.fingerprint))
      case Failure(_) => Failure(PrimitiveFailed)
      case Success(data) =>
        if !Verify(ledger, peerSigning, data, Base64.Decode(m.signature)) then Failure(InvalidSignature)
        else
          match RsaDecrypt(ledger, ownEncryption, ciphertext)
          case None => Failure(UndecryptableKey)
          case Some(key) =>
            if |key| != SESSION_KEY_BYTES then Failure(WrongKeyLength) else Success(Accepted(m.sessionId, key))
  }

  // The responder's acknowledgement and the ledger after it; signature is None when signing throws.
  function CreateKeyExchangeAck(ledger: Ledger, sender: string, recipient: string, sessionId: string,
                                signer: PublicKey, signature: Option<Bytes>)
    : Result<(Msg, Ledger), HandshakeError>
  {
    if signature.None? then Failure(PrimitiveFailed)
    else
      match Canonical.CanonicalizeHandshake(AckFields(sender, recipient, sessionId))
      case Failure(_) => Failure(PrimitiveFailed)
      case Success(data) =>
        Success((KeyExchangeAck(PROTOCOL_VERSION, sender, recipient, sessionId, Base64.Encode(signature.value)),
                 Signed(ledger, signer, data, signature.value)))
  }

  // None when the acknowledgement is accepted.
  function VerifyKeyExchangeAck(env: Env, ledger: Ledger, m: Msg, expectedSender: string, expectedRecipient: string,
                                expectedSessionId: string, peerSigning: PublicKey)
    : Option<HandshakeError>
  {
    if !m.KeyExchangeAck? || !WellFormed(env, m) then Some(Malformed)
    else if m.sender != expectedSender then Some(UnexpectedSender)
    else if m.recipient != expectedRecipient then Some(NotAddressed)
    else if m.sessionId != expectedSessionId then Some(UnexpectedSessionId)
    else
      match Canonical.CanonicalizeHandshake(SignedFields(m, []))
      case Failure(_) => Some(PrimitiveFailed)
      case Success(data) =>
        if !Verify(ledger, peerSigning, data, Base64.Decode(m.signature)) then Some(InvalidSignature) else None
  }

  // ---- The signed data as a value --------------------------------------------------------------

  // The bytes signed for a field record that has an encoding.
  function DataOf(f: Canonical.Fields): Bytes {
    match Canonical.CanonicalizeHandshake(f)
    case Success(data) => data
    case Failure(_) => []
  }

  predicate ValidParty(name: string) {
    IsIdentity(name) && NoPrivateMark(name)
  }

  lemma {:induction false} IdentitySize(s: string)
    ensures |Utf8(s)| <= 4 * Utf16Length(s)
  {
    if s != "" {
      IdentitySize(s[1..]);
    }
  }

  lemma PartyIsShort(s: string)
    requires IsIdentity(s)
    ensures s != "" && |Utf8(s)| <= 256
  {
    IdentitySize(s);
  }

  lemma SessionIdIsShort(s: string)
    requires IsSessionId(s)
    ensures s != "" && |Utf8(s)| == 32
  {
    AsciiByteLength(s);
  }

  lemma {:induction false} Utf8Bound(s: string)
    ensures |Utf8(s)| <= 4 * |s|
  {
    if s != "" {
      Utf8Bound(s[1..]);
    }
  }

  lemma ConstantsAreShort(kind: string)
    requires kind in {"KEY_EXCHANGE", "KEY_EXCHANGE_ACK"}
    ensures |Utf8(kind)| <= 256 && |Utf8(Canonical.SIGNATURE_LABEL)| <= 256 && |Utf8(Decimal(PROTOCOL_VERSION))| <= 256
  {
    hide Utf8;
    Utf8Bound(kind);
    Utf8Bound(Canonical.SIGNATURE_LABEL);
    Utf8Bound(Decimal(PROTOCOL_VERSION));
  }

  // The field records a validated message gives rise to always have an encoding.
  lemma KeyFieldsEncodable(sender: string, recipient: string, id: string, ciphertext: Bytes, fp: Bytes)
    requires IsIdentity(sender) && IsIdentity(recipient) && IsSessionId(id)
    requires |ciphertext| < Canonical.UINT32_LIMIT && |fp| < Canonical.UINT32_LIMIT
    ensures Canonical.Encodable(KeyFields(sender, recipient, id, ciphertext, fp))
  {
    hide Utf8, Decimal, IsIdentity, IsSessionId;
    PartyIsShort(sender);
    PartyIsShort(recipient);
    SessionIdIsShort(id);
    ConstantsAreShort("KEY_EXCHANGE");
  }

  lemma AckFieldsEncodable(sender: string, recipient: string, id: string)
    requires IsIdentity(sender) && IsIdentity(recipient) && IsSessionId(id)
    ensures Canonical.Encodable(AckFields(sender, recipient, id))
  {
    hide Utf8, Decimal, IsIdentity, IsSessionId;
    PartyIsShort(sender);
    PartyIsShort(recipient);
    SessionIdIsShort(id);
    ConstantsAreShort("KEY_EXCHANGE_ACK");
  }

  lemma DataOfEncodable(f: Canonical.Fields)
    requires Canonical.Encodable(f)
    ensures Canonical.CanonicalizeHandshake(f) == Wrappers.Success(DataOf(f))
    ensures DataOf(f) != []
  {
    Canonical.CanonicalizeIff(f);
    hide Canonical.CanonicalizeHandshake, Canonical.Encodable;
    DataIsNotEmpty(f);
  }

  lemma DataIsNotEmpty(f: Canonical.Fields)
    requires Canonical.CanonicalizeHandshake(f).Success?
    ensures Canonical.CanonicalizeHandshake(f).value != []
  {
    hide Utf8, Decimal;
    var fields := Canonical.CommonFields(f);
    assert |Canonical.Concatenated(fields).value| >= 4;
  }

  lemma DataInjective(f: Canonical.Fields, g: Canonical.Fields)
    requires Canonical.Encodable(f) && Canonical.Encodable(g) && DataOf(f) == DataOf(g)
    ensures f == g
  {
    DataOfEncodable(f);
    DataOfEncodable(g);
    hide Canonical.CanonicalizeHandshake, Canonical.Encodable;
    Canonical.CanonicalPrefixFree(f, g);
  }

  lemma SignedFieldsOfKeyExchange(env: Env, m: Msg, fp: Bytes)
    requires m.KeyExchange? && WellFormed(env, m) && |fp| < Canonical.UINT32_LIMIT
    ensures SignedFields(m, fp) == KeyFields(m.sender, m.recipient, m.sessionId, Base64.Decode(m.encryptedSessionKey),
                                             fp)
    ensures Canonical.Encodable(SignedFields(m, fp))
    ensures Canonical.CanonicalizeHandshake(SignedFields(m, fp)) == Wrappers.Success(DataOf(SignedFields(m, fp)))
  {
    hide Canonical.Encodable, Canonical.CanonicalizeHandshake, Base64.Decode, Contains, IsIdentity, IsSessionId;
    KeyFieldsEncodable(m.sender, m.recipient, m.sessionId, Base64.Decode(m.encryptedSessionKey), fp);
    DataOfEncodable(SignedFields(m, fp));
  }

  lemma SignedFieldsOfAck(env: Env, m: Msg)
    requires m.KeyExchangeAck? && WellFormed(env, m)
    ensures SignedFields(m, []) == AckFields(m.sender, m.recipient, m.sessionId)
    ensures Canonical.Encodable(SignedFields(m, []))
    ensures Canonical.CanonicalizeHandshake(SignedFields(m, [])) == Wrappers.Success(DataOf(SignedFields(m, [])))
  {
    hide Canonical.Encodable, Canonical.CanonicalizeHandshake, Contains, IsIdentity, IsSessionId;
    AckFieldsEncodable(m.sender, m.recipient, m.sessionId);
    DataOfEncodable(SignedFields(m, []));
  }

  // ---- What acceptance means ---------------------------------------------------------------------

  // A KEY_EXCHANGE is accepted with (id, key) exactly when it is well formed, names the two parties,
  // its signer signed exactly this id and ciphertext for the verifier's own key, and the ciphertext
  // unwraps to a key of 32 bytes.
  lemma KeyExchangeAcceptedIff(env: Env, ledger: Ledger, m: Msg, sender: string, recipient: string,
                               peerSigning: PublicKey, own: PublicKey, id: string, key: Bytes)
    ensures VerifyKeyExchange(env, ledger, m, sender, recipient, peerSigning, own) == Success(Accepted(id, key)) <==>
      && m.KeyExchange? && WellFormed(env, m)
      && m.sender == sender && m.recipient == recipient && m.sessionId == id
      && (var ct := Base64.Decode(m.encryptedSessionKey);
          && Signature(peerSigning, DataOf(KeyFields(sender, recipient, id, ct, own.fingerprint)),
                       Base64.Decode(m.signature))
               in ledger.signatures
          && RsaDecrypt(ledger, own, ct) == Some(key)
          && |key| == SESSION_KEY_BYTES)
  {
    hide Canonical.CanonicalizeHandshake, Canonical.Encodable, DataOf, Base64.Decode, Contains, IsIdentity,
         IsSessionId, SignedFields;
    if m.KeyExchange? && WellFormed(env, m) {
      SignedFieldsOfKeyExchange(env, m, own.fingerprint);
      DataOfEncodable(SignedFields(m, own.fingerprint));
    }
  }

  lemma AckAcceptedIff(env: Env, ledger: Ledger, m: Msg, sender: string, recipient: string, id: string,
                       peerSigning: PublicKey)
    ensures VerifyKeyExchangeAck(env, ledger, m, sender, recipient, id, peerSigning) == None <==>
      && m.KeyExchangeAck? && WellFormed(env, m)
      && m.sender == sender && m.recipient == recipient && m.sessionId == id
      && Signature(peerSigning, DataOf(AckFields(sender, recipient, id)),
                   Base64.Decode(m.signature)) in ledger.signatures
  {
    hide Canonical.CanonicalizeHandshake, Canonical.Encodable, DataOf, Base64.Decode, Contains, IsIdentity,
         IsSessionId, SignedFields;
    if m.KeyExchangeAck? && WellFormed(env, m) {
      SignedFieldsOfAck(env, m);
      DataOfEncodable(SignedFields(m, []));
    }
  }

  // ---- Completeness -------------------------------------------------------------------------------

  // The base64 form of a primitive's output passes the size check exactly up to 8192-bit moduli.
  lemma RsaOutputIff(env: Env, key: PublicKey, bytes: Bytes)
    requires env.modulusBits(key) >= MIN_MODULUS_LENGTH && |bytes| == ModulusBytes(env, key)
    ensures bytes != []
    ensures IsRsaOutputField(Base64.Encode(bytes)) <==> env.modulusBits(key) <= 8192
    ensures Base64.IsShaped(Base64.Encode(bytes)) && Base64.Decode(Base64.Encode(bytes)) == bytes
  {
    hide Base64.Encode, Base64.Decode;
    Base64.DecodeEncode(bytes);
  }

  lemma LongCiphertext(f: Canonical.Fields)
    requires f.kind == "KEY_EXCHANGE" && f.encryptedSessionKey.Some? && f.recipientFingerprint.Some?
    requires |f.encryptedSessionKey.value| >= Canonical.UINT32_LIMIT
    ensures !Canonical.Encodable(f)
  {
    hide Utf8, Decimal;
    assert f.encryptedSessionKey.value == Canonical.KeyFields(f)[0];
    assert f.version >= 0 ==> f.encryptedSessionKey.value in Canonical.CommonFields(f) + Canonical.KeyFields(f);
  }

  // The session key always passes rsaEncrypt's length guard, so createKeyExchange throws only if the
  // ciphertext length does not fit a uint32. Its message is well formed exactly when both moduli
  // involved are at most 8192 bits, and then the responder holding the wrapped-for key accepts it
  // with the very id and key that were created.
  lemma KeyExchangeComplete(env: Env, ledger: Ledger, sender: string, recipient: string,
                            signer: PublicKey, peerEncryption: PublicKey, coins: KeyCoins)
    requires ValidParty(sender) && ValidParty(recipient) && sender != recipient
    requires env.modulusBits(signer) >= MIN_MODULUS_LENGTH && env.modulusBits(peerEncryption) >= MIN_MODULUS_LENGTH
    requires LawfulKeyCoins(env, ledger, peerEncryption, signer, coins)
    ensures var r := CreateKeyExchange(env, ledger, sender, recipient, signer, peerEncryption, Some(coins));
            && (r.Success? <==> ModulusBytes(env, peerEncryption) < Canonical.UINT32_LIMIT)
            && (r.Success? ==>
                  && (WellFormed(env, r.value.message) <==>
                      env.modulusBits(signer) <= 8192 && env.modulusBits(peerEncryption) <= 8192)
                  && (WellFormed(env, r.value.message) ==>
                      VerifyKeyExchange(env, r.value.ledger, r.value.message, sender, recipient, signer, peerEncryption)
                      == Success(Accepted(r.value.sessionId, coins.sessionKey))))
  {
    hide Canonical.CanonicalizeHandshake, Canonical.Encodable, DataOf, Contains, IsIdentity, Base64.Encode,
         Base64.Decode, Hex, IsRsaOutputField;
    var id := Hex(coins.idBytes);
    var fields := KeyFields(sender, recipient, id, coins.ciphertext, peerEncryption.fingerprint);
    SessionKeyFitsOaep(env, peerEncryption, coins.sessionKey);
    Canonical.CanonicalizeIff(fields);
    if |coins.ciphertext| >= Canonical.UINT32_LIMIT {
      LongCiphertext(fields);
      return;
    }
    KeyFieldsEncodable(sender, recipient, id, coins.ciphertext, peerEncryption.fingerprint);
    DataOfEncodable(fields);
    RsaOutputIff(env, peerEncryption, coins.ciphertext);
    RsaOutputIff(env, signer, coins.signature);
    var r := CreateKeyExchange(env, ledger, sender, recipient, signer, peerEncryption, Some(coins)).value;
    KeyExchangeAcceptedIff(env, r.ledger, r.message, sender, recipient, signer, peerEncryption, id, coins.sessionKey);
    hide VerifyKeyExchange;
  }

  lemma AckComplete(env: Env, ledger: Ledger, sender: string, recipient: string, id: string, signer: PublicKey,
                    signature: Bytes)
    requires ValidParty(sender) && ValidParty(recipient) && sender != recipient && IsSessionId(id)
    requires env.modulusBits(signer) >= MIN_MODULUS_LENGTH && LawfulSignature(env, signer, signature)
    ensures var r := CreateKeyExchangeAck(ledger, sender, recipient, id, signer, Some(signature));
            && r.Success?
            && (WellFormed(env, r.value.0) <==> env.modulusBits(signer) <= 8192)
            && (WellFormed(env, r.value.0) ==>
                VerifyKeyExchangeAck(env, r.value.1, r.value.0, sender, recipient, id, signer) == None)
  {
    hide Canonical.CanonicalizeHandshake, Canonical.Encodable, DataOf, Contains, IsIdentity, Base64.Encode,
         Base64.Decode, IsSessionId, IsRsaOutputField;
    AckFieldsEncodable(sender, recipient, id);
    DataOfEncodable(AckFields(sender, recipient, id));
    RsaOutputIff(env, signer, signature);
    var r := CreateKeyExchangeAck(ledger, sender, recipient, id, signer, Some(signature)).value;
    AckAcceptedIff(env, r.1, r.0, sender, recipient, id, signer);
    hide VerifyKeyExchangeAck;
  }

  // ---- The layout of what is signed --------------------------------------------------------------

  // The bytes a KEY_EXCHANGE signature covers, read field by field.
  predicate CoversKey(x: Bytes, sender: string, recipient: string, id: string, ciphertext: Bytes, fingerprint: Bytes) {
    Canonical.ReadsAs(x, [Utf8("CipherLink handshake signature"), Utf8("1"), Utf8("KEY_EXCHANGE"), Utf8(sender),
                          Utf8(recipient), Utf8(id), ciphertext, fingerprint])
  }

  // The bytes a KEY_EXCHANGE_ACK signature covers.
  predicate CoversAck(x: Bytes, sender: string, recipient: string, id: string) {
    Canonical.ReadsAs(x, [Utf8("CipherLink handshake signature"), Utf8("1"), Utf8("KEY_EXCHANGE_ACK"), Utf8(sender),
                          Utf8(recipient), Utf8(id)])
  }

  lemma KeyDataExactly(sender: string, recipient: string, id: string, ciphertext: Bytes, fingerprint: Bytes, x: Bytes)
    requires Canonical.Encodable(KeyFields(sender, recipient, id, ciphertext, fingerprint))
    ensures x == DataOf(KeyFields(sender, recipient, id, ciphertext, fingerprint)) <==>
      CoversKey(x, sender, recipient, id, ciphertext, fingerprint)
  {
    hide Canonical.CanonicalizeHandshake, Canonical.Encodable, Canonical.ReadsAs, Utf8;
    var f := KeyFields(sender, recipient, id, ciphertext, fingerprint);
    Canonical.CanonicalizeExactly(f, x);
    DataOfEncodable(f);
    assert Canonical.SignedParts(f) == [Utf8("CipherLink handshake signature"), Utf8("1"), Utf8("KEY_EXCHANGE"),
                                        Utf8(sender), Utf8(recipient), Utf8(id), ciphertext, fingerprint];
  }

  lemma AckDataExactly(sender: string, recipient: string, id: string, x: Bytes)
    requires Canonical.Encodable(AckFields(sender, recipient, id))
    ensures x == DataOf(AckFields(sender, recipient, id)) <==> CoversAck(x, sender, recipient, id)
  {
    hide Canonical.CanonicalizeHandshake, Canonical.Encodable, Canonical.ReadsAs, Utf8;
    var f := AckFields(sender, recipient, id);
    Canonical.CanonicalizeExactly(f, x);
    DataOfEncodable(f);
    assert Canonical.SignedParts(f) == [Utf8("CipherLink handshake signature"), Utf8("1"), Utf8("KEY_EXCHANGE_ACK"),
                                        Utf8(sender), Utf8(recipient), Utf8(id)];
  }

  lemma EncodedFieldsAreEncodable(f: Canonical.Fields)
    requires Canonical.CanonicalizeHandshake(f).Success?
    ensures Canonical.Encodable(f) && Canonical.CanonicalizeHandshake(f) == Success(DataOf(f))
  {
    Canonical.CanonicalizeIff(f);
    hide Canonical.CanonicalizeHandshake, Canonical.Encodable;
  }

  // What createKeyExchange makes: the message with the drawn id, the key wrapped for the recipient and a
  // signature over these and the recipient's fingerprint.
  lemma CreatedExactly(env: Env, ledger: Ledger, sender: string, recipient: string, signer: PublicKey,
                       peerEncryption: PublicKey, c: KeyCoins)
    requires CreateKeyExchange(env, ledger, sender, recipient, signer, peerEncryption, Some(c)).Success?
    ensures var made := CreateKeyExchange(env, ledger, sender, recipient, signer, peerEncryption, Some(c)).value;
            var id := Hex(c.idBytes);
            && made.sessionId == id && made.sessionKey == c.sessionKey
            && made.message == KeyExchange(1, sender, recipient, id, Base64.Encode(c.ciphertext),
                                           Base64.Encode(c.signature))
            && made.ledger.wraps == ledger.wraps[Wrapping(peerEncryption, c.ciphertext) := c.sessionKey]
            && exists x :: CoversKey(x, sender, recipient, id, c.ciphertext, peerEncryption.fingerprint)
                           && made.ledger.signatures == ledger.signatures + {Signature(signer, x, c.signature)}
  {
    hide Canonical.CanonicalizeHandshake, Canonical.Encodable, CoversKey, Base64.Encode, Hex, FitsOaep, DataOf;
    var f := KeyFields(sender, recipient, Hex(c.idBytes), c.ciphertext, peerEncryption.fingerprint);
    EncodedFieldsAreEncodable(f);
    KeyDataExactly(sender, recipient, Hex(c.idBytes), c.ciphertext, peerEncryption.fingerprint, DataOf(f));
  }

  lemma AckCreatedExactly(ledger: Ledger, sender: string, recipient: string, id: string, signer: PublicKey,
                          signature: Bytes)
    requires CreateKeyExchangeAck(ledger, sender, recipient, id, signer, Some(signature)).Success?
    ensures var made := CreateKeyExchangeAck(ledger, sender, recipient, id, signer, Some(signature)).value;
            && made.0 == KeyExchangeAck(1, sender, recipient, id, Base64.Encode(signature))
            && made.1.wraps == ledger.wraps
            && exists x :: CoversAck(x, sender, recipient, id)
                           && made.1.signatures == ledger.signatures + {Signature(signer, x, signature)}
  {
    hide Canonical.CanonicalizeHandshake, Canonical.Encodable, CoversAck, Base64.Encode, DataOf;
    EncodedFieldsAreEncodable(AckFields(sender, recipient, id));
    AckDataExactly(sender, recipient, id, DataOf(AckFields(sender, recipient, id)));
  }

  // The holder of this key signed these values, and the text of its signature is in the message.
  ghost predicate KeySignedBy(ledger: Ledger, signer: PublicKey, m: Msg, ownFingerprint: Bytes) {
    m.KeyExchange? && Base64.IsShaped(m.encryptedSessionKey) && Base64.IsShaped(m.signature) &&
    exists x :: CoversKey(x, m.sender, m.recipient, m.sessionId, Base64.Decode(m.encryptedSessionKey), ownFingerprint)
                && Signature(signer, x, Base64.Decode(m.signature)) in ledger.signatures
  }

  ghost predicate AckSignedBy(ledger: Ledger, signer: PublicKey, m: Msg) {
    m.KeyExchangeAck? && Base64.IsShaped(m.signature) &&
    exists x :: CoversAck(x, m.sender, m.recipient, m.sessionId)
                && Signature(signer, x, Base64.Decode(m.signature)) in ledger.signatures
  }

  // What the carried ciphertext unwraps to.
  function Unwrapped(ledger: Ledger, own: PublicKey, m: Msg): Option<Bytes> {
    if m.KeyExchange? && Base64.IsShaped(m.encryptedSessionKey)
    then RsaDecrypt(ledger, own, Base64.Decode(m.encryptedSessionKey)) else None
  }

  // Why a KEY_EXCHANGE is refused: the first of the checks that fails, and nothing is decrypted before the
  // signature is verified.
  lemma KeyExchangeRefusals(env: Env, ledger: Ledger, m: Msg, sender: string, recipient: string,
                            peerSigning: PublicKey, own: PublicKey)
    ensures var r := VerifyKeyExchange(env, ledger, m, sender, recipient, peerSigning, own);
            var proper := m.KeyExchange? && WellFormed(env, m);
            var addressed := proper && m.sender == sender && m.recipient == recipient;
            var signed := KeySignedBy(ledger, peerSigning, m, own.fingerprint);
            var plaintext := Unwrapped(ledger, own, m);
            && (r == Failure(Malformed) <==> !proper)
            && (r == Failure(UnexpectedSender) <==> proper && m.sender != sender)
            && (r == Failure(NotAddressed) <==> proper && m.sender == sender && m.recipient != recipient)
            && (r == Failure(InvalidSignature) <==> addressed && !signed)
            && (r == Failure(UndecryptableKey) <==> addressed && signed && plaintext.None?)
            && (r == Failure(WrongKeyLength) <==>
                addressed && signed && plaintext.Some? && |plaintext.value| != 32)
            && (r.Success? <==> addressed && signed && plaintext.Some? && |plaintext.value| == 32)
            && (r.Success? ==> r.value == Accepted(m.sessionId, plaintext.value))
  {
    hide Canonical.CanonicalizeHandshake, Canonical.Encodable, CoversKey, DataOf, Base64.Decode, Contains, IsIdentity,
         IsSessionId, SignedFields, KeyFields, KeySignedBy, ParsePem;
    if m.KeyExchange? && WellFormed(env, m) {
      SignedFieldsOfKeyExchange(env, m, own.fingerprint);
      DataOfEncodable(SignedFields(m, own.fingerprint));
      KeySignedByData(ledger, peerSigning, m, own.fingerprint);
    }
  }

  lemma KeySignedByData(ledger: Ledger, signer: PublicKey, m: Msg, fp: Bytes)
    requires m.KeyExchange? && Base64.IsShaped(m.encryptedSessionKey) && Base64.IsShaped(m.signature)
    requires var f := KeyFields(m.sender, m.recipient, m.sessionId, Base64.Decode(m.encryptedSessionKey), fp);
             Canonical.Encodable(f)
    ensures var f := KeyFields(m.sender, m.recipient, m.sessionId, Base64.Decode(m.encryptedSessionKey), fp);
            KeySignedBy(ledger, signer, m, fp) <==>
            Signature(signer, DataOf(f), Base64.Decode(m.signature)) in ledger.signatures
  {
    hide Canonical.Encodable, CoversKey, DataOf, Base64.Decode, KeyFields;
    forall x
      ensures x == DataOf(KeyFields(m.sender, m.recipient, m.sessionId, Base64.Decode(m.encryptedSessionKey), fp))
              <==> CoversKey(x, m.sender, m.recipient, m.sessionId, Base64.Decode(m.encryptedSessionKey), fp)
    {
      KeyDataExactly(m.sender, m.recipient, m.sessionId, Base64.Decode(m.encryptedSessionKey), fp, x);
    }
  }

  // Why a KEY_EXCHANGE_ACK is refused.
  lemma AckRefusals(env: Env, ledger: Ledger, m: Msg, sender: string, recipient: string, id: string,
                    peerSigning: PublicKey)
    ensures var r := VerifyKeyExchangeAck(env, ledger, m, sender, recipient, id, peerSigning);
            if !m.KeyExchangeAck? || !WellFormed(env, m) then r == Some(Malformed)
            else
              && (r == Some(UnexpectedSender) <==> m.sender != sender)
              && (r == Some(NotAddressed) <==> m.sender == sender && m.recipient != recipient)
              && (r == Some(UnexpectedSessionId) <==>
                  m.sender == sender && m.recipient == recipient && m.sessionId != id)
              && (m.sender == sender && m.recipient == recipient && m.sessionId == id ==>
                  r == if AckSignedBy(ledger, peerSigning, m) then None else Some(InvalidSignature))
  {
    hide Canonical.CanonicalizeHandshake, Canonical.Encodable, DataOf, Base64.Decode, Contains, IsIdentity,
         IsSessionId, SignedFields, AckFields, AckSignedBy, ParsePem;
    if m.KeyExchangeAck? && WellFormed(env, m) {
      SignedFieldsOfAck(env, m);
      DataOfEncodable(SignedFields(m, []));
      AckSignedByData(ledger, peerSigning, m);
    }
  }

  lemma AckSignedByData(ledger: Ledger, signer: PublicKey, m: Msg)
    requires m.KeyExchangeAck? && Base64.IsShaped(m.signature)
    requires Canonical.Encodable(AckFields(m.sender, m.recipient, m.sessionId))
    ensures AckSignedBy(ledger, signer, m) <==>
      Signature(signer, DataOf(AckFields(m.sender, m.recipient, m.sessionId)), Base64.Decode(m.signature))
      in ledger.signatures
  {
    hide Canonical.Encodable, CoversAck, DataOf, Base64.Decode, AckFields;
    forall x
      ensures x == DataOf(AckFields(m.sender, m.recipient, m.sessionId))
              <==> CoversAck(x, m.sender, m.recipient, m.sessionId)
    {
      AckDataExactly(m.sender, m.recipient, m.sessionId, x);
    }
  }
}
