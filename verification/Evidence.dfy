// What a valid signature proves. The records are history: which keys were created and wrapped for
// whom, and which sessions were acknowledged. Both network models carry them along.
module Evidence {
  import opened Wrappers
  import opened Text
  import opened Crypto
  import opened Messages
  import opened Validation
  import opened Handshake
  import opened Sessions
  import Base64
  import Canonical

  // A createKeyExchange of an initiator with this signing key.
  datatype KeyRecord = KeyRecord(signer: PublicKey, recipient: PublicKey, sessionId: string, ciphertext: Bytes,
                                 sessionKey: Bytes)

  // A responder with this signing key became ESTABLISHED.
  datatype AckRecord = AckRecord(signer: PublicKey, sessionId: string, sessionKey: Bytes)

  datatype History = History(keys: set<KeyRecord>, acks: set<AckRecord>)

  function KeyData(id: string, ciphertext: Bytes, recipient: PublicKey): Bytes {
    DataOf(KeyFields(Name(ClientA), Name(ClientB), id, ciphertext, recipient.fingerprint))
  }

  function AckData(id: string): Bytes {
    DataOf(AckFields(Name(ClientB), Name(ClientA), id))
  }

  predicate ValidRecord(r: KeyRecord) {
    IsSessionId(r.sessionId) && |r.ciphertext| < Canonical.UINT32_LIMIT && |r.sessionKey| == SESSION_KEY_BYTES
  }

  // The record behind a signature.
  predicate ExplainsAsKey(h: History, s: Signature, r: KeyRecord) {
    r in h.keys && r.signer == s.signer && s.data == KeyData(r.sessionId, r.ciphertext, r.recipient)
  }

  predicate ExplainsAsAck(h: History, s: Signature, a: AckRecord) {
    a in h.acks && a.signer == s.signer && s.data == AckData(a.sessionId)
  }

  ghost predicate Explained(h: History, s: Signature) {
    (exists r :: ExplainsAsKey(h, s, r)) || (exists a :: ExplainsAsAck(h, s, a))
  }

  // Unforgeability: every signature under an honest key was issued for a record of the history.
  ghost predicate SignaturesExplained(h: History, ledger: Ledger, honest: set<PublicKey>) {
    forall s :: s in ledger.signatures && s.signer in honest ==> Explained(h, s)
  }

  // OAEP: the wraps of recorded keys still open to them.
  predicate WrapsRecorded(h: History, ledger: Ledger) {
    forall r :: r in h.keys ==> RsaDecrypt(ledger, r.recipient, r.ciphertext) == Some(r.sessionKey)
  }

  predicate RecordsValid(h: History) {
    && (forall r :: r in h.keys ==> ValidRecord(r))
    && (forall a :: a in h.acks ==> IsSessionId(a.sessionId))
  }

  // Session IDs are drawn fresh, so an ID names one created key.
  predicate IdsUnique(h: History) {
    forall r, r' :: r in h.keys && r' in h.keys && r.sessionId == r'.sessionId ==> r == r'
  }

  ghost predicate Sound(h: History, ledger: Ledger, honest: set<PublicKey>) {
    SignaturesExplained(h, ledger, honest) && WrapsRecorded(h, ledger) && RecordsValid(h) && IdsUnique(h)
  }

  // ---- Reading the signed bytes back -----------------------------------------------------------

  lemma NamesAreParties()
    ensures ValidParty(Name(ClientA)) && ValidParty(Name(ClientB)) && Name(ClientA) != Name(ClientB)
  {
    NamesDiffer();
    NameIsIdentity(ClientA);
    NameIsIdentity(ClientB);
    NameHasNoMark(ClientA);
    NameHasNoMark(ClientB);
    hide Name, IsIdentity, NoPrivateMark;
  }

  lemma ContainsIsLonger(s: string, sub: string)
    requires Contains(s, sub)
    ensures |sub| <= |s|
  {
  }

  lemma NameHasNoMark(r: Role)
    ensures NoPrivateMark(Name(r))
  {
    hide Contains;
    if Contains(Name(r), PRIVATE_KEY_MARK) {
      ContainsIsLonger(Name(r), PRIVATE_KEY_MARK);
    }
  }

  lemma KeyDataInjective(id: string, ct: Bytes, pk: PublicKey, id': string, ct': Bytes, pk': PublicKey)
    requires IsSessionId(id) && IsSessionId(id') && |ct| < 0x1_0000_0000 && |ct'| < 0x1_0000_0000
    requires KeyData(id, ct, pk) == KeyData(id', ct', pk')
    ensures id == id' && ct == ct' && pk == pk'
  {
    hide DataOf, Canonical.Encodable, IsSessionId, Name, IsIdentity, NoPrivateMark;
    NamesAreParties();
    KeyFieldsEncodable(Name(ClientA), Name(ClientB), id, ct, pk.fingerprint);
    KeyFieldsEncodable(Name(ClientA), Name(ClientB), id', ct', pk'.fingerprint);
    DataInjective(KeyFields(Name(ClientA), Name(ClientB), id, ct, pk.fingerprint),
                  KeyFields(Name(ClientA), Name(ClientB), id', ct', pk'.fingerprint));
  }

  lemma AckDataInjective(id: string, id': string)
    requires IsSessionId(id) && IsSessionId(id') && AckData(id) == AckData(id')
    ensures id == id'
  {
    hide DataOf, Canonical.Encodable, IsSessionId, Name, IsIdentity, NoPrivateMark;
    NamesAreParties();
    AckFieldsEncodable(Name(ClientB), Name(ClientA), id);
    AckFieldsEncodable(Name(ClientB), Name(ClientA), id');
    DataInjective(AckFields(Name(ClientB), Name(ClientA), id), AckFields(Name(ClientB), Name(ClientA), id'));
  }

  lemma KeyDataIsNotAckData(id: string, ct: Bytes, pk: PublicKey, id': string)
    requires IsSessionId(id) && IsSessionId(id') && |ct| < 0x1_0000_0000
    ensures KeyData(id, ct, pk) != AckData(id')
  {
    hide DataOf, Canonical.Encodable, IsSessionId, Name, IsIdentity, NoPrivateMark;
    NamesAreParties();
    KeyFieldsEncodable(Name(ClientA), Name(ClientB), id, ct, pk.fingerprint);
    AckFieldsEncodable(Name(ClientB), Name(ClientA), id');
    var f := KeyFields(Name(ClientA), Name(ClientB), id, ct, pk.fingerprint);
    var g := AckFields(Name(ClientB), Name(ClientA), id');
    assert f.encryptedSessionKey != g.encryptedSessionKey;
    if DataOf(f) == DataOf(g) {
      DataInjective(f, g);
    }
  }

  // A KEY_EXCHANGE accepted under an honest signing key was created by its holder, with that ID and
  // key, for the acceptor's own encryption key.
  lemma AcceptedKeyIsRecorded(env: Env, h: History, ledger: Ledger, honest: set<PublicKey>, m: Msg,
                              peerSigning: PublicKey, own: PublicKey, id: string, key: Bytes)
    returns (r: KeyRecord)
    requires Sound(h, ledger, honest) && peerSigning in honest
    requires VerifyKeyExchange(env, ledger, m, Name(ClientA), Name(ClientB), peerSigning,
                               own) == Success(Accepted(id, key))
    ensures r in h.keys && r.signer == peerSigning && r.recipient == own && r.sessionId == id && r.sessionKey == key
  {
    KeyExchangeAcceptedIff(env, ledger, m, Name(ClientA), Name(ClientB), peerSigning, own, id, key);
    AcceptedSizes(env, m);
    hide VerifyKeyExchange, DataOf, Canonical.Encodable, IsSessionId, Name, WellFormed, Base64.Decode, Base64.IsShaped;
    var ct := Base64.Decode(m.encryptedSessionKey);
    var s := Signature(peerSigning, KeyData(id, ct, own), Base64.Decode(m.signature));
    assert s in ledger.signatures;
    assert Explained(h, s);
    if exists a :: ExplainsAsAck(h, s, a) {
      var a :| ExplainsAsAck(h, s, a);
      KeyDataIsNotAckData(id, ct, own, a.sessionId);
    }
    r :| ExplainsAsKey(h, s, r);
    KeyDataInjective(id, ct, own, r.sessionId, r.ciphertext, r.recipient);
  }

  lemma AcceptedSizes(env: Env, m: Msg)
    requires m.KeyExchange? && WellFormed(env, m)
    ensures IsSessionId(m.sessionId)
    ensures Base64.IsShaped(m.encryptedSessionKey) && |Base64.Decode(m.encryptedSessionKey)| <= MAX_RSA_OUTPUT_BYTES
  {
    hide Base64.Decode, Contains, IsIdentity;
  }

  // An acknowledgement accepted under an honest signing key: its holder is or was ESTABLISHED with the ID.
  lemma AcceptedAckIsRecorded(env: Env, h: History, ledger: Ledger, honest: set<PublicKey>, m: Msg,
                              peerSigning: PublicKey, id: string)
    returns (a: AckRecord)
    requires Sound(h, ledger, honest) && peerSigning in honest
    requires VerifyKeyExchangeAck(env, ledger, m, Name(ClientB), Name(ClientA), id, peerSigning) == None
    ensures a in h.acks && a.signer == peerSigning && a.sessionId == id
  {
    AckAcceptedIff(env, ledger, m, Name(ClientB), Name(ClientA), id, peerSigning);
    AckHasSessionId(env, m);
    hide VerifyKeyExchangeAck, DataOf, Canonical.Encodable, IsSessionId, Name, WellFormed, Base64.Decode,
         Base64.IsShaped;
    var s := Signature(peerSigning, AckData(id), Base64.Decode(m.signature));
    assert s in ledger.signatures;
    assert Explained(h, s);
    if exists r :: ExplainsAsKey(h, s, r) {
      var r :| ExplainsAsKey(h, s, r);
      KeyDataIsNotAckData(r.sessionId, r.ciphertext, r.recipient, id);
    }
    a :| ExplainsAsAck(h, s, a);
    AckDataInjective(id, a.sessionId);
  }

  lemma AckHasSessionId(env: Env, m: Msg)
    requires m.KeyExchangeAck? && WellFormed(env, m)
    ensures IsSessionId(m.sessionId)
  {
    hide Contains, IsIdentity;
  }

  // ---- The records a step adds --------------------------------------------------------------------

  // The key record of a createKeyExchange and the acknowledgement record of a responder.
  function Recorded(h: History, s: Session, o: Outcome, coins: Coins): History {
    if o.result.event == KeyExchangeSent && coins.key.Some? && o.session.peerEncryption.Some? then
      h.(keys := h.keys + {KeyRecord(s.identity.signing, o.session.peerEncryption.value, Hex(coins.key.value.idBytes),
                                     coins.key.value.ciphertext, coins.key.value.sessionKey)})
    else if o.result.event == SessionEstablished && s.role == ClientB && o.session.sessionId.Some? &&
         o.session.sessionKey.Some? then
      h.(acks := h.acks + {AckRecord(s.identity.signing, o.session.sessionId.value, o.session.sessionKey.value)})
    else h
  }

  // The primitives' guarantees for one step of session s on message m: sizes, no ciphertext with two
  // meanings, and a session ID never drawn before.
  predicate LawfulCoins(env: Env, h: History, ledger: Ledger, s: Session, m: Msg, c: Coins) {
    && (c.key.Some? && m.Hello? ==>
        match ImportPublicKey(env, m.encryptionPublicKey)
        case None => true
        case Some(pk) =>
          && LawfulKeyCoins(env, ledger, pk, s.identity.signing, c.key.value)
          && forall r :: r in h.keys ==> r.sessionId != Hex(c.key.value.idBytes))
    && (c.ackSignature.Some? ==> LawfulSignature(env, s.identity.signing, c.ackSignature.value))
  }

  // ---- Soundness is kept ----------------------------------------------------------------------------

  // The facts about an initiator's step that creates a key.
  predicate Creates(env: Env, h: History, ledger: Ledger, s: Session, m: Msg, o: Outcome, c: KeyCoins) {
    && s.role == ClientA && s.state == NoSession && m.Hello?
    && o.session.peerEncryption.Some? && o.session.peerEncryption == ImportPublicKey(env, m.encryptionPublicKey)
    && o.session.peerSigning == ImportPublicKey(env, m.signingPublicKey)
    && o.session.sessionId == Some(Hex(c.idBytes)) && o.session.sessionKey == Some(c.sessionKey)
    && o.session.state == KeySent
    && |c.ciphertext| < Canonical.UINT32_LIMIT
    && o.ledger == Signed(Wrapped(ledger, o.session.peerEncryption.value, c.sessionKey, c.ciphertext),
                          s.identity.signing,
                          KeyData(Hex(c.idBytes), c.ciphertext, o.session.peerEncryption.value), c.signature)
  }

  lemma KeyExchangeSentCreates(env: Env, h: History, ledger: Ledger, s: Session, m: Msg, coins: Coins)
    requires OnMessage(env, ledger, s, m, coins).result.event == KeyExchangeSent
    ensures coins.key.Some? && Creates(env, h, ledger, s, m, OnMessage(env, ledger, s, m, coins), coins.key.value)
  {
    hide VerifyKeyExchange, VerifyKeyExchangeAck, CreateKeyExchangeAck, ImportPublicKey, Hex,
         Canonical.CanonicalizeHandshake,
         Name, Base64.Encode;
    var c := coins.key.value;
    var pk := ImportPublicKey(env, m.encryptionPublicKey).value;
    SignedMeansEncodable(KeyFields(Name(ClientA), Name(ClientB), Hex(c.idBytes), c.ciphertext, pk.fingerprint));
  }

  lemma SignedMeansEncodable(f: Canonical.Fields)
    ensures Canonical.CanonicalizeHandshake(f).Success? ==>
      && Canonical.CanonicalizeHandshake(f).value == DataOf(f)
      && (f.encryptedSessionKey.Some? ==> |f.encryptedSessionKey.value| < Canonical.UINT32_LIMIT)
  {
    Canonical.CanonicalizeIff(f);
    hide Canonical.CanonicalizeHandshake;
    if Canonical.CanonicalizeHandshake(f).Success? {
      if f.encryptedSessionKey.Some? && f.recipientFingerprint.Some? &&
      |f.encryptedSessionKey.value| >= Canonical.UINT32_LIMIT {
        if f.kind == "KEY_EXCHANGE" {
          LongCiphertext(f);
        }
      }
    }
  }

  // The facts about a responder's step that establishes a session.
  predicate Accepts(env: Env, ledger: Ledger, s: Session, m: Msg, o: Outcome, signature: Bytes) {
    && s.role == ClientB && s.state == HelloExchanged && m.KeyExchange? && s.peerSigning.Some?
    && o.session.sessionId == Some(m.sessionId) && o.session.sessionKey.Some?
    && o.session == s.(sessionId := o.session.sessionId, sessionKey := o.session.sessionKey, state := Established)
    && VerifyKeyExchange(env, ledger, m, Name(ClientA), Name(ClientB), s.peerSigning.value, s.identity.encryption)
       == Success(Accepted(m.sessionId, o.session.sessionKey.value))
    && o.ledger == Signed(ledger, s.identity.signing, AckData(m.sessionId), signature)
  }

  lemma EstablishedBAccepts(env: Env, ledger: Ledger, s: Session, m: Msg, coins: Coins)
    requires OnMessage(env, ledger, s, m, coins).result.event == SessionEstablished && s.role == ClientB
    ensures coins.ackSignature.Some?
    ensures Accepts(env, ledger, s, m, OnMessage(env, ledger, s, m, coins), coins.ackSignature.value)
  {
    hide CreateKeyExchange, VerifyKeyExchangeAck, ImportPublicKey, Canonical.CanonicalizeHandshake, Name,
         Base64.Encode, WellFormed,
         Base64.Decode;
    SignedMeansEncodable(AckFields(Name(ClientB), Name(ClientA), m.sessionId));
  }

  // The facts about an initiator's step that establishes a session.
  lemma EstablishedAVerifies(env: Env, ledger: Ledger, s: Session, m: Msg, coins: Coins)
    requires OnMessage(env, ledger, s, m, coins).result.event == SessionEstablished && s.role == ClientA
    ensures var o := OnMessage(env, ledger, s, m, coins);
            && s.state == KeySent && s.peerSigning.Some? && s.sessionId.Some? && m.KeyExchangeAck?
            && o.session == s.(state := Established) && o.ledger == ledger
            && VerifyKeyExchangeAck(env, ledger, m, Name(ClientB), Name(ClientA), s.sessionId.value,
                                    s.peerSigning.value) == None
  {
    hide CreateKeyExchange, VerifyKeyExchange, VerifyKeyExchangeAck, CreateKeyExchangeAck, ImportPublicKey, Name;
  }

  // Every other step leaves the ledger alone, and the established states untouched.
  lemma OtherSteps(env: Env, ledger: Ledger, s: Session, m: Msg, coins: Coins)
    requires Inv(s) && WellFormed(env, m)
    requires OnMessage(env, ledger, s, m, coins).result.event in {NoEvent, PeerKeysReceived}
    ensures var o := OnMessage(env, ledger, s, m, coins);
            && o.ledger == ledger
            && (o.session.state in {KeySent, Established} ==> o.session == s)
            && (o.session.sessionId == s.sessionId)
            && ((o.session.peerEncryption == s.peerEncryption && o.session.peerSigning == s.peerSigning)
                || (m.Hello? && s.state == NoSession
                    && o.session.peerEncryption == ImportPublicKey(env, m.encryptionPublicKey)
                    && o.session.peerSigning == ImportPublicKey(env, m.signingPublicKey)))
  {
    hide CreateKeyExchange, VerifyKeyExchange, VerifyKeyExchangeAck, CreateKeyExchangeAck, ImportPublicKey, Name,
         WellFormed;
  }

  lemma StepKeepsSound(env: Env, h: History, ledger: Ledger, honest: set<PublicKey>, s: Session, m: Msg, coins: Coins)
    requires Sound(h, ledger, honest) && Inv(s) && WellFormed(env, m)
    requires LawfulCoins(env, h, ledger, s, m, coins)
    ensures var o := OnMessage(env, ledger, s, m, coins);
            Sound(Recorded(h, s, o, coins), o.ledger, honest)
  {
    hide OnMessage, WellFormed, KeyData, AckData, VerifyKeyExchange, Hex, ImportPublicKey, Name, IsSessionId;
    var o := OnMessage(env, ledger, s, m, coins);
    var h' := Recorded(h, s, o, coins);
    match o.result.event
    case KeyExchangeSent =>
      KeyExchangeSentCreates(env, h, ledger, s, m, coins);
      CreationKeepsSound(env, h, ledger, honest, s, m, o, coins);
    case SessionEstablished =>
      if s.role == ClientB {
        EstablishedBAccepts(env, ledger, s, m, coins);
        AcceptanceKeepsSound(env, h, ledger, honest, s, m, o, coins);
      } else {
        EstablishedAVerifies(env, ledger, s, m, coins);
      }
    case _ =>
      OtherSteps(env, ledger, s, m, coins);
  }

  lemma CreationKeepsSound(env: Env, h: History, ledger: Ledger, honest: set<PublicKey>, s: Session, m: Msg,
                           o: Outcome, coins: Coins)
    requires Sound(h, ledger, honest) && o.result.event == KeyExchangeSent
    requires coins.key.Some? && Creates(env, h, ledger, s, m, o, coins.key.value)
    requires LawfulCoins(env, h, ledger, s, m, coins)
    ensures Sound(Recorded(h, s, o, coins), o.ledger, honest)
  {
    hide KeyData, AckData, Hex, ImportPublicKey, Name;
    var c := coins.key.value;
    var h' := Recorded(h, s, o, coins);
    var r := KeyRecord(s.identity.signing, o.session.peerEncryption.value, Hex(c.idBytes), c.ciphertext, c.sessionKey);
    HexIsSessionId(c.idBytes);
    forall sig | sig in o.ledger.signatures && sig.signer in honest
      ensures Explained(h', sig)
    {
      if sig in ledger.signatures {
        ExplanationPersists(h, h', sig);
      } else {
        assert ExplainsAsKey(h', sig, r);
      }
    }
    assert WrapsRecorded(h', o.ledger);
  }

  lemma HexIsSessionId(b: Bytes)
    requires |b| == SESSION_ID_BYTES
    ensures IsSessionId(Hex(b))
  {
  }

  lemma ExplanationPersists(h: History, h': History, s: Signature)
    requires Explained(h, s) && h.keys <= h'.keys && h.acks <= h'.acks
    ensures Explained(h', s)
  {
    hide KeyData, AckData;
    if exists r :: ExplainsAsKey(h, s, r) {
      var r :| ExplainsAsKey(h, s, r);
      assert ExplainsAsKey(h', s, r);
    } else {
      var a :| ExplainsAsAck(h, s, a);
      assert ExplainsAsAck(h', s, a);
    }
  }

  lemma AcceptanceKeepsSound(env: Env, h: History, ledger: Ledger, honest: set<PublicKey>, s: Session, m: Msg,
                             o: Outcome, coins: Coins)
    requires Sound(h, ledger, honest) && WellFormed(env, m) && o.result.event == SessionEstablished
    requires coins.ackSignature.Some? && Accepts(env, ledger, s, m, o, coins.ackSignature.value)
    ensures Sound(Recorded(h, s, o, coins), o.ledger, honest)
  {
    hide Sound, KeyData, AckData, Hex, ImportPublicKey, Name, WellFormed, VerifyKeyExchange, IsSessionId;
    KeyHasSessionId(env, m);
    AckingKeepsSound(h, ledger, honest, AckRecord(s.identity.signing, m.sessionId, o.session.sessionKey.value),
                     coins.ackSignature.value);
  }

  lemma AckingKeepsSound(h: History, ledger: Ledger, honest: set<PublicKey>, a: AckRecord, signature: Bytes)
    requires Sound(h, ledger, honest) && IsSessionId(a.sessionId)
    ensures Sound(h.(acks := h.acks + {a}), Signed(ledger, a.signer, AckData(a.sessionId), signature), honest)
  {
    hide KeyData, AckData, IsSessionId;
    var h' := h.(acks := h.acks + {a});
    var ledger' := Signed(ledger, a.signer, AckData(a.sessionId), signature);
    forall sig | sig in ledger'.signatures && sig.signer in honest
      ensures Explained(h', sig)
    {
      if sig in ledger.signatures {
        ExplanationPersists(h, h', sig);
      } else {
        assert ExplainsAsAck(h', sig, a);
      }
    }
  }

  lemma KeyHasSessionId(env: Env, m: Msg)
    requires m.KeyExchange? && WellFormed(env, m)
    ensures IsSessionId(m.sessionId)
  {
    hide Contains, IsIdentity;
  }

  // ---- What a step puts on the wire -------------------------------------------------------------------------

  lemma SentWhenCreating(env: Env, ledger: Ledger, s: Session, m: Msg, coins: Coins)
    requires OnMessage(env, ledger, s, m, coins).result.event == KeyExchangeSent
    ensures coins.key.Some?
    ensures var c := coins.key.value;
            OnMessage(env, ledger, s, m, coins).result.outgoing == OwnHelloOnce(env, s) +
              [KeyExchange(PROTOCOL_VERSION, Name(ClientA), Name(ClientB), Hex(c.idBytes), Base64.Encode(c.ciphertext),
                           Base64.Encode(c.signature))]
  {
    hide VerifyKeyExchange, VerifyKeyExchangeAck, CreateKeyExchangeAck, ImportPublicKey, Hex,
         Canonical.CanonicalizeHandshake,
         Name, Base64.Encode, OwnHello;
  }

  lemma SentWhenAccepting(env: Env, ledger: Ledger, s: Session, m: Msg, coins: Coins)
    requires OnMessage(env, ledger, s, m, coins).result.event == SessionEstablished && s.role == ClientB
    requires m.KeyExchange?
    ensures coins.ackSignature.Some?
    ensures OnMessage(env, ledger, s, m, coins).result.outgoing ==
      [KeyExchangeAck(PROTOCOL_VERSION, Name(ClientB), Name(ClientA), m.sessionId,
                      Base64.Encode(coins.ackSignature.value))]
  {
    hide CreateKeyExchange, VerifyKeyExchangeAck, ImportPublicKey, Canonical.CanonicalizeHandshake, Name,
         Base64.Encode, WellFormed,
         Base64.Decode;
  }

  lemma SentOtherwise(env: Env, ledger: Ledger, s: Session, m: Msg, coins: Coins)
    requires OnMessage(env, ledger, s, m, coins).result.event in {NoEvent, PeerKeysReceived}
      || (OnMessage(env, ledger, s, m, coins).result.event == SessionEstablished && s.role == ClientA)
    ensures forall x :: x in OnMessage(env, ledger, s, m, coins).result.outgoing ==> x == OwnHello(env, s)
  {
    hide CreateKeyExchange, VerifyKeyExchange, VerifyKeyExchangeAck, CreateKeyExchangeAck, ImportPublicKey, Name,
         OwnHello;
  }

  // A signature is all it takes to acknowledge a well-formed KEY_EXCHANGE.
  lemma AckCreatedIff(env: Env, ledger: Ledger, m: Msg, signer: PublicKey, signature: Option<Bytes>)
    requires m.KeyExchange? && WellFormed(env, m)
    ensures CreateKeyExchangeAck(ledger, Name(ClientB), Name(ClientA), m.sessionId, signer, signature).Success? <==>
              signature.Some?
  {
    hide Canonical.CanonicalizeHandshake, Canonical.Encodable, Name, WellFormed, IsSessionId, IsIdentity,
         NoPrivateMark, DataOf;
    NamesAreParties();
    KeyHasSessionId(env, m);
    AckFieldsEncodable(Name(ClientB), Name(ClientA), m.sessionId);
    DataOfEncodable(AckFields(Name(ClientB), Name(ClientA), m.sessionId));
  }
}
