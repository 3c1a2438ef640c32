// The session class with its mutable fields and key buffers (src/security/peer-session.js:52-263,
// src/security/handshake.js:117-146). Every method is proved to do what the functions of Sessions say,
// and to zero each key buffer it lets go of.
module PeerSessions {
  import opened Wrappers
  import opened Text
  import opened Crypto
  import opened Messages
  import opened Validation
  import opened Handshake
  import opened Sessions
  import Spec = Sessions
  import Evidence
  import Base64
  import Canonical

  ghost predicate Zeroed(b: array<Byte>)
    reads b
  {
    forall i :: 0 <= i < b.Length ==> b[i] == 0
  }

  // buffer.fill(0)
  method Fill0(b: array<Byte>)
    modifies b
    ensures Zeroed(b)
  {
    for i := 0 to b.Length
      invariant forall j :: 0 <= j < i ==> b[j] == 0
    {
      b[i] := 0;
    }
  }

  method ToBuffer(bytes: Bytes) returns (b: array<Byte>)
    ensures fresh(b) && b[..] == bytes
  {
    b := new Byte[|bytes|](i requires 0 <= i < |bytes| => bytes[i]);
  }

  // What a KEY_EXCHANGE is accepted with in a session, if its handler gets as far as verifying it.
  function AcceptedIn(env: Env, ledger: Ledger, s: Session, m: Msg): Option<Accepted> {
    if s.role == ClientB && s.state == HelloExchanged && m.KeyExchange? && s.peerSigning.Some? then
      match VerifyKeyExchange(env, ledger, m, Name(ClientA), Name(ClientB), s.peerSigning.value, s.identity.encryption)
      case Success(accepted) => Some(accepted)
      case Failure(_) => None
    else None
  }

  // The key was accepted, but signing the acknowledgement throws.
  predicate KeyLeftBehind(env: Env, ledger: Ledger, s: Session, m: Msg, coins: Coins) {
    AcceptedIn(env, ledger, s, m).Some? && coins.ackSignature.None?
  }

  // A HELLO makes the session draw a key.
  predicate DrawsKey(s: Session, m: Msg) {
    m.Hello? && s.role == ClientA && s.state == NoSession && m.sender == Name(ClientB)
  }

  // What generateSessionKey returned, also where a later primitive throws.
  predicate DrawOk(coins: Coins, draw: Option<Bytes>) {
    coins.key.Some? ==> draw == Some(coins.key.value.sessionKey)
  }

  // Such inputs exist: a responder that knows the creator of any key made for it, and whose signing
  // key throws, leaves exactly that key behind.
  lemma KeyLeftBehindAt(env: Env, ledger: Ledger, creator: Identity, id: Identity, k: KeyCoins)
    requires MIN_MODULUS_LENGTH <= env.modulusBits(creator.signing) <= 8192
    requires MIN_MODULUS_LENGTH <= env.modulusBits(id.encryption) <= 8192
    requires LawfulKeyCoins(env, ledger, id.encryption, creator.signing, k)
    ensures var made := CreateKeyExchange(env, ledger, Name(ClientA), Name(ClientB), creator.signing, id.encryption,
                                          Some(k));
            var s := Fresh(ClientB, id).(state := HelloExchanged, helloSent := true,
                                         peerEncryption := Some(creator.encryption),
                                         peerSigning := Some(creator.signing));
            && made.Success? && made.value.message.KeyExchange? && Inv(s)
            && KeyLeftBehind(env, made.value.ledger, s, made.value.message, Coins(None, None))
            && AcceptedIn(env, made.value.ledger, s, made.value.message).value.sessionKey == k.sessionKey
            && OnKeyExchange(env, made.value.ledger, s, made.value.message, Coins(None, None)).session.state == Failed
  {
    hide VerifyKeyExchange, CreateKeyExchange, WellFormed, ValidParty, Name, LawfulKeyCoins;
    Evidence.NamesAreParties();
    KeyExchangeComplete(env, ledger, Name(ClientA), Name(ClientB), creator.signing, id.encryption, k);
    CreatedIsKeyExchange(env, ledger, creator.signing, id.encryption, k);
  }

  lemma CreatedIsKeyExchange(env: Env, ledger: Ledger, signer: PublicKey, peer: PublicKey, k: KeyCoins)
    requires CreateKeyExchange(env, ledger, Name(ClientA), Name(ClientB), signer, peer, Some(k)).Success?
    ensures CreateKeyExchange(env, ledger, Name(ClientA), Name(ClientB), signer, peer,
                              Some(k)).value.message.KeyExchange?
  {
    hide Canonical.CanonicalizeHandshake, Name;
  }

  // verifyKeyExchange, with the decrypted key in a buffer. scratch is that buffer, whether or not
  // the caller gets it: a buffer of the wrong length has been zeroed.
  method VerifyIntoBuffer(env: Env, ledger: Ledger, m: Msg, expectedSender: string, expectedRecipient: string,
                          peerSigning: PublicKey, ownEncryption: PublicKey)
    returns (r: Result<(string, array<Byte>), HandshakeError>, ghost scratch: array?<Byte>)
    ensures r.Success? ==> fresh(r.value.1)
    ensures scratch != null ==> fresh(scratch)
    ensures var spec := VerifyKeyExchange(env, ledger, m, expectedSender, expectedRecipient, peerSigning,
                                          ownEncryption);
            && (r.Success? <==> spec.Success?)
            && (r.Success? ==> spec.value == Accepted(r.value.0, r.value.1[..]) && scratch == r.value.1)
            && (r.Failure? ==> r.error == spec.error)
            && (r.Failure? ==> (scratch != null <==> r.error == WrongKeyLength))
            && (r.Failure? && scratch != null ==> Zeroed(scratch))
  {
    hide Base64.Decode, Canonical.CanonicalizeHandshake;
    scratch := null;
    if !m.KeyExchange? || !WellFormed(env, m) {
      return Failure(Malformed), null;
    }
    if m.sender != expectedSender {
      return Failure(UnexpectedSender), null;
    }
    if m.recipient != expectedRecipient {
      return Failure(NotAddressed), null;
    }
    var ciphertext := Base64.Decode(m.encryptedSessionKey);
    var signedData := Canonical.CanonicalizeHandshake(SignedFields(m, ownEncryption.fingerprint));
    if signedData.Failure? {
      return Failure(PrimitiveFailed), null;
    }
    if !Verify(ledger, peerSigning, signedData.value, Base64.Decode(m.signature)) {
      return Failure(InvalidSignature), null;
    }
    var plaintext := RsaDecrypt(ledger, ownEncryption, ciphertext);
    if plaintext.None? {
      return Failure(UndecryptableKey), null;
    }
    var sessionKey := ToBuffer(plaintext.value);
    scratch := sessionKey;
    if sessionKey.Length != SESSION_KEY_BYTES {
      Fill0(sessionKey);
      return Failure(WrongKeyLength), scratch;
    }
    r := Success((m.sessionId, sessionKey));
  }

  class PeerSession {
    const selfId: Role
    const identity: Identity
    var state: State
    var helloSent: bool
    var sessionId: Option<string>
    var sessionKey: array?<Byte>
    var peerEncryptionPublicKey: Option<PublicKey>
    var peerSigningPublicKey: Option<PublicKey>

    // Every key buffer the session has stored and let go of.
    ghost var retired: set<array<Byte>>

    // The fields as a value.
    ghost function View(): Session
      reads this, sessionKey
    {
      Session(selfId, identity, state, helloSent, sessionId,
              if sessionKey == null then None else Some(sessionKey[..]),
              peerEncryptionPublicKey, peerSigningPublicKey)
    }

    // The representation invariant: the state machine's own, and no released buffer holds a key.
    ghost predicate Valid()
      reads this, sessionKey, retired
    {
      && Inv(View())
      && (sessionKey != null ==> sessionKey !in retired)
      && forall b :: b in retired ==> Zeroed(b)
    }

    constructor (selfId: Role, identity: Identity)
      ensures Valid() && View() == Fresh(selfId, identity) && retired == {}
    {
      this.selfId := selfId;
      this.identity := identity;
      state := NoSession;
      helloSent := false;
      sessionId := None;
      sessionKey := null;
      peerEncryptionPublicKey := None;
      peerSigningPublicKey := None;
      retired := {};
    }

    // The sessionKey getter: the live buffer, once ESTABLISHED.
    function ExposedKey(): array?<Byte>
      reads this
    {
      if state == Established then sessionKey else null
    }

    // The getter gives a buffer exactly in ESTABLISHED, to either role: the live one, with the session's key in it.
    ghost predicate GivesKeyExactly()
      reads this, sessionKey
    {
      && (ExposedKey() != null <==> state == Established)
      && (ExposedKey() != null ==> ExposedKey() == sessionKey && View().sessionKey == Some(ExposedKey()[..]))
    }

    lemma GetterExactly()
      requires Valid()
      ensures GivesKeyExactly()
    {
    }

    // What a step may do to the key buffers: keep the current one untouched; adopt a new one when
    // there was none; or zero the current one and release it.
    twostate predicate BuffersHandled(before: array?<Byte>)
      requires before == old(sessionKey)
      reads this, before, sessionKey
    {
      || (sessionKey == before && retired == old(retired)
          && (sessionKey != null ==> sessionKey[..] == old(sessionKey[..])))
      || (before == null && sessionKey != null && fresh(sessionKey) && retired == old(retired))
      || (before != null && sessionKey == null && Zeroed(before) && retired == old(retired) + {before})
    }

    // What became of the buffer a KEY_EXCHANGE was decrypted into: it is the session's key, or it was
    // zeroed, or it still holds the accepted key and nobody refers to it any more.
    twostate predicate ScratchHandled(env: Env, ledger: Ledger, before: Session, m: Msg, coins: Coins,
                                      new scratch: array?<Byte>)
      reads this, scratch
    {
      && (scratch != null ==> fresh(scratch))
      && (AcceptedIn(env, ledger, before, m).Some? ==> scratch != null)
      && if KeyLeftBehind(env, ledger, before, m, coins) then
           scratch != null && scratch[..] == AcceptedIn(env, ledger, before, m).value.sessionKey
           && sessionKey == null && scratch !in retired
         else scratch != null ==> (state == Established && scratch == sessionKey) || Zeroed(scratch)
    }

    // What became of the buffer a session key was drawn into: it is the session's key, or, exactly where a
    // later step of the creation throws, it still holds the key and nobody refers to it any more.
    twostate predicate DrawHandled(env: Env, before: Session, m: Msg, coins: Coins, draw: Option<Bytes>,
                                   new scratch: array?<Byte>)
      reads this, scratch
    {
      && (scratch != null ==> fresh(scratch))
      && (scratch != null <==> DrawsKey(before, m) && draw.Some?)
      && (scratch != null ==>
            && scratch[..] == draw.value
            && (if CreationThrows(env, m, coins) then sessionKey == null && state == Failed && scratch !in retired
                else sessionKey == scratch && state == KeySent))
    }

    // The current buffer, if any, is zeroed and released.
    method Release()
      requires sessionKey != null ==> sessionKey !in retired
      requires forall b :: b in retired ==> Zeroed(b)
      modifies this`sessionKey, this`retired, sessionKey
      ensures sessionKey == null
      ensures old(sessionKey) == null ==> retired == old(retired)
      ensures old(sessionKey) != null ==> retired == old(retired) + {old(sessionKey)}
      ensures forall b :: b in retired ==> Zeroed(b)
    {
      if sessionKey != null {
        Fill0(sessionKey);
        retired := retired + {sessionKey};
      }
      sessionKey := null;
    }

    method OwnHelloOnce(env: Env) returns (outgoing: seq<Msg>)
      modifies this`helloSent
      ensures helloSent && outgoing == Spec.OwnHelloOnce(env, old(View()))
    {
      if helloSent {
        return [];
      }
      helloSent := true;
      return [Hello(PROTOCOL_VERSION, Name(selfId), env.exportKey(identity.encryption),
                    env.exportKey(identity.signing))];
    }

    method Reject(why: Refusal) returns (r: StepResult)
      ensures r == StepResult([], NoEvent, Some(why))
    {
      r := StepResult([], NoEvent, Some(why));
    }

    method Fail(error: HandshakeError) returns (r: StepResult)
      requires sessionKey != null ==> sessionKey !in retired
      requires forall b :: b in retired ==> Zeroed(b)
      modifies this`sessionKey, this`retired, this`state, sessionKey
      ensures View() == old(View()).(sessionKey := None, state := Failed)
      ensures old(sessionKey) == null ==> retired == old(retired)
      ensures old(sessionKey) != null ==> retired == old(retired) + {old(sessionKey)}
      ensures forall b :: b in retired ==> Zeroed(b)
      ensures r == StepResult([], NoEvent, Some(HandshakeFailed(error)))
    {
      Release();
      state := Failed;
      r := Reject(HandshakeFailed(error));
    }

    method OnPeerJoined(env: Env) returns (r: StepResult)
      requires Valid()
      modifies this
      ensures Valid() && BuffersHandled(old(sessionKey))
      ensures (View(), r) == Spec.OnPeerJoined(env, old(View()))
    {
      var outgoing := OwnHelloOnce(env);
      r := StepResult(outgoing, NoEvent, None);
    }

    method OnPeerLeft()
      requires Valid()
      modifies this, sessionKey
      ensures Valid() && BuffersHandled(old(sessionKey)) && sessionKey == null
      ensures old(GivesKeyExactly()) && ExposedKey() == null
      ensures old(ExposedKey()) != null ==> Zeroed(old(ExposedKey()))
      ensures View() == Spec.OnPeerLeft(old(View()))
    {
      Release();
      state := NoSession;
      helloSent := false;
      sessionId := None;
      peerEncryptionPublicKey := None;
      peerSigningPublicKey := None;
    }

    // The arguments are those of every handler: the crypto ledger comes in and goes out.
    method HandleMessage(env: Env, ledger: Ledger, j: Json, coins: Coins, draw: Option<Bytes>)
      returns (r: StepResult, ledger': Ledger, ghost scratch: array?<Byte>)
      requires Valid() && DrawOk(coins, draw)
      modifies this, sessionKey
      ensures Valid() && BuffersHandled(old(sessionKey))
      ensures Outcome(View(), r, ledger') == Spec.HandleMessage(env, ledger, old(View()), j, coins)
      ensures old(GivesKeyExactly()) && GivesKeyExactly()
      ensures old(ExposedKey()) != null ==>
                ExposedKey() == old(ExposedKey()) && ExposedKey()[..] == old(ExposedKey()[..])
      ensures if j.Obj? && IsValidHandshake(env, j.fields)
              then BufferHandled(env, ledger, old(View()), FromObject(j.fields), coins, draw, scratch)
              else scratch == null
    {
      hide ValidateMessage, FromObject, OnMessage, ToObject, WellFormed;
      if state == Established {
        EndedIsAbsorbing(env, ledger, View(), j, coins);
      }
      var verdict := ValidateMessage(env, j);
      if verdict.Throws? {
        r := Reject(ValidationThrew);
        return r, ledger, null;
      }
      if verdict.Invalid? {
        r := Reject(InvalidMessage(verdict.reason));
        return r, ledger, null;
      }
      JsonIsObject(env, j);
      if !IsHandshakeType(TextOf(j.fields, "type")) {
        r := Reject(UnexpectedType);
        return r, ledger, null;
      }
      ValidIsWellFormed(env, j.fields);
      var m := FromObject(j.fields);
      OnMessageInv(env, ledger, View(), m, coins);
      r, ledger', scratch := Dispatch(env, ledger, m, coins, draw);
    }

    lemma JsonIsObject(env: Env, j: Json)
      requires ValidateMessage(env, j).Valid?
      ensures j.Obj?
    {
      hide HandshakeVerdict;
    }

    // The buffer that one message makes the session fill with key bytes.
    twostate predicate BufferHandled(env: Env, ledger: Ledger, before: Session, m: Msg, coins: Coins,
                                     draw: Option<Bytes>,
                                     new scratch: array?<Byte>)
      reads this, scratch
    {
      if m.Hello? then DrawHandled(env, before, m, coins, draw, scratch)
      else ScratchHandled(env, ledger, before, m, coins, scratch)
    }

    method Dispatch(env: Env, ledger: Ledger, m: Msg, coins: Coins, draw: Option<Bytes>)
      returns (r: StepResult, ledger': Ledger, ghost scratch: array?<Byte>)
      requires Valid() && WellFormed(env, m) && DrawOk(coins, draw)
      requires Inv(Spec.OnMessage(env, ledger, View(), m, coins).session)
      modifies this, sessionKey
      ensures Valid() && BuffersHandled(old(sessionKey))
      ensures Outcome(View(), r, ledger') == Spec.OnMessage(env, ledger, old(View()), m, coins)
      ensures BufferHandled(env, ledger, old(View()), m, coins, draw, scratch)
    {
      hide Inv, Spec.OnHello, Spec.OnKeyExchange, Spec.OnKeyExchangeAck, WellFormed;
      scratch := null;
      match m
      case Hello(_, _, _, _) => r, ledger', scratch := OnHello(env, ledger, m, coins, draw);
      case KeyExchange(_, _, _, _, _, _) => r, ledger', scratch := OnKeyExchange(env, ledger, m, coins);
      case KeyExchangeAck(_, _, _, _, _) => r, ledger' := OnKeyExchangeAck(env, ledger, m);
    }

    method OnHello(env: Env, ledger: Ledger, m: Msg, coins: Coins, draw: Option<Bytes>)
      returns (r: StepResult, ledger': Ledger, ghost scratch: array?<Byte>)
      requires Valid() && m.Hello? && WellFormed(env, m) && DrawOk(coins, draw)
      requires Inv(Spec.OnHello(env, ledger, View(), m, coins).session)
      modifies this, sessionKey
      ensures Valid() && BuffersHandled(old(sessionKey))
      ensures Outcome(View(), r, ledger') == Spec.OnHello(env, ledger, old(View()), m, coins)
      ensures DrawHandled(env, old(View()), m, coins, draw, scratch)
    {
      hide CreateKeyExchange, WellFormed, ImportPublicKey, CreationThrows;
      ledger', scratch := ledger, null;
      if m.sender != Name(Peer(selfId)) {
        r := Reject(WrongSender);
        return;
      }
      if state != NoSession {
        r := Reject(UnexpectedHello);
        return;
      }
      WellFormedHelloImports(env, m);
      peerEncryptionPublicKey := ImportPublicKey(env, m.encryptionPublicKey);
      peerSigningPublicKey := ImportPublicKey(env, m.signingPublicKey);
      state := HelloExchanged;
      var outgoing := OwnHelloOnce(env);
      if selfId != ClientA {
        return StepResult(outgoing, PeerKeysReceived, None), ledger, null;
      }
      CreationThrowsExactly(env, ledger, m, identity.signing, peerEncryptionPublicKey.value, coins);
      CreationNeedsCoins(env, ledger, identity.signing, peerEncryptionPublicKey.value, coins);
      var key: array?<Byte> := null;
      if draw.Some? {
        key := ToBuffer(draw.value);
        scratch := key;
      }
      var exchange := CreateKeyExchange(env, ledger, Name(selfId), Name(Peer(selfId)), identity.signing,
                                        peerEncryptionPublicKey.value, coins.key);
      if exchange.Failure? {
        r := Fail(exchange.error);
        return;
      }
      sessionId := Some(exchange.value.sessionId);
      sessionKey := key;
      state := KeySent;
      outgoing := outgoing + [exchange.value.message];
      return StepResult(outgoing, KeyExchangeSent, None), exchange.value.ledger, scratch;
    }

    lemma CreationNeedsCoins(env: Env, ledger: Ledger, signer: PublicKey, peer: PublicKey, coins: Coins)
      ensures var r := CreateKeyExchange(env, ledger, Name(ClientA), Name(ClientB), signer, peer, coins.key);
              r.Success? ==> coins.key.Some? && r.value.sessionKey == coins.key.value.sessionKey
    {
      hide Canonical.CanonicalizeHandshake, Name, Base64.Encode;
    }

    method OnKeyExchange(env: Env, ledger: Ledger, m: Msg, coins: Coins)
      returns (r: StepResult, ledger': Ledger, ghost scratch: array?<Byte>)
      requires Valid() && m.KeyExchange? && WellFormed(env, m)
      requires Inv(Spec.OnKeyExchange(env, ledger, View(), m, coins).session)
      modifies this, sessionKey
      ensures Valid() && BuffersHandled(old(sessionKey))
      ensures Outcome(View(), r, ledger') == Spec.OnKeyExchange(env, ledger, old(View()), m, coins)
      ensures ScratchHandled(env, ledger, old(View()), m, coins, scratch)
      ensures GivesKeyExactly()
      ensures AcceptedIn(env, ledger, old(View()), m).Some? && coins.ackSignature.Some? ==>
                ExposedKey() != null && ExposedKey() == scratch
                && ExposedKey()[..] == AcceptedIn(env, ledger, old(View()), m).value.sessionKey
    {
      hide VerifyKeyExchange, CreateKeyExchangeAck, WellFormed;
      ledger', scratch := ledger, null;
      if selfId == ClientA {
        r := Reject(OnlyResponder);
        return;
      }
      if state == Established {
        r := Reject(AlreadyEstablished);
        return;
      }
      if state != HelloExchanged {
        r := Reject(NotAcceptable);
        return;
      }
      state := KeyReceived;
      var recovered;
      recovered, scratch := VerifyIntoBuffer(env, ledger, m, Name(Peer(selfId)), Name(selfId),
                                             peerSigningPublicKey.value, identity.encryption);
      if recovered.Failure? {
        r := Fail(recovered.error);
        return;
      }
      Evidence.AckCreatedIff(env, ledger, m, identity.signing, coins.ackSignature);
      RecoveredId(env, ledger, m, peerSigningPublicKey.value, identity.encryption);
      var ack := CreateKeyExchangeAck(ledger, Name(selfId), Name(Peer(selfId)), recovered.value.0, identity.signing,
                                      coins.ackSignature);
      if ack.Failure? {
        r := Fail(ack.error);
        return;
      }
      sessionId := Some(recovered.value.0);
      sessionKey := recovered.value.1;
      state := Established;
      return StepResult([ack.value.0], SessionEstablished, None), ack.value.1, scratch;
    }

    lemma RecoveredId(env: Env, ledger: Ledger, m: Msg, signing: PublicKey, own: PublicKey)
      ensures var verdict := VerifyKeyExchange(env, ledger, m, Name(ClientA), Name(ClientB), signing, own);
              verdict.Success? ==> m.KeyExchange? && verdict.value.sessionId == m.sessionId
    {
      hide WellFormed, Name, Base64.Decode, Canonical.CanonicalizeHandshake;
    }

    method OnKeyExchangeAck(env: Env, ledger: Ledger, m: Msg) returns (r: StepResult, ledger': Ledger)
      requires Valid()
      requires Inv(Spec.OnKeyExchangeAck(env, ledger, View(), m).session)
      modifies this, sessionKey
      ensures Valid() && BuffersHandled(old(sessionKey))
      ensures Outcome(View(), r, ledger') == Spec.OnKeyExchangeAck(env, ledger, old(View()), m)
      ensures GivesKeyExactly()
      ensures r.event == SessionEstablished ==>
                ExposedKey() != null && ExposedKey() == old(sessionKey) && ExposedKey()[..] == old(sessionKey[..])
    {
      hide VerifyKeyExchangeAck;
      ledger' := ledger;
      if selfId != ClientA {
        r := Reject(OnlyInitiator);
        return;
      }
      if state == Established {
        r := Reject(AlreadyEstablished);
        return;
      }
      if state != KeySent {
        r := Reject(NotAcceptable);
        return;
      }
      var refused := VerifyKeyExchangeAck(env, ledger, m, Name(Peer(selfId)), Name(selfId), sessionId.value,
                                          peerSigningPublicKey.value);
      if refused.Some? {
        r := Fail(refused.value);
        return;
      }
      state := Established;
      return StepResult([], SessionEstablished, None), ledger;
    }
  }
}
