// What a session does with a message, as conditions on the session and the message: which refusal it gives,
// which event it reports, and the session afterwards (src/security/peer-session.js:102-262).
module Outcomes {
  import opened Wrappers
  import opened Text
  import opened Crypto
  import opened Messages
  import opened Validation
  import opened Verdicts
  import opened Handshake
  import opened Sessions
  import Canonical
  import Base64

  // ---- The three messages a session waits for --------------------------------------------------------

  // A HELLO of the peer, while nothing is known of it.
  predicate Greets(s: Session, m: Msg) {
    m.Hello? && s.state == NoSession && m.sender == Name(Peer(s.role))
  }

  // A KEY_EXCHANGE for a responder that has the peer's keys.
  predicate Keys(s: Session, m: Msg) {
    m.KeyExchange? && s.role == ClientB && s.state == HelloExchanged
  }

  // An acknowledgement for an initiator that sent its KEY_EXCHANGE.
  predicate Acknowledges(s: Session, m: Msg) {
    m.KeyExchangeAck? && s.role == ClientA && s.state == KeySent
  }

  function Verified(env: Env, ledger: Ledger, s: Session, m: Msg): Result<Accepted, HandshakeError>
    requires s.peerSigning.Some?
  {
    VerifyKeyExchange(env, ledger, m, Name(ClientA), Name(ClientB), s.peerSigning.value, s.identity.encryption)
  }

  function Confirmed(env: Env, ledger: Ledger, s: Session, m: Msg): Option<HandshakeError>
    requires s.peerSigning.Some? && s.sessionId.Some?
  {
    VerifyKeyExchangeAck(env, ledger, m, Name(ClientB), Name(ClientA), s.sessionId.value, s.peerSigning.value)
  }

  // ---- Refusals ------------------------------------------------------------------------------------------

  // Each refusal that leaves the session alone has its own condition, and nothing else is refused that way.
  lemma RefusalsExactly(env: Env, ledger: Ledger, s: Session, m: Msg, coins: Coins)
    requires Inv(s) && WellFormed(env, m)
    ensures var o := OnMessage(env, ledger, s, m, coins);
            var e := o.result.error;
            var ended := s.state == NoSession || s.state == Failed;
            && (e == Some(WrongSender) <==> m.Hello? && m.sender != Name(Peer(s.role)))
            && (e == Some(UnexpectedHello) <==>
                m.Hello? && m.sender == Name(Peer(s.role)) && s.state != NoSession)
            && (e == Some(OnlyResponder) <==> m.KeyExchange? && s.role == ClientA)
            && (e == Some(OnlyInitiator) <==> m.KeyExchangeAck? && s.role == ClientB)
            && (e == Some(AlreadyEstablished) <==>
                s.state == Established && if s.role == ClientA then m.KeyExchangeAck? else m.KeyExchange?)
            && (e == Some(NotAcceptable) <==> ended && if s.role == ClientA then m.KeyExchangeAck? else m.KeyExchange?)
            && (!(Greets(s, m) || Keys(s, m) || Acknowledges(s, m)) <==> e.Some? && !e.value.HandshakeFailed?)
            && (e.Some? && !e.value.HandshakeFailed? ==>
                  o.session == s && o.ledger == ledger && o.result == StepResult([], NoEvent, e))
  {
    hide CreateKeyExchange, VerifyKeyExchange, CreateKeyExchangeAck, VerifyKeyExchangeAck, WellFormed, ImportPublicKey,
         Name, OwnHello;
    if m.Hello? {
      WellFormedHelloImports(env, m);
    }
  }

  // Before that: what is no handshake message, or is not valid, is refused as such.
  lemma InputsExactly(env: Env, ledger: Ledger, s: Session, j: Json, coins: Coins)
    ensures var o := HandleMessage(env, ledger, s, j, coins);
            && (o == Reject(s, ledger, ValidationThrew) <==> ValidateMessage(env, j).Throws?)
            && (forall reason :: o == Reject(s, ledger, InvalidMessage(reason)) <==>
                  ValidateMessage(env, j) == Invalid(reason))
            && (o == Reject(s, ledger, UnexpectedType) <==> j.Obj? && IsPlainMessage(j.fields))
            && (forall m :: WellFormed(env, m) && j == Obj(ToObject(m)) ==>
                  o == OnMessage(env, ledger, s, m, coins))
  {
    hide OnMessage, WellFormed, HandshakeVerdict, ToObject, FromObject, IsPlainMessage, ValidateMessage;
    ValidityExactly(env, j);
    MessagesAreTyped(env, ledger, s, coins);
    forall m: Msg | WellFormed(env, m) && j == Obj(ToObject(m))
      ensures HandleMessage(env, ledger, s, j, coins) == OnMessage(env, ledger, s, m, coins)
    {
      HandleWellFormed(env, ledger, s, m, coins);
    }
  }

  lemma ValidityExactly(env: Env, j: Json)
    ensures ValidateMessage(env, j).Valid? ==> j.Obj?
    ensures ValidateMessage(env, j).Valid? && !IsHandshakeType(TextOf(j.fields, "type")) <==>
      j.Obj? && IsPlainMessage(j.fields)
  {
    hide HandshakeVerdict, Says, Names;
    if !(j.Obj? && IsHandshakeObject(j.fields)) {
      PlainExactly(env, j);
    }
  }

  lemma MessagesAreTyped(env: Env, ledger: Ledger, s: Session, coins: Coins)
    ensures forall m :: OnMessage(env, ledger, s, m, coins).result.error != Some(UnexpectedType)
    ensures forall m :: OnMessage(env, ledger, s, m, coins).result.error != Some(ValidationThrew)
    ensures forall m, reason :: OnMessage(env, ledger, s, m, coins).result.error != Some(InvalidMessage(reason))
  {
    hide CreateKeyExchange, VerifyKeyExchange, CreateKeyExchangeAck, VerifyKeyExchangeAck, ImportPublicKey, Name,
         OwnHello;
  }

  // ---- Failures ------------------------------------------------------------------------------------------

  // A handshake that fails: the key is gone, everything else stays, nothing is sent.
  predicate FailsWith(o: Outcome, s: Session, ledger: Ledger, error: HandshakeError) {
    && o.session == s.(state := Failed, sessionKey := None) && o.ledger == ledger
    && o.result == StepResult([], NoEvent, Some(HandshakeFailed(error)))
  }

  // A session with the peer's keys.
  function Introduced(env: Env, s: Session, m: Msg): Session
    requires m.Hello?
  {
    s.(peerEncryption := ImportPublicKey(env, m.encryptionPublicKey),
       peerSigning := ImportPublicKey(env, m.signingPublicKey), helloSent := true)
  }

  // The own HELLO, if it has not gone out.
  function DueHello(env: Env, s: Session): seq<Msg> {
    if s.helloSent then []
    else [Hello(1, Name(s.role), env.exportKey(s.identity.encryption), env.exportKey(s.identity.signing))]
  }

  // What a HELLO does.
  lemma GreetingExactly(env: Env, ledger: Ledger, s: Session, m: Msg, coins: Coins)
    requires Inv(s) && WellFormed(env, m) && Greets(s, m)
    ensures ImportPublicKey(env, m.encryptionPublicKey).Some?
    ensures var o := OnMessage(env, ledger, s, m, coins);
            var created := CreateKeyExchange(env, ledger, Name(ClientA), Name(ClientB), s.identity.signing,
                                             ImportPublicKey(env, m.encryptionPublicKey).value, coins.key);
            && (s.role == ClientB ==>
                  o == Outcome(Introduced(env, s, m).(state := HelloExchanged),
                               StepResult(DueHello(env, s), PeerKeysReceived, None), ledger))
            && (s.role == ClientA && created.Failure? ==>
                  FailsWith(o, Introduced(env, s, m), ledger, created.error))
            && (s.role == ClientA && created.Success? ==>
                  o == Outcome(Introduced(env, s, m).(state := KeySent, sessionId := Some(created.value.sessionId),
                                                      sessionKey := Some(created.value.sessionKey)),
                               StepResult(DueHello(env, s) + [created.value.message], KeyExchangeSent, None),
                               created.value.ledger))
  {
    hide CreateKeyExchange, WellFormed, ImportPublicKey, Name;
    WellFormedHelloImports(env, m);
  }

  // What a KEY_EXCHANGE does.
  lemma KeyExactly(env: Env, ledger: Ledger, s: Session, m: Msg, coins: Coins)
    requires Inv(s) && WellFormed(env, m) && Keys(s, m)
    ensures var o := OnMessage(env, ledger, s, m, coins);
            match Verified(env, ledger, s, m)
            case Failure(e) => FailsWith(o, s, ledger, e)
            case Success(accepted) =>
              match CreateKeyExchangeAck(ledger, Name(ClientB), Name(ClientA), m.sessionId, s.identity.signing,
                                         coins.ackSignature)
              case Failure(e) => FailsWith(o, s, ledger, e)
              case Success(ack) =>
                o == Outcome(s.(state := Established, sessionId := Some(m.sessionId),
                                sessionKey := Some(accepted.sessionKey)),
                             StepResult([ack.0], SessionEstablished, None), ack.1)
  {
    hide VerifyKeyExchange, CreateKeyExchangeAck, WellFormed, Name;
    VerifiedId(env, ledger, s, m);
  }

  lemma VerifiedId(env: Env, ledger: Ledger, s: Session, m: Msg)
    requires s.peerSigning.Some?
    ensures Verified(env, ledger, s, m).Success? ==>
              m.KeyExchange? && Verified(env, ledger, s, m).value.sessionId == m.sessionId
  {
    hide VerifyKeyExchange, WellFormed, Name, KeySignedBy, Unwrapped;
    KeyExchangeRefusals(env, ledger, m, Name(ClientA), Name(ClientB), s.peerSigning.value, s.identity.encryption);
  }

  // What an acknowledgement does.
  lemma AckExactly(env: Env, ledger: Ledger, s: Session, m: Msg, coins: Coins)
    requires Inv(s) && WellFormed(env, m) && Acknowledges(s, m)
    ensures var o := OnMessage(env, ledger, s, m, coins);
            match Confirmed(env, ledger, s, m)
            case Some(e) => FailsWith(o, s, ledger, e)
            case None => o == Outcome(s.(state := Established), StepResult([], SessionEstablished, None), ledger)
  {
    hide VerifyKeyExchangeAck, WellFormed, Name;
  }
}
