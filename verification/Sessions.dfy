// The per-client session state machine as functions on values (src/security/peer-session.js).
// PeerSessions.PeerSession is the class whose methods these functions specify.
module Sessions {
  import opened Wrappers
  import opened Text
  import opened Crypto
  import opened Messages
  import opened Validation
  import opened Handshake

  // ---- Data ----------------------------------------------------------------------------------

  // The two server-assigned identities. Client A initiates.
  datatype Role = ClientA | ClientB

  function Name(r: Role): string {
    if r == ClientA then "Client A" else "Client B"
  }

  function Peer(r: Role): Role {
    if r == ClientA then ClientB else ClientA
  }

  datatype State = NoSession | HelloExchanged | KeySent | KeyReceived | Established | Failed

  datatype Session = Session(
    role: Role,
    identity: Identity,
    state: State,
    helloSent: bool,
    sessionId: Option<string>,
    sessionKey: Option<Bytes>,
    peerEncryption: Option<PublicKey>,
    peerSigning: Option<PublicKey>)

  datatype Event = NoEvent | PeerKeysReceived | KeyExchangeSent | SessionEstablished

  datatype Refusal =
    | InvalidMessage(reason: Reason) | UnexpectedType
    | ValidationThrew       // the exception leaves handleMessage, and the session as it was
    | WrongSender | UnexpectedHello | OnlyResponder | OnlyInitiator | AlreadyEstablished | NotAcceptable
    | HandshakeFailed(error: HandshakeError)

  datatype StepResult = StepResult(outgoing: seq<Msg>, event: Event, error: Option<Refusal>)

  // A step: the session after it, what the caller is told and must send, the ledger after it.
  datatype Outcome = Outcome(session: Session, result: StepResult, ledger: Ledger)

  // Random choices available to one step; None where a primitive throws.
  datatype Coins = Coins(key: Option<KeyCoins>, ackSignature: Option<Bytes>)

  // ---- Steps ------------------------------------------------------------------------------------

  function Fresh(role: Role, identity: Identity): Session {
    Session(role, identity, NoSession, false, None, None, None, None)
  }

  function OwnHello(env: Env, s: Session): Msg {
    Hello(PROTOCOL_VERSION, Name(s.role), env.exportKey(s.identity.encryption), env.exportKey(s.identity.signing))
  }

  // #ownHelloOnce: the HELLO to send, unless it went out already.
  function OwnHelloOnce(env: Env, s: Session): seq<Msg> {
    if s.helloSent then [] else [OwnHello(env, s)]
  }

  function Reject(s: Session, ledger: Ledger, why: Refusal): Outcome {
    Outcome(s, StepResult([], NoEvent, Some(why)), ledger)
  }

  // #fail: the key is wiped, the session ID is kept.
  function Fail(s: Session, ledger: Ledger, error: HandshakeError): Outcome {
    Reject(s.(sessionKey := None, state := Failed), ledger, HandshakeFailed(error))
  }

  function OnPeerJoined(env: Env, s: Session): (Session, StepResult) {
    (s.(helloSent := true), StepResult(OwnHelloOnce(env, s), NoEvent, None))
  }

  function OnPeerLeft(s: Session): Session {
    Fresh(s.role, s.identity)
  }

  function OnHello(env: Env, ledger: Ledger, s: Session, m: Msg, coins: Coins): Outcome
    requires m.Hello?
  {
    if m.sender != Name(Peer(s.role)) then Reject(s, ledger, WrongSender)
    else if s.state != NoSession then Reject(s, ledger, UnexpectedHello)
    else
      var hello := OwnHelloOnce(env, s);
      var s1 := s.(peerEncryption := ImportPublicKey(env, m.encryptionPublicKey),
                   peerSigning := ImportPublicKey(env, m.signingPublicKey),
                   state := HelloExchanged,
                   helloSent := true);
      if s.role != ClientA then Outcome(s1, StepResult(hello, PeerKeysReceived, None), ledger)
      else if s1.peerEncryption.None? then Fail(s1, ledger, PrimitiveFailed)
      else
        match CreateKeyExchange(env, ledger, Name(s.role), Name(Peer(s.role)), s.identity.signing,
                                s1.peerEncryption.value, coins.key)
        case Failure(e) => Fail(s1, ledger, e)
        case Success(c) =>
          Outcome(s1.(sessionId := Some(c.sessionId), sessionKey := Some(c.sessionKey), state := KeySent),
                  StepResult(hello + [c.message], KeyExchangeSent, None), c.ledger)
  }

  function OnKeyExchange(env: Env, ledger: Ledger, s: Session, m: Msg, coins: Coins): Outcome {
    if s.role == ClientA then Reject(s, ledger, OnlyResponder)
    else if s.state == Established then Reject(s, ledger, AlreadyEstablished)
    else if s.state != HelloExchanged then Reject(s, ledger, NotAcceptable)
    else if s.peerSigning.None? then Fail(s, ledger, PrimitiveFailed)
    else
      match VerifyKeyExchange(env, ledger, m, Name(Peer(s.role)), Name(s.role), s.peerSigning.value,
                              s.identity.encryption)
      case Failure(e) => Fail(s, ledger, e)
      case Success(accepted) =>
        match CreateKeyExchangeAck(ledger, Name(s.role), Name(Peer(s.role)), accepted.sessionId, s.identity.signing,
                                   coins.ackSignature)
        case Failure(e) => Fail(s, ledger, e)
        case Success((ack, ledger')) =>
          Outcome(s.(sessionId := Some(accepted.sessionId), sessionKey := Some(accepted.sessionKey),
                     state := Established),
                  StepResult([ack], SessionEstablished, None), ledger')
  }

  function OnKeyExchangeAck(env: Env, ledger: Ledger, s: Session, m: Msg): Outcome {
    if s.role != ClientA then Reject(s, ledger, OnlyInitiator)
    else if s.state == Established then Reject(s, ledger, AlreadyEstablished)
    else if s.state != KeySent then Reject(s, ledger, NotAcceptable)
    else if s.peerSigning.None? || s.sessionId.None? then Fail(s, ledger, PrimitiveFailed)
    else
      match VerifyKeyExchangeAck(env, ledger, m, Name(Peer(s.role)), Name(s.role), s.sessionId.value,
                                 s.peerSigning.value)
      case Some(e) => Fail(s, ledger, e)
      case None => Outcome(s.(state := Established), StepResult([], SessionEstablished, None), ledger)
  }

  // The handler for a validated handshake message.
  function OnMessage(env: Env, ledger: Ledger, s: Session, m: Msg, coins: Coins): Outcome {
    match m
    case Hello(_, _, _, _) => OnHello(env, ledger, s, m, coins)
    case KeyExchange(_, _, _, _, _, _) => OnKeyExchange(env, ledger, s, m, coins)
    case KeyExchangeAck(_, _, _, _, _) => OnKeyExchangeAck(env, ledger, s, m)
  }

  function HandleMessage(env: Env, ledger: Ledger, s: Session, j: Json, coins: Coins): Outcome {
    match ValidateMessage(env, j)
    case Invalid(reason) => Reject(s, ledger, InvalidMessage(reason))
    case Throws => Reject(s, ledger, ValidationThrew)
    case Valid =>
      if !IsHandshakeType(TextOf(j.fields, "type")) then Reject(s, ledger, UnexpectedType)
      else OnMessage(env, ledger, s, FromObject(j.fields), coins)
  }

  lemma MessagesDoNotThrow(env: Env, ledger: Ledger, s: Session, coins: Coins)
    ensures forall m :: OnMessage(env, ledger, s, m, coins).result.error != Some(ValidationThrew)
  {
    hide CreateKeyExchange, VerifyKeyExchange, CreateKeyExchangeAck, VerifyKeyExchangeAck, ImportPublicKey, Name;
  }

  // Whatever arrives, the session either ignores it, and it may be that validation throws, or treats it
  // as a well-formed message.
  lemma HandleMessageCases(env: Env, ledger: Ledger, s: Session, j: Json, coins: Coins)
    ensures var o := HandleMessage(env, ledger, s, j, coins);
            || (o.session == s && o.ledger == ledger && o.result.outgoing == [] && o.result.error.Some?)
            || (exists m: Msg ::
                  WellFormed(env, m) && j == Obj(ToObject(m)) && o == OnMessage(env, ledger, s, m, coins))
    ensures HandleMessage(env, ledger, s, j, coins).result.error == Some(ValidationThrew)
            <==> ValidateMessage(env, j).Throws?
    ensures ValidateMessage(env, j).Throws? ==>
              HandleMessage(env, ledger, s, j, coins) == Reject(s, ledger, ValidationThrew)
  {
    hide OnMessage, WellFormed, HandshakeVerdict, ToObject, FromObject;
    MessagesDoNotThrow(env, ledger, s, coins);
    if ValidateMessage(env, j).Valid? && IsHandshakeType(TextOf(j.fields, "type")) {
      ValidIsWellFormed(env, j.fields);
    }
  }

  lemma HandleWellFormed(env: Env, ledger: Ledger, s: Session, m: Msg, coins: Coins)
    requires WellFormed(env, m)
    ensures HandleMessage(env, ledger, s, Obj(ToObject(m)), coins) == OnMessage(env, ledger, s, m, coins)
  {
    WellFormedIsValid(env, m);
    FromToObject(m);
    hide OnMessage, WellFormed, HandshakeVerdict, ToObject, FromObject;
  }

  // ---- Invariant of one session ------------------------------------------------------------------

  predicate Inv(s: Session) {
    && (s.sessionKey.Some? <==> s.state in {KeySent, Established})
    && (s.peerEncryption.None? <==> s.state == NoSession)
    && (s.peerSigning.None? <==> s.state == NoSession)
    && (s.state != NoSession ==> s.helloSent)
    && s.state != KeyReceived
    && (s.role == ClientA ==> s.state != HelloExchanged)
    && (s.role == ClientB ==> s.state != KeySent)
    && (s.state in {KeySent, Established} ==> s.sessionId.Some?)
    && (s.state in {NoSession, HelloExchanged} ==> s.sessionId.None?)
    && (s.role == ClientB && s.state == Failed ==> s.sessionId.None?)
  }

  lemma WellFormedHelloImports(env: Env, m: Msg)
    requires m.Hello? && WellFormed(env, m)
    ensures ImportPublicKey(env, m.encryptionPublicKey).Some? && ImportPublicKey(env, m.signingPublicKey).Some?
    ensures ImportPublicKey(env, m.encryptionPublicKey) != ImportPublicKey(env, m.signingPublicKey)
  {
    hide IsIdentity, Contains, ImportPublicKey;
  }

  lemma OnMessageInv(env: Env, ledger: Ledger, s: Session, m: Msg, coins: Coins)
    requires Inv(s) && WellFormed(env, m)
    ensures Inv(OnMessage(env, ledger, s, m, coins).session)
  {
    hide CreateKeyExchange, VerifyKeyExchange, CreateKeyExchangeAck, VerifyKeyExchangeAck, WellFormed, ImportPublicKey;
    if m.Hello? {
      WellFormedHelloImports(env, m);
    }
  }

  // Every event keeps the invariant, whatever message it brings and whatever the primitives do.
  lemma StepsKeepInv(env: Env, ledger: Ledger, s: Session, j: Json, coins: Coins)
    requires Inv(s)
    ensures Inv(HandleMessage(env, ledger, s, j, coins).session)
    ensures Inv(OnPeerJoined(env, s).0) && Inv(OnPeerLeft(s))
  {
    HandleMessageCases(env, ledger, s, j, coins);
    hide HandleMessage, OnMessage, WellFormed, ToObject;
    forall m: Msg | WellFormed(env, m)
      ensures Inv(OnMessage(env, ledger, s, m, coins).session)
    {
      OnMessageInv(env, ledger, s, m, coins);
    }
  }

  // An ended handshake is never disturbed: no message and no presence notice but the peer's
  // departure changes anything or makes the client send.
  lemma EndedIsAbsorbing(env: Env, ledger: Ledger, s: Session, j: Json, coins: Coins)
    requires Inv(s) && s.state in {Established, Failed}
    ensures var o := HandleMessage(env, ledger, s, j, coins);
            o.session == s && o.ledger == ledger && o.result.outgoing == [] && o.result.error.Some?
    ensures OnPeerJoined(env, s) == (s, StepResult([], NoEvent, None))
  {
    HandleMessageCases(env, ledger, s, j, coins);
    hide HandleMessage, WellFormed, ToObject;
  }

  // ---- What a client emits between two departures of its peer ---------------------------------------

  // One event of an epoch. The ledger at the time of a message is the environment's business.
  datatype Input = Joined | Received(ledger: Ledger, message: Json, coins: Coins)

  function StepInput(env: Env, s: Session, i: Input): (Session, seq<Msg>) {
    match i
    case Joined => var (s', r) := OnPeerJoined(env, s); (s', r.outgoing)
    case Received(ledger, j, coins) =>
      var o := HandleMessage(env, ledger, s, j, coins);
      (o.session, o.result.outgoing)
  }

  // The state reached and everything emitted, in order.
  function RunEpoch(env: Env, s: Session, inputs: seq<Input>): (Session, seq<Msg>) {
    if inputs == [] then (s, [])
    else
      var (s1, sent1) := RunEpoch(env, s, inputs[..|inputs| - 1]);
      var (s2, sent2) := StepInput(env, s1, inputs[|inputs| - 1]);
      (s2, sent1 + sent2)
  }

  function Kinds(ms: seq<Msg>): seq<string> {
    seq(|ms|, i requires 0 <= i < |ms| => KindOf(ms[i]))
  }

  function Script(role: Role): (script: seq<string>)
    ensures |script| == 2
  {
    if role == ClientA then ["HELLO", "KEY_EXCHANGE"] else ["HELLO", "KEY_EXCHANGE_ACK"]
  }

  // How far along its script a session is.
  function Progress(s: Session): (n: nat)
    ensures n <= 2
  {
    if !s.helloSent then 0
    else if s.role == ClientA then (if s.sessionId.Some? then 2 else 1)
    else if s.state == Established then 2 else 1
  }

  // ---- When the initiator's HELLO is lost -------------------------------------------------------------

  // createKeyExchange throws: a primitive does, or the plaintext or a signed field is too long.
  predicate CreationThrows(env: Env, m: Msg, coins: Coins)
    requires m.Hello?
  {
    match ImportPublicKey(env, m.encryptionPublicKey)
    case None => true
    case Some(pk) =>
      || coins.key.None?
      || !FitsOaep(env, pk, coins.key.value.sessionKey)
      || !Canonical.Encodable(KeyFields(Name(ClientA), Name(ClientB), Hex(coins.key.value.idBytes),
                                        coins.key.value.ciphertext,
                                        pk.fingerprint))
  }

  // The peer's HELLO reaches an initiator that has not sent its own, and createKeyExchange throws.
  predicate LosesHello(env: Env, s: Session, m: Msg, coins: Coins) {
    && s.role == ClientA && !s.helloSent && m.Hello? && m.sender == Name(ClientB)
    && CreationThrows(env, m, coins)
  }

  predicate LosesHelloOn(env: Env, s: Session, j: Json, coins: Coins) {
    j.Obj? && IsValidHandshake(env, j.fields) && LosesHello(env, s, FromObject(j.fields), coins)
  }

  lemma CreationThrowsExactly(env: Env, ledger: Ledger, m: Msg, signer: PublicKey, peer: PublicKey, coins: Coins)
    requires m.Hello? && ImportPublicKey(env, m.encryptionPublicKey) == Some(peer)
    ensures CreateKeyExchange(env, ledger, Name(ClientA), Name(ClientB), signer, peer, coins.key).Failure? <==>
              CreationThrows(env, m, coins)
  {
    hide Canonical.CanonicalizeHandshake, Canonical.Encodable, Name, Hex, FitsOaep, ImportPublicKey, Base64.Encode;
    if coins.key.Some? {
      var c := coins.key.value;
      Canonical.CanonicalizeIff(KeyFields(Name(ClientA), Name(ClientB), Hex(c.idBytes), c.ciphertext,
                                          peer.fingerprint));
    }
  }

  // With a session key and an ID of the drawn sizes, that is: a primitive throws, or the ciphertext has
  // 2^32 bytes or more.
  lemma CreationThrowsOnDraws(env: Env, m: Msg, coins: Coins)
    requires m.Hello? && WellFormed(env, m)
    requires coins.key.Some? ==>
               |coins.key.value.sessionKey| == SESSION_KEY_BYTES && |coins.key.value.idBytes| == SESSION_ID_BYTES
    ensures CreationThrows(env, m, coins) <==>
      coins.key.None? || |coins.key.value.ciphertext| >= Canonical.UINT32_LIMIT
  {
    hide Canonical.Encodable, Name, FitsOaep, WellFormed, ValidParty, IsIdentity;
    WellFormedHelloImports(env, m);
    ImportedModulus(env, m.encryptionPublicKey);
    if coins.key.Some? {
      var c, pk := coins.key.value, ImportPublicKey(env, m.encryptionPublicKey).value;
      SessionKeyFitsOaep(env, pk, c.sessionKey);
      NameIsIdentity(ClientA);
      NameIsIdentity(ClientB);
      if |c.ciphertext| < Canonical.UINT32_LIMIT {
        KeyFieldsEncodable(Name(ClientA), Name(ClientB), Hex(c.idBytes), c.ciphertext, pk.fingerprint);
      } else {
        LongCiphertext(KeyFields(Name(ClientA), Name(ClientB), Hex(c.idBytes), c.ciphertext, pk.fingerprint));
      }
    }
  }

  lemma ImportedModulus(env: Env, pem: string)
    ensures ImportPublicKey(env, pem).Some? ==> env.modulusBits(ImportPublicKey(env, pem).value) >= MIN_MODULUS_LENGTH
  {
    hide Contains;
  }

  lemma NameIsIdentity(r: Role)
    ensures IsIdentity(Name(r))
  {
    hide Utf16Length;
    assert Name(r)[0] == 'C' && |Name(r)| == 8;
    Utf16LengthBmp(Name(r));
  }

  // A message marks the own HELLO as sent without sending anything exactly in that case.
  lemma HelloLostExactly(env: Env, ledger: Ledger, s: Session, j: Json, coins: Coins)
    requires Inv(s)
    ensures var o := HandleMessage(env, ledger, s, j, coins);
            (!s.helloSent && o.session.helloSent && o.result.outgoing == []) <==> LosesHelloOn(env, s, j, coins)
    ensures LosesHelloOn(env, s, j, coins) ==> HandleMessage(env, ledger, s, j, coins).session.state == Failed
  {
    hide OnMessage, HandshakeVerdict, ToObject, FromObject, LosesHello, Inv;
    if j.Obj? && IsValidHandshake(env, j.fields) {
      ValidIsWellFormed(env, j.fields);
      MessageFollowsScript(env, ledger, s, FromObject(j.fields), coins);
      ProgressMeansSent(s, OnMessage(env, ledger, s, FromObject(j.fields), coins).session);
    }
  }

  lemma ProgressMeansSent(s: Session, s': Session)
    ensures !s.helloSent && s'.helloSent ==>
              Progress(s) == 0 && Progress(s') >= 1 && Script(s.role)[0..Progress(s')] != []
  {
  }

  lemma StepFollowsScript(env: Env, s: Session, i: Input)
    requires Inv(s)
    ensures var (s', sent) := StepInput(env, s, i);
            && Inv(s') && s'.role == s.role && s'.identity == s.identity
            && (forall k :: 0 <= k < |sent| ==> sent[k].sender == Name(s.role))
            && Progress(s) <= Progress(s')
            && if i.Received? && LosesHelloOn(env, s, i.message, i.coins)
               then sent == [] && Progress(s) == 0 && Progress(s') == 1 && s'.state == Failed
               else Kinds(sent) == Script(s.role)[Progress(s)..Progress(s')]
  {
    hide OnMessage, HandshakeVerdict, ToObject, FromObject, Inv, Progress, LosesHello, Script;
    if i.Received? {
      StepsKeepInv(env, i.ledger, s, i.message, i.coins);
      if i.message.Obj? && IsValidHandshake(env, i.message.fields) {
        ValidIsWellFormed(env, i.message.fields);
        MessageFollowsScript(env, i.ledger, s, FromObject(i.message.fields), i.coins);
      }
    } else {
      JoinFollowsScript(env, s);
    }
  }

  lemma JoinFollowsScript(env: Env, s: Session)
    requires Inv(s)
    ensures var (s', r) := OnPeerJoined(env, s);
            && Inv(s') && s'.role == s.role && s'.identity == s.identity && Progress(s) <= Progress(s')
            && (forall k :: 0 <= k < |r.outgoing| ==> r.outgoing[k].sender == Name(s.role))
            && Kinds(r.outgoing) == Script(s.role)[Progress(s)..Progress(s')]
  {
    hide Name;
  }

  lemma MessageFollowsScript(env: Env, ledger: Ledger, s: Session, m: Msg, coins: Coins)
    requires Inv(s) && WellFormed(env, m)
    ensures var o := OnMessage(env, ledger, s, m, coins);
            var sent := o.result.outgoing;
            && o.session.role == s.role && o.session.identity == s.identity
            && (forall k :: 0 <= k < |sent| ==> sent[k].sender == Name(s.role))
            && Progress(s) <= Progress(o.session)
            && if LosesHello(env, s, m, coins)
               then sent == [] && Progress(s) == 0 && Progress(o.session) == 1 && o.session.state == Failed &&
                    o.session.helloSent
               else Kinds(sent) == Script(s.role)[Progress(s)..Progress(o.session)]
  {
    hide VerifyKeyExchange, VerifyKeyExchangeAck, WellFormed, ImportPublicKey, Hex, Canonical.CanonicalizeHandshake,
         Name, Base64.Encode,
         CreationThrows, FitsOaep;
    NamesDiffer();
    if m.Hello? {
      WellFormedHelloImports(env, m);
      CreationThrowsExactly(env, ledger, m, s.identity.signing, ImportPublicKey(env, m.encryptionPublicKey).value,
                            coins);
    }
  }

  lemma NamesDiffer()
    ensures Name(ClientA) != Name(ClientB)
  {
    assert Name(ClientA)[7] == 'A' && Name(ClientB)[7] == 'B';
  }

  // For every valid HELLO of Client B: where the key exchange throws, a fresh initiator sends nothing
  // for it, and nothing either when it is told of its peer afterwards.
  lemma HelloLostAt(env: Env, ledger: Ledger, identity: Identity, m: Msg)
    requires WellFormed(env, m) && m.Hello? && m.sender == Name(ClientB)
    ensures var o := HandleMessage(env, ledger, Fresh(ClientA, identity), Obj(ToObject(m)), Coins(None, None));
            && o.session.helloSent && o.session.state == Failed && o.result.outgoing == []
            && OnPeerJoined(env, o.session) == (o.session, StepResult([], NoEvent, None))
  {
    hide WellFormed, ImportPublicKey, Name, ToObject, HandleMessage;
    HandleWellFormed(env, ledger, Fresh(ClientA, identity), m, Coins(None, None));
    WellFormedHelloImports(env, m);
  }

  // Some input of the run makes the initiator lose its HELLO.
  ghost predicate HelloLost(env: Env, role: Role, identity: Identity, inputs: seq<Input>) {
    exists n :: 0 <= n < |inputs| && LostAt(env, role, identity, inputs, n)
  }

  predicate LostAt(env: Env, role: Role, identity: Identity, inputs: seq<Input>, n: nat)
    requires n < |inputs|
  {
    inputs[n].Received? &&
    LosesHelloOn(env, RunEpoch(env, Fresh(role, identity), inputs[..n]).0, inputs[n].message, inputs[n].coins)
  }

  // Between two departures of the peer, whatever arrives: a client's emissions are exactly the part
  // of its script it has got through, all under its own name. So HELLO comes first, each message at
  // most once, and at most two messages leave per epoch. The exception is exactly an initiator that
  // lost its HELLO: it is FAILED and sends nothing at all.
  lemma {:induction false} TraceLanguage(env: Env, role: Role, identity: Identity, inputs: seq<Input>)
    ensures var (s, sent) := RunEpoch(env, Fresh(role, identity), inputs);
            && Inv(s) && s.role == role && s.identity == identity
            && (forall k :: 0 <= k < |sent| ==> sent[k].sender == Name(role))
            && (Kinds(sent) == Script(role)[..Progress(s)] <==> !HelloLost(env, role, identity, inputs))
            && (HelloLost(env, role, identity, inputs) ==>
                  role == ClientA && sent == [] && s.state == Failed && Progress(s) == 1)
  {
    hide StepInput, Name, Inv, Progress, Script, Kinds, LosesHelloOn;
    if inputs == [] {
      NothingEmitted(role, identity);
    } else {
      var n, last := |inputs| - 1, inputs[|inputs| - 1];
      var init := inputs[..n];
      TraceLanguage(env, role, identity, init);
      var (s1, sent1) := RunEpoch(env, Fresh(role, identity), init);
      StepFollowsScript(env, s1, last);
      var (s2, sent2) := StepInput(env, s1, last);
      KindsJoin(sent1, sent2);
      SlicesJoin(Script(role), Progress(s1), Progress(s2));
      LostSooner(env, role, identity, inputs);
      NotAllOfScript(role);
      OnlyInitiatorLoses(env, s1, last);
      if HelloLost(env, role, identity, init) {
        FailedIsSilent(env, s1, last);
        assert sent1 + sent2 == sent1;
      }
    }
  }

  lemma NotAllOfScript(role: Role)
    ensures Kinds([]) == [] != Script(role)[..1]
    ensures Script(role)[..0] == []
  {
  }

  lemma OnlyInitiatorLoses(env: Env, s: Session, i: Input)
    ensures i.Received? && LosesHelloOn(env, s, i.message, i.coins) ==>
              s.role == ClientA && !s.helloSent && Progress(s) == 0
  {
    hide CreationThrows, IsValidHandshake, FromObject;
  }

  // A HELLO is lost in a run or by its last input.
  lemma LostSooner(env: Env, role: Role, identity: Identity, inputs: seq<Input>)
    requires inputs != []
    ensures var n := |inputs| - 1;
            HelloLost(env, role, identity, inputs) <==>
              HelloLost(env, role, identity, inputs[..n]) || LostAt(env, role, identity, inputs, n)
  {
    hide LosesHelloOn;
    var init := inputs[..|inputs| - 1];
    forall n | 0 <= n < |init|
      ensures LostAt(env, role, identity, init, n) <==> LostAt(env, role, identity, inputs, n)
    {
      assert init[..n] == inputs[..n] && init[n] == inputs[n];
    }
  }

  lemma NothingEmitted(role: Role, identity: Identity)
    ensures Inv(Fresh(role, identity)) && Progress(Fresh(role, identity)) == 0 && Kinds([]) == [] == Script(role)[..0]
  {
  }

  lemma KindsJoin(xs: seq<Msg>, ys: seq<Msg>)
    ensures Kinds(xs + ys) == Kinds(xs) + Kinds(ys) && |Kinds(xs)| == |xs|
    ensures ys == [] ==> Kinds(ys) == []
  {
  }

  lemma SlicesJoin(script: seq<string>, i: nat, j: nat)
    requires i <= j <= |script|
    ensures script[..i] + script[i..j] == script[..j] && script[..i] <= script[..j]
  {
  }

  lemma FailedIsSilent(env: Env, s: Session, i: Input)
    requires Inv(s) && s.state == Failed
    ensures StepInput(env, s, i) == (s, [])
  {
    hide HandleMessage;
    if i.Received? {
      EndedIsAbsorbing(env, i.ledger, s, i.message, i.coins);
    } else {
      EndedIsAbsorbing(env, EMPTY_LEDGER, s, Arr, Coins(None, None));
    }
  }
}
