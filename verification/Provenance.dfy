// Where the lines of the honest system come from: every line in flight was written by the client it
// names, for a session on record. From this, exactly which deliveries make a client FAILED.
module Provenance {
  import opened Wrappers
  import opened Text
  import opened Crypto
  import opened Messages
  import opened Validation
  import opened Handshake
  import opened Sessions
  import opened Evidence
  import opened HonestNetwork
  import opened HonestAgreement
  import Base64
  import Canonical

  // ---- Lines and their authors ---------------------------------------------------------------------

  // The message createKeyExchange made for a record.
  predicate IsKeyMessage(ledger: Ledger, m: Msg, r: KeyRecord) {
    && m.KeyExchange? && m.sessionId == r.sessionId
    && Base64.IsShaped(m.encryptedSessionKey) && Base64.Decode(m.encryptedSessionKey) == r.ciphertext
    && Base64.IsShaped(m.signature)
    && Signature(r.signer, KeyData(r.sessionId, r.ciphertext, r.recipient),
                 Base64.Decode(m.signature)) in ledger.signatures
  }

  // The acknowledgement made for a record.
  predicate IsAckMessage(ledger: Ledger, m: Msg, k: AckRecord) {
    && m.KeyExchangeAck? && m.sessionId == k.sessionId
    && Base64.IsShaped(m.signature)
    && Signature(k.signer, AckData(k.sessionId), Base64.Decode(m.signature)) in ledger.signatures
  }

  ghost predicate KeyBy(h: History, ledger: Ledger, signer: PublicKey, m: Msg) {
    exists r :: r in h.keys && r.signer == signer && IsKeyMessage(ledger, m, r)
  }

  ghost predicate AckBy(h: History, ledger: Ledger, signer: PublicKey, m: Msg) {
    exists k :: k in h.acks && k.signer == signer && IsAckMessage(ledger, m, k)
  }

  predicate HelloBy(env: Env, id: Identity, m: Msg) {
    && m.Hello?
    && ParsePem(env, m.encryptionPublicKey) == Some(id.encryption) &&
       ParsePem(env, m.signingPublicKey) == Some(id.signing)
  }

  // A line that the client with this role and identity wrote.
  ghost predicate SentBy(env: Env, h: History, ledger: Ledger, role: Role, id: Identity, m: Msg) {
    && RelayAccepts(env, role, m)
    && match m
       case Hello(_, _, _, _) => HelloBy(env, id, m)
       case KeyExchange(_, _, _, _, _, _) => role == ClientA && KeyBy(h, ledger, id.signing, m)
       case KeyExchangeAck(_, _, _, _, _) => role == ClientB && AckBy(h, ledger, id.signing, m)
  }

  lemma SentByGrows(env: Env, h: History, ledger: Ledger, h': History, ledger': Ledger, role: Role, id: Identity,
                    m: Msg)
    requires SentBy(env, h, ledger, role, id, m)
    requires h.keys <= h'.keys && h.acks <= h'.acks && ledger.signatures <= ledger'.signatures
    ensures SentBy(env, h', ledger', role, id, m)
  {
    hide RelayAccepts, ParsePem, KeyData, AckData, Base64.Decode, Base64.IsShaped;
    if m.KeyExchange? {
      var r :| r in h.keys && r.signer == id.signing && IsKeyMessage(ledger, m, r);
      assert IsKeyMessage(ledger', m, r);
    } else if m.KeyExchangeAck? {
      var k :| k in h.acks && k.signer == id.signing && IsAckMessage(ledger, m, k);
      assert IsAckMessage(ledger', m, k);
    }
  }

  // ---- Inboxes -----------------------------------------------------------------------------------------

  function Departures(inbox: seq<Item>): nat {
    if inbox == [] then 0 else (if inbox[0] == PeerLeft then 1 else 0) + Departures(inbox[1..])
  }

  // The notices of departure cut an inbox into parts, each filled by one peer; senders are those
  // peers in order. The part after the last departure may still be waiting for its peer.
  ghost predicate InboxTraced(env: Env, h: History, ledger: Ledger, sender: Role, senders: seq<Identity>,
                              inbox: seq<Item>)
    decreases |inbox|
  {
    inbox != [] ==>
      && senders != []
      && match inbox[0]
         case PeerLeft => InboxTraced(env, h, ledger, sender, senders[1..], inbox[1..])
         case PeerJoined => InboxTraced(env, h, ledger, sender, senders, inbox[1..])
         case Relayed(m) =>
           && SentBy(env, h, ledger, sender, senders[0], m)
           && InboxTraced(env, h, ledger, sender, senders, inbox[1..])
  }

  lemma {:induction false} InboxGrows(env: Env, h: History, ledger: Ledger, h': History, ledger': Ledger,
                                      sender: Role, senders: seq<Identity>, inbox: seq<Item>)
    requires InboxTraced(env, h, ledger, sender, senders, inbox)
    requires h.keys <= h'.keys && h.acks <= h'.acks && ledger.signatures <= ledger'.signatures
    ensures InboxTraced(env, h', ledger', sender, senders, inbox)
    decreases |inbox|
  {
    hide SentBy;
    if inbox != [] {
      match inbox[0]
      case PeerLeft => InboxGrows(env, h, ledger, h', ledger', sender, senders[1..], inbox[1..]);
      case PeerJoined => InboxGrows(env, h, ledger, h', ledger', sender, senders, inbox[1..]);
      case Relayed(m) =>
        SentByGrows(env, h, ledger, h', ledger', sender, senders[0], m);
        InboxGrows(env, h, ledger, h', ledger', sender, senders, inbox[1..]);
    }
  }

  // A notice or line from the present peer goes to the last part; a departure closes it.
  lemma {:induction false} InboxHears(env: Env, h: History, ledger: Ledger, sender: Role, senders: seq<Identity>,
                                      inbox: seq<Item>, item: Item)
    requires InboxTraced(env, h, ledger, sender, senders, inbox) && |senders| == Departures(inbox) + 1
    requires item.Relayed? ==> SentBy(env, h, ledger, sender, senders[|senders| - 1], item.m)
    ensures InboxTraced(env, h, ledger, sender, senders, inbox + [item])
    ensures Departures(inbox + [item]) == Departures(inbox) + if item == PeerLeft then 1 else 0
    decreases |inbox|
  {
    hide SentBy;
    if inbox == [] {
      assert inbox + [item] == [item];
      assert [item][1..] == [];
    } else {
      assert (inbox + [item])[1..] == inbox[1..] + [item];
      InboxHears(env, h, ledger, sender, if inbox[0] == PeerLeft then senders[1..] else senders, inbox[1..], item);
    }
  }

  // A new peer opens a new part.
  lemma {:induction false} InboxOpens(env: Env, h: History, ledger: Ledger, sender: Role, senders: seq<Identity>,
                                      inbox: seq<Item>, joining: Identity)
    requires InboxTraced(env, h, ledger, sender, senders, inbox) && |senders| == Departures(inbox)
    ensures InboxTraced(env, h, ledger, sender, senders + [joining], inbox + [PeerJoined])
    ensures Departures(inbox + [PeerJoined]) == Departures(inbox)
    decreases |inbox|
  {
    hide SentBy;
    if inbox == [] {
      assert inbox + [PeerJoined] == [PeerJoined];
      assert [PeerJoined][1..] == [];
    } else {
      assert (inbox + [PeerJoined])[1..] == inbox[1..] + [PeerJoined];
      assert (senders + [joining])[1..] == senders[1..] + [joining];
      InboxOpens(env, h, ledger, sender, if inbox[0] == PeerLeft then senders[1..] else senders, inbox[1..], joining);
      assert senders != [] ==> (senders + [joining])[0] == senders[0];
    }
  }

  lemma DeparturesMeanDeparted(inbox: seq<Item>)
    ensures Departures(inbox) == 0 <==> !Departed(inbox)
  {
    if inbox != [] {
      DeparturesMeanDeparted(inbox[1..]);
      DepartedTail(inbox);
    }
  }

  // ---- Invariant ----------------------------------------------------------------------------------------

  // A responder acknowledges only keys wrapped for itself.
  predicate AckedForOwn(h: History, id: Identity) {
    forall r, k :: r in h.keys && k in h.acks && k.signer == id.signing && r.sessionId == k.sessionId ==>
      r.recipient == id.encryption
  }

  ghost predicate OutboxTraced(env: Env, h: History, ledger: Ledger, role: Role, id: Identity, outbox: seq<Msg>) {
    forall m :: m in outbox ==> SentBy(env, h, ledger, role, id, m)
  }

  // The session is with the peer that filled the first part of the inbox.
  predicate PeerTraced(s: Session, senders: seq<Identity>) {
    s.state != NoSession ==> senders != [] && OfPartner(Some(senders[0]), s.peerEncryption, s.peerSigning)
  }

  predicate SendersOk(partner: Option<Identity>, senders: seq<Identity>, inbox: seq<Item>) {
    && |senders| == Departures(inbox) + (if partner.Some? then 1 else 0)
    && (partner.Some? ==> senders[|senders| - 1] == partner.value)
  }

  ghost predicate ClientTraced(env: Env, h: History, ledger: Ledger, partner: Option<Identity>, role: Role, c: Client,
                               senders: seq<Identity>) {
    && OutboxTraced(env, h, ledger, role, c.session.identity, c.outbox)
    && InboxTraced(env, h, ledger, Peer(role), senders, c.inbox)
    && SendersOk(partner, senders, c.inbox)
    && PeerTraced(c.session, senders)
    && (role == ClientB ==> AckedForOwn(h, c.session.identity))
  }

  // Which peers filled the two inboxes.
  datatype Authors = Authors(a: seq<Identity>, b: seq<Identity>)

  function AuthorsOf(authors: Authors, role: Role): seq<Identity> {
    if role == ClientA then authors.a else authors.b
  }

  function WithAuthors(authors: Authors, role: Role, senders: seq<Identity>): Authors {
    if role == ClientA then authors.(a := senders) else authors.(b := senders)
  }

  predicate KeysAcceptable(env: Env, used: set<PublicKey>) {
    forall k :: k in used ==> MIN_MODULUS_LENGTH <= env.modulusBits(k) <= 8192
  }

  ghost predicate SlotTraced(env: Env, net: Net, authors: Authors, role: Role) {
    role in net.slots ==>
      ClientTraced(env, net.history, net.ledger, Occupant(net, Peer(role)), role, net.slots[role],
                   AuthorsOf(authors, role))
  }

  ghost predicate NetTraced(env: Env, net: Net, authors: Authors) {
    KeysAcceptable(env, net.used) && SlotTraced(env, net, authors, ClientA) && SlotTraced(env, net, authors, ClientB)
  }

  // ---- What handling a line does, exactly --------------------------------------------------------------

  // The key of a KEY_EXCHANGE was wrapped for the owner of this key.
  ghost predicate KeyFor(h: History, own: PublicKey, m: Msg) {
    m.KeyExchange? && exists r :: r in h.keys && r.sessionId == m.sessionId && r.recipient == own
  }

  lemma HelloImportsTo(env: Env, id: Identity, m: Msg)
    requires HelloBy(env, id, m) && WellFormed(env, m)
    ensures ImportPublicKey(env, m.encryptionPublicKey) == Some(id.encryption)
    ensures ImportPublicKey(env, m.signingPublicKey) == Some(id.signing)
  {
    hide ImportPublicKey, IsIdentity, NoPrivateMark;
  }

  function Knowing(s: Session, id: Identity): Session {
    s.(peerEncryption := Some(id.encryption), peerSigning := Some(id.signing), helloSent := true)
  }

  lemma ResponderGreeted(env: Env, ledger: Ledger, s: Session, m: Msg, coins: Coins, id: Identity)
    requires HelloBy(env, id, m) && WellFormed(env, m) && m.sender == Name(Peer(s.role)) && s.role == ClientB
    ensures OnMessage(env, ledger, s, m, coins) ==
      if s.state != NoSession then Reject(s, ledger, UnexpectedHello)
      else Outcome(Knowing(s, id).(state := HelloExchanged), StepResult(OwnHelloOnce(env, s), PeerKeysReceived, None),
                   ledger)
  {
    HelloImportsTo(env, id, m);
    hide ImportPublicKey, WellFormed, Name, CreateKeyExchange, HelloBy, OwnHello;
  }

  // The initiator's key exchange is created exactly when the primitives deliver.
  lemma InitiatorGreeted(env: Env, ledger: Ledger, s: Session, m: Msg, coins: Coins, id: Identity)
    requires HelloBy(env, id, m) && WellFormed(env, m) && m.sender == Name(Peer(s.role)) && s.role == ClientA
    requires s.state == NoSession
    requires coins.key.Some? ==>
      && LawfulKeyCoins(env, ledger, id.encryption, s.identity.signing, coins.key.value)
      && MIN_MODULUS_LENGTH <= env.modulusBits(id.encryption) <= 8192
      && MIN_MODULUS_LENGTH <= env.modulusBits(s.identity.signing) <= 8192
    ensures coins.key.None? ==>
      OnMessage(env, ledger, s, m, coins) == Fail(Knowing(s, id).(state := HelloExchanged), ledger, PrimitiveFailed)
    ensures coins.key.Some? ==>
      && OnMessage(env, ledger, s, m, coins).result.event == KeyExchangeSent
      && OnMessage(env, ledger, s, m, coins).session ==
           Knowing(s, id).(state := KeySent, sessionId := Some(Hex(coins.key.value.idBytes)),
                           sessionKey := Some(coins.key.value.sessionKey))
  {
    hide ImportPublicKey, WellFormed, Name, ParsePem, OwnHello, LawfulKeyCoins, ValidParty, Hex, CreateKeyExchange;
    HelloImportsTo(env, id, m);
    CreatedFrom(env, ledger, s.identity.signing, id.encryption, coins.key);
    if coins.key.Some? {
      CreationSucceeds(env, ledger, s.identity.signing, id.encryption, coins.key.value);
    }
  }

  lemma CreationSucceeds(env: Env, ledger: Ledger, signer: PublicKey, peer: PublicKey, coins: KeyCoins)
    requires LawfulKeyCoins(env, ledger, peer, signer, coins)
    requires MIN_MODULUS_LENGTH <= env.modulusBits(peer) <= 8192
    requires MIN_MODULUS_LENGTH <= env.modulusBits(signer) <= 8192
    ensures var r := CreateKeyExchange(env, ledger, Name(ClientA), Name(ClientB), signer, peer, Some(coins));
            r.Success? && WellFormed(env, r.value.message)
  {
    hide WellFormed, Name, ValidParty, CreateKeyExchange, LawfulKeyCoins;
    NamesAreParties();
    KeyExchangeComplete(env, ledger, Name(ClientA), Name(ClientB), signer, peer, coins);
  }

  lemma HelloIgnored(env: Env, ledger: Ledger, s: Session, m: Msg, coins: Coins)
    requires m.Hello? && s.state != NoSession && m.sender == Name(Peer(s.role))
    ensures OnMessage(env, ledger, s, m, coins) == Reject(s, ledger, UnexpectedHello)
  {
    hide Name;
  }

  lemma CreatedFrom(env: Env, ledger: Ledger, signer: PublicKey, peer: PublicKey, coins: Option<KeyCoins>)
    ensures var r := CreateKeyExchange(env, ledger, Name(ClientA), Name(ClientB), signer, peer, coins);
            && (r.Success? ==>
                  && coins.Some?
                  && r.value.sessionId == Hex(coins.value.idBytes) && r.value.sessionKey == coins.value.sessionKey)
            && (r.Failure? ==> r.error == PrimitiveFailed)
  {
    hide Canonical.CanonicalizeHandshake, Base64.Encode, Name, Hex;
  }

  // A KEY_EXCHANGE that its signer never created for this responder's key ends the handshake: one that
  // was under way to an earlier occupant of the slot does so to the client that took its place.
  lemma StaleKeyExchangeFails(env: Env, h: History, ledger: Ledger, honest: set<PublicKey>, s: Session, m: Msg,
                              coins: Coins)
    requires Sound(h, ledger, honest) && Inv(s) && s.role == ClientB && s.state == HelloExchanged
    requires m.KeyExchange? && s.peerSigning.value in honest
    requires forall r :: r in h.keys && r.signer == s.peerSigning.value && r.sessionId == m.sessionId ==>
      r.recipient != s.identity.encryption
    ensures OnMessage(env, ledger, s, m, coins).session == s.(state := Failed)
    ensures OnMessage(env, ledger, s, m, coins).result.outgoing == []
  {
    hide VerifyKeyExchange, Sound, Name, CreateKeyExchangeAck;
    var verdict := VerifyKeyExchange(env, ledger, m, Name(ClientA), Name(ClientB), s.peerSigning.value,
                                     s.identity.encryption);
    if verdict.Success? {
      var r := AcceptedKeyIsRecorded(env, h, ledger, honest, m, s.peerSigning.value, s.identity.encryption,
                                     verdict.value.sessionId, verdict.value.sessionKey);
      AcceptedNamesItsId(env, ledger, m, s.peerSigning.value, s.identity.encryption, verdict.value);
    }
  }

  // The responder takes a key that was wrapped for it, and FAILS on any other.
  lemma ResponderKeyed(env: Env, h: History, ledger: Ledger, honest: set<PublicKey>, s: Session, m: Msg, coins: Coins,
                       signer: PublicKey)
    requires Sound(h, ledger, honest) && signer in honest && KeyBy(h, ledger, signer, m) && m.KeyExchange?
    requires s.role == ClientB && RelayAccepts(env, ClientA, m)
    requires s.state == HelloExchanged && s.peerSigning == Some(signer)
    requires LawfulCoins(env, h, ledger, s, m, coins) && env.modulusBits(s.identity.signing) >= MIN_MODULUS_LENGTH
    ensures KeyFor(h, s.identity.encryption, m) && coins.ackSignature.Some? ==>
      && OnMessage(env, ledger, s, m, coins).result.event == SessionEstablished
      && OnMessage(env, ledger, s, m, coins).session.state == Established
      && OnMessage(env, ledger, s, m, coins).session.sessionId == Some(m.sessionId)
      && OnMessage(env, ledger, s, m, coins).session == s.(sessionId := Some(m.sessionId), state := Established,
           sessionKey := OnMessage(env, ledger, s, m, coins).session.sessionKey)
    ensures !(KeyFor(h, s.identity.encryption, m) && coins.ackSignature.Some?) ==>
      && OnMessage(env, ledger, s, m, coins).session == s.(state := Failed, sessionKey := None)
      && OnMessage(env, ledger, s, m, coins).result.event == NoEvent
      && OnMessage(env, ledger, s, m, coins).result.outgoing == []
      && OnMessage(env, ledger, s, m, coins).ledger == ledger
  {
    hide VerifyKeyExchange, Sound, Name, WellFormed, CreateKeyExchangeAck, ValidParty, LawfulSignature,
         CreateKeyExchange,
         IsKeyMessage;
    var own := s.identity.encryption;
    var verdict := VerifyKeyExchange(env, ledger, m, Name(ClientA), Name(ClientB), signer, own);
    if KeyFor(h, own, m) {
      OwnKeyAccepted(env, h, ledger, honest, m, signer, own);
      if coins.ackSignature.Some? {
        KeyHasSessionId(env, m);
        NamesAreParties();
        AckComplete(env, ledger, Name(ClientB), Name(ClientA), m.sessionId, s.identity.signing,
                    coins.ackSignature.value);
      } else {
        NoSignatureNoAck(ledger, m.sessionId, s.identity.signing);
      }
    } else if verdict.Success? {
      var r := AcceptedKeyIsRecorded(env, h, ledger, honest, m, signer, own, verdict.value.sessionId,
                                     verdict.value.sessionKey);
      AcceptedNamesItsId(env, ledger, m, signer, own, verdict.value);
    }
  }

  lemma NoSignatureNoAck(ledger: Ledger, id: string, signer: PublicKey)
    ensures CreateKeyExchangeAck(ledger, Name(ClientB), Name(ClientA), id, signer, None) == Failure(PrimitiveFailed)
  {
  }

  lemma AcceptedNamesItsId(env: Env, ledger: Ledger, m: Msg, signing: PublicKey, own: PublicKey, accepted: Accepted)
    requires VerifyKeyExchange(env, ledger, m, Name(ClientA), Name(ClientB), signing, own) == Success(accepted)
    ensures accepted.sessionId == m.sessionId
  {
    hide WellFormed, Name, Base64.Decode, Canonical.CanonicalizeHandshake;
  }

  lemma OwnKeyAccepted(env: Env, h: History, ledger: Ledger, honest: set<PublicKey>, m: Msg, signer: PublicKey,
                       own: PublicKey)
    requires Sound(h, ledger, honest) && KeyBy(h, ledger, signer, m) && KeyFor(h, own, m)
    requires RelayAccepts(env, ClientA, m)
    ensures exists key :: VerifyKeyExchange(env, ledger, m, Name(ClientA), Name(ClientB), signer, own)
                          == Success(Accepted(m.sessionId, key))
  {
    hide VerifyKeyExchange, SignaturesExplained, Name, WellFormed, DataOf, Base64.Decode, Base64.IsShaped, IsSessionId;
    var r :| r in h.keys && r.signer == signer && IsKeyMessage(ledger, m, r);
    var q :| q in h.keys && q.sessionId == m.sessionId && q.recipient == own;
    assert q == r;
    KeyExchangeAcceptedIff(env, ledger, m, Name(ClientA), Name(ClientB), signer, own, m.sessionId, r.sessionKey);
  }

  // The initiator takes an acknowledgement of its own session ID, and FAILS on any other.
  lemma InitiatorAcked(env: Env, h: History, ledger: Ledger, s: Session, m: Msg, coins: Coins, signer: PublicKey)
    requires AckBy(h, ledger, signer, m) && RelayAccepts(env, ClientB, m)
    requires s.role == ClientA && s.state == KeySent && s.peerSigning == Some(signer) && s.sessionId.Some?
    ensures OnMessage(env, ledger, s, m, coins).ledger == ledger
    ensures OnMessage(env, ledger, s, m, coins).result.outgoing == []
    ensures s.sessionId == Some(m.sessionId) ==>
      && OnMessage(env, ledger, s, m, coins).session == s.(state := Established)
      && OnMessage(env, ledger, s, m, coins).result.event == SessionEstablished
    ensures s.sessionId != Some(m.sessionId) ==>
      && OnMessage(env, ledger, s, m, coins).session == s.(state := Failed, sessionKey := None)
      && OnMessage(env, ledger, s, m, coins).result.event == NoEvent
  {
    hide VerifyKeyExchangeAck, Name, WellFormed, DataOf, Base64.Decode, Base64.IsShaped;
    var k :| k in h.acks && k.signer == signer && IsAckMessage(ledger, m, k);
    AckAcceptedIff(env, ledger, m, Name(ClientB), Name(ClientA), s.sessionId.value, signer);
  }

  // A signed message in any other state changes nothing.
  lemma SignedIgnored(env: Env, ledger: Ledger, s: Session, m: Msg, coins: Coins)
    requires m.KeyExchange? ==> s.role == ClientB && s.state != HelloExchanged
    requires m.KeyExchangeAck? ==> s.role == ClientA && s.state != KeySent
    requires !m.Hello?
    ensures OnMessage(env, ledger, s, m, coins).session == s && OnMessage(env, ledger, s, m, coins).ledger == ledger
    ensures OnMessage(env, ledger, s, m, coins).result.outgoing == []
    ensures OnMessage(env, ledger, s, m, coins).result.event == NoEvent
  {
    hide VerifyKeyExchange, VerifyKeyExchangeAck, Name;
  }

  // ---- Steps keep lines traced ------------------------------------------------------------------------------

  lemma LedgerGrows(env: Env, ledger: Ledger, s: Session, m: Msg, coins: Coins)
    ensures ledger.signatures <= OnMessage(env, ledger, s, m, coins).ledger.signatures
  {
    hide VerifyKeyExchange, VerifyKeyExchangeAck, ImportPublicKey, Hex, Canonical.CanonicalizeHandshake, Name,
         Base64.Encode,
         OwnHello, FitsOaep;
  }

  lemma OwnHelloSentBy(env: Env, h: History, ledger: Ledger, s: Session)
    requires GoodIdentity(env, s.identity)
    ensures SentBy(env, h, ledger, s.role, s.identity, OwnHello(env, s))
  {
    OwnHelloIsWellFormed(env, s);
    hide GoodIdentity, WellFormed, Name, ParsePem;
  }

  lemma ModuliOf(env: Env, id: Identity)
    requires GoodIdentity(env, id)
    ensures MIN_MODULUS_LENGTH <= env.modulusBits(id.encryption) <= 8192
    ensures MIN_MODULUS_LENGTH <= env.modulusBits(id.signing) <= 8192
  {
  }

  lemma CreatedText(env: Env, ledger: Ledger, signer: PublicKey, peer: PublicKey, c: KeyCoins)
    requires CreateKeyExchange(env, ledger, Name(ClientA), Name(ClientB), signer, peer, Some(c)).Success?
    ensures CreateKeyExchange(env, ledger, Name(ClientA), Name(ClientB), signer, peer,
                              Some(c)).value.message == KeyText(c)
  {
    hide Canonical.CanonicalizeHandshake, Base64.Encode, Name, Hex;
  }

  // The message of createKeyExchange for what the primitives drew.
  function KeyText(c: KeyCoins): Msg {
    KeyExchange(PROTOCOL_VERSION, Name(ClientA), Name(ClientB), Hex(c.idBytes), Base64.Encode(c.ciphertext),
                Base64.Encode(c.signature))
  }

  lemma OutputText(output: Bytes)
    requires output != []
    ensures Base64.IsShaped(Base64.Encode(output)) && Base64.Decode(Base64.Encode(output)) == output
  {
    Base64.DecodeEncode(output);
  }

  lemma OutputsNotEmpty(env: Env, ledger: Ledger, peer: PublicKey, signer: PublicKey, c: KeyCoins)
    requires LawfulKeyCoins(env, ledger, peer, signer, c)
    requires env.modulusBits(peer) >= MIN_MODULUS_LENGTH && env.modulusBits(signer) >= MIN_MODULUS_LENGTH
    ensures c.ciphertext != [] && c.signature != []
  {
  }

  // A created KEY_EXCHANGE has its creator for author.
  lemma CreatedSentBy(env: Env, h: History, ledger: Ledger, later: Ledger, id: Identity, peer: PublicKey, c: KeyCoins)
    requires LawfulKeyCoins(env, ledger, peer, id.signing, c) && GoodIdentity(env, id)
    requires MIN_MODULUS_LENGTH <= env.modulusBits(peer) <= 8192
    requires KeyRecord(id.signing, peer, Hex(c.idBytes), c.ciphertext, c.sessionKey) in h.keys
    requires Signature(id.signing, KeyData(Hex(c.idBytes), c.ciphertext, peer), c.signature) in later.signatures
    ensures SentBy(env, h, later, ClientA, id, KeyText(c))
  {
    hide WellFormed, Name, GoodIdentity, Hex, KeyData, Base64.Encode, Base64.Decode, Base64.IsShaped, LawfulKeyCoins,
         CreateKeyExchange;
    ModuliOf(env, id);
    CreationSucceeds(env, ledger, id.signing, peer, c);
    CreatedText(env, ledger, id.signing, peer, c);
    OutputsNotEmpty(env, ledger, peer, id.signing, c);
    OutputText(c.ciphertext);
    OutputText(c.signature);
    assert IsKeyMessage(later, KeyText(c), KeyRecord(id.signing, peer, Hex(c.idBytes), c.ciphertext, c.sessionKey));
  }

  // The acknowledgement of a session ID.
  function AckOf(id: string, signature: Bytes): Msg {
    KeyExchangeAck(PROTOCOL_VERSION, Name(ClientB), Name(ClientA), id, Base64.Encode(signature))
  }

  lemma AckIsWellFormed(env: Env, ledger: Ledger, signer: PublicKey, id: string, signature: Bytes)
    requires IsSessionId(id) && LawfulSignature(env, signer, signature)
    requires MIN_MODULUS_LENGTH <= env.modulusBits(signer) <= 8192
    ensures WellFormed(env, AckOf(id, signature))
  {
    hide WellFormed, Name, CreateKeyExchangeAck, ValidParty, IsSessionId, LawfulSignature, AckOf;
    NamesAreParties();
    AckComplete(env, ledger, Name(ClientB), Name(ClientA), id, signer, signature);
    AckText(ledger, id, signer, signature);
  }

  lemma SignatureNotEmpty(env: Env, signer: PublicKey, signature: Bytes)
    requires LawfulSignature(env, signer, signature) && env.modulusBits(signer) >= MIN_MODULUS_LENGTH
    ensures signature != []
  {
  }

  lemma AcceptedSentBy(env: Env, h: History, ledger: Ledger, later: Ledger, id: Identity, k: AckRecord,
                       signature: Bytes)
    requires IsSessionId(k.sessionId) && LawfulSignature(env, id.signing, signature) && GoodIdentity(env, id)
    requires k in h.acks && k.signer == id.signing
    requires Signature(id.signing, AckData(k.sessionId), signature) in later.signatures
    ensures SentBy(env, h, later, ClientB, id, AckOf(k.sessionId, signature))
  {
    hide WellFormed, Name, GoodIdentity, AckData, Base64.Encode, Base64.Decode, Base64.IsShaped, IsSessionId,
         LawfulSignature;
    ModuliOf(env, id);
    SignatureNotEmpty(env, id.signing, signature);
    AckIsWellFormed(env, ledger, id.signing, k.sessionId, signature);
    OutputText(signature);
    assert IsAckMessage(later, AckOf(k.sessionId, signature), k);
  }

  lemma AckText(ledger: Ledger, id: string, signer: PublicKey, signature: Bytes)
    ensures var r := CreateKeyExchangeAck(ledger, Name(ClientB), Name(ClientA), id, signer, Some(signature));
            r.Success? ==> r.value.0 == AckOf(id, signature)
  {
    hide Canonical.CanonicalizeHandshake, Base64.Encode, Name;
  }

  // Whatever a client writes is traced to it.
  lemma OutgoingSentBy(env: Env, h: History, ledger: Ledger, s: Session, m: Msg, coins: Coins)
    requires WellFormed(env, m) && LawfulCoins(env, h, ledger, s, m, coins) && GoodIdentity(env, s.identity)
    requires m.Hello? ==> var e := ImportPublicKey(env, m.encryptionPublicKey);
                          e.Some? ==> MIN_MODULUS_LENGTH <= env.modulusBits(e.value) <= 8192
    ensures var o := OnMessage(env, ledger, s, m, coins);
            OutboxTraced(env, Recorded(h, s, o, coins), o.ledger, s.role, s.identity, o.result.outgoing)
  {
    hide OnMessage, ImportPublicKey, WellFormed, GoodIdentity, LawfulKeyCoins, SentBy, OwnHello, KeyText, AckOf,
         KeyData, AckData,
         Hex, VerifyKeyExchange, IsSessionId;
    var o := OnMessage(env, ledger, s, m, coins);
    var h' := Recorded(h, s, o, coins);
    OwnHelloSentBy(env, h', o.ledger, s);
    if o.result.event == KeyExchangeSent {
      KeyExchangeSentCreates(env, h, ledger, s, m, coins);
      SentWhenCreating(env, ledger, s, m, coins);
      CreatedSentBy(env, h', ledger, o.ledger, s.identity, o.session.peerEncryption.value, coins.key.value);
      SentKeyText(env, s, o.result.outgoing, coins.key.value);
    } else if o.result.event == SessionEstablished && s.role == ClientB {
      EstablishedBAccepts(env, ledger, s, m, coins);
      SentWhenAccepting(env, ledger, s, m, coins);
      KeyHasSessionId(env, m);
      AcceptedSentBy(env, h', ledger, o.ledger, s.identity,
                     AckRecord(s.identity.signing, m.sessionId, o.session.sessionKey.value),
                     coins.ackSignature.value);
      SentAckText(m.sessionId, coins.ackSignature.value);
    } else {
      SentOtherwise(env, ledger, s, m, coins);
    }
  }

  lemma SentKeyText(env: Env, s: Session, outgoing: seq<Msg>, c: KeyCoins)
    requires outgoing == OwnHelloOnce(env,
                                      s) + [KeyExchange(PROTOCOL_VERSION, Name(ClientA), Name(ClientB), Hex(c.idBytes),
                                                             Base64.Encode(c.ciphertext), Base64.Encode(c.signature))]
    ensures forall x :: x in outgoing ==> x == OwnHello(env, s) || x == KeyText(c)
  {
    hide Name, Hex, Base64.Encode, OwnHello;
  }

  lemma SentAckText(id: string, signature: Bytes)
    ensures AckOf(id, signature) == KeyExchangeAck(PROTOCOL_VERSION, Name(ClientB), Name(ClientA), id,
                                                   Base64.Encode(signature))
  {
  }

  // The session stays with the same peer, and takes up with the author of a HELLO.
  lemma PeerAfter(env: Env, ledger: Ledger, s: Session, m: Msg, coins: Coins, id: Identity)
    requires Inv(s) && WellFormed(env, m) && (m.Hello? ==> HelloBy(env, id, m))
    requires s.state != NoSession ==> OfPartner(Some(id), s.peerEncryption, s.peerSigning)
    ensures var o := OnMessage(env, ledger, s, m, coins);
            o.session.state != NoSession ==> OfPartner(Some(id), o.session.peerEncryption, o.session.peerSigning)
  {
    if m.Hello? {
      HelloImportsTo(env, id, m);
    }
    match OnMessage(env, ledger, s, m, coins).result.event
    case KeyExchangeSent =>
      KeyExchangeSentCreates(env, History({}, {}), ledger, s, m, coins);
    case SessionEstablished =>
      if s.role == ClientA { EstablishedAVerifies(env, ledger, s, m, coins); }
      else { EstablishedBAccepts(env, ledger, s, m, coins); }
    case _ =>
      OtherSteps(env, ledger, s, m, coins);
      if s.state == NoSession && !m.Hello? {
        NoSessionUntilHello(env, ledger, s, m, coins);
      }
    hide OnMessage, WellFormed, ImportPublicKey, ParsePem, Creates, Accepts, VerifyKeyExchangeAck, Inv;
  }

  lemma AckedAfterCreation(h: History, id: Identity, r: KeyRecord)
    requires AckedForOwn(h, id) && forall k :: k in h.acks ==> k.sessionId != r.sessionId
    ensures AckedForOwn(h.(keys := h.keys + {r}), id)
  {
  }

  lemma AckedAfterAcceptance(h: History, id: Identity, r: KeyRecord, k: AckRecord)
    requires AckedForOwn(h, id) && IdsUnique(h) && r in h.keys && r.sessionId == k.sessionId
    requires r.recipient == id.encryption
    ensures AckedForOwn(h.(acks := h.acks + {k}), id)
  {
  }

  // The responder of the moment, id, still acknowledged only keys of its own.
  lemma AckedAfter(env: Env, h: History, ledger: Ledger, used: set<PublicKey>, s: Session, m: Msg, coins: Coins,
                   id: Identity)
    requires AckedForOwn(h, id) && HistoryOk(h, used) && Sound(h, ledger, used)
    requires LawfulCoins(env, h, ledger, s, m, coins) && (s.role == ClientB ==> s.identity == id)
    requires s.state != NoSession ==> s.peerSigning.Some? && s.peerSigning.value in used
    ensures AckedForOwn(Recorded(h, s, OnMessage(env, ledger, s, m, coins), coins), id)
  {
    hide OnMessage, WellFormed, SignaturesExplained, WrapsRecorded, RecordsValid, VerifyKeyExchange,
         VerifyKeyExchangeAck, KeyData,
         AckData, HistoryOk, Hex, ImportPublicKey, LawfulKeyCoins, AckedForOwn, Name;
    var o := OnMessage(env, ledger, s, m, coins);
    match o.result.event
    case KeyExchangeSent =>
      KeyExchangeSentCreates(env, h, ledger, s, m, coins);
      var c := coins.key.value;
      FreshIdIsUnacked(h, used, Hex(c.idBytes));
      AckedAfterCreation(h, id,
                         KeyRecord(s.identity.signing, o.session.peerEncryption.value, Hex(c.idBytes), c.ciphertext,
                                   c.sessionKey));
    case SessionEstablished =>
      if s.role == ClientB {
        EstablishedBAccepts(env, ledger, s, m, coins);
        var r := AcceptedKeyIsRecorded(env, h, ledger, used, m, s.peerSigning.value, s.identity.encryption,
                                       m.sessionId, o.session.sessionKey.value);
        AckedAfterAcceptance(h, id, r, AckRecord(s.identity.signing, m.sessionId, o.session.sessionKey.value));
      }
    case _ =>
  }

  // ---- Steps of the system ----------------------------------------------------------------------------------

  function AuthorsAfter(net: Net, authors: Authors, step: Step): Authors {
    match step
    case Connect(role, id) =>
      (match Occupant(net, Peer(role))
       case None => WithAuthors(authors, role, [])
       case Some(peer) =>
         WithAuthors(WithAuthors(authors, role, [peer]), Peer(role), AuthorsOf(authors, Peer(role)) + [id]))
    case Deliver(role, _) =>
      var senders := AuthorsOf(authors, role);
      if role in net.slots && net.slots[role].inbox != [] && net.slots[role].inbox[0] == PeerLeft && senders != []
      then WithAuthors(authors, role, senders[1..])
      else authors
    case _ => authors
  }

  lemma NewClientTraced(env: Env, net: Net, role: Role, id: Identity)
    requires NetInv(env, net) && Enabled(env, net, Connect(role, id))
    ensures var partner := Occupant(net, Peer(role));
            ClientTraced(env, net.history, net.ledger, partner, role, AfterConnect(net, role, id).slots[role],
                         if partner.Some? then [partner.value] else [])
  {
    hide GoodIdentity, Sound, SlotOk, PairOk, SentBy;
    assert InboxTraced(env, net.history, net.ledger, Peer(role), [], []);
    var c := AfterConnect(net, role, id).slots[role];
    assert AckedForOwn(net.history, id) by {
      assert forall k :: k in net.history.acks ==> k.signer != id.signing;
    }
    if Occupant(net, Peer(role)).Some? {
      var peer := Occupant(net, Peer(role)).value;
      InboxOpens(env, net.history, net.ledger, Peer(role), [], [], peer);
      assert [] + [peer] == [peer] && [] + [PeerJoined] == c.inbox;
    }
  }

  lemma PeerJoinTraced(env: Env, h: History, ledger: Ledger, role: Role, c: Client, senders: seq<Identity>,
                       joining: Identity)
    requires ClientTraced(env, h, ledger, None, role, c, senders)
    ensures ClientTraced(env, h, ledger, Some(joining), role, c.(inbox := c.inbox + [PeerJoined]), senders + [joining])
  {
    hide SentBy, AckedForOwn;
    InboxOpens(env, h, ledger, Peer(role), senders, c.inbox, joining);
  }

  lemma PeerLeaveTraced(env: Env, h: History, ledger: Ledger, role: Role, c: Client, senders: seq<Identity>,
                        leaving: Identity)
    requires ClientTraced(env, h, ledger, Some(leaving), role, c, senders)
    ensures ClientTraced(env, h, ledger, None, role, c.(inbox := c.inbox + [PeerLeft]), senders)
  {
    hide SentBy, AckedForOwn;
    InboxHears(env, h, ledger, Peer(role), senders, c.inbox, PeerLeft);
  }

  lemma LineTraced(env: Env, h: History, ledger: Ledger, role: Role, c: Client, senders: seq<Identity>,
                   partner: Identity, m: Msg)
    requires ClientTraced(env, h, ledger, Some(partner), role, c, senders)
    requires SentBy(env, h, ledger, Peer(role), partner, m)
    ensures ClientTraced(env, h, ledger, Some(partner), role, c.(inbox := c.inbox + [Relayed(m)]), senders)
  {
    hide SentBy, AckedForOwn;
    InboxHears(env, h, ledger, Peer(role), senders, c.inbox, Relayed(m));
  }

  lemma ConnectTraced(env: Env, net: Net, authors: Authors, role: Role, id: Identity)
    requires NetInv(env, net) && NetTraced(env, net, authors) && Enabled(env, net, Connect(role, id))
    ensures NetTraced(env, AfterConnect(net, role, id), AuthorsAfter(net, authors, Connect(role, id)))
  {
    NewClientTraced(env, net, role, id);
    hide ClientTraced, NetInv;
    ModuliOf(env, id);
    hide GoodIdentity;
    var net' := AfterConnect(net, role, id);
    var authors' := AuthorsAfter(net, authors, Connect(role, id));
    var peer := Peer(role);
    assert SlotTraced(env, net, authors, peer);
    if peer in net.slots {
      PeerJoinTraced(env, net.history, net.ledger, peer, net.slots[peer], AuthorsOf(authors, peer), id);
    }
    assert SlotTraced(env, net', authors', role);
    assert SlotTraced(env, net', authors', peer);
  }

  lemma DisconnectTraced(env: Env, net: Net, authors: Authors, role: Role)
    requires NetTraced(env, net, authors) && Enabled(env, net, Disconnect(role))
    ensures NetTraced(env, AfterDisconnect(net, role), authors)
  {
    hide ClientTraced;
    var peer := Peer(role);
    assert SlotTraced(env, net, authors, peer);
    if peer in net.slots {
      PeerLeaveTraced(env, net.history, net.ledger, peer, net.slots[peer], AuthorsOf(authors, peer),
                      net.slots[role].session.identity);
    }
    assert SlotTraced(env, AfterDisconnect(net, role), authors, peer);
    assert SlotTraced(env, AfterDisconnect(net, role), authors, role);
  }

  lemma OutboxTailTraced(env: Env, h: History, ledger: Ledger, partner: Option<Identity>, role: Role, c: Client,
                         senders: seq<Identity>)
    requires ClientTraced(env, h, ledger, partner, role, c, senders) && c.outbox != []
    ensures ClientTraced(env, h, ledger, partner, role, c.(outbox := c.outbox[1..]), senders)
    ensures SentBy(env, h, ledger, role, c.session.identity, c.outbox[0])
  {
    hide SentBy, InboxTraced, AckedForOwn, SendersOk;
    assert OutboxTraced(env, h, ledger, role, c.session.identity, c.outbox);
  }

  lemma AuthoredIsRelayed(env: Env, h: History, ledger: Ledger, role: Role, id: Identity, m: Msg)
    requires SentBy(env, h, ledger, role, id, m)
    ensures RelayAccepts(env, role, m)
  {
  }

  // The server passes every line on.
  lemma RelayTraced(env: Env, net: Net, authors: Authors, role: Role)
    requires NetTraced(env, net, authors) && Enabled(env, net, Relay(role))
    ensures RelayAccepts(env, role, net.slots[role].outbox[0])
    ensures NetTraced(env, AfterRelay(env, net, role), authors)
  {
    hide ClientTraced, SentBy, RelayAccepts;
    var peer, c := Peer(role), net.slots[role];
    var m := c.outbox[0];
    assert SlotTraced(env, net, authors, role) && SlotTraced(env, net, authors, peer);
    OutboxTailTraced(env, net.history, net.ledger, Occupant(net, peer), role, c, AuthorsOf(authors, role));
    AuthoredIsRelayed(env, net.history, net.ledger, role, c.session.identity, m);
    if peer in net.slots {
      LineTraced(env, net.history, net.ledger, peer, net.slots[peer], AuthorsOf(authors, peer), c.session.identity, m);
    }
    var net' := AfterRelay(env, net, role);
    assert SlotTraced(env, net', authors, role);
    assert SlotTraced(env, net', authors, peer);
  }

  // A client that only saw somebody's records grow.
  lemma OtherTraced(env: Env, h: History, ledger: Ledger, h': History, ledger': Ledger, partner: Option<Identity>,
                    role: Role,
                    c: Client, senders: seq<Identity>)
    requires ClientTraced(env, h, ledger, partner, role, c, senders)
    requires h.keys <= h'.keys && h.acks <= h'.acks && ledger.signatures <= ledger'.signatures
    requires role == ClientB ==> AckedForOwn(h', c.session.identity)
    ensures ClientTraced(env, h', ledger', partner, role, c, senders)
  {
    hide SentBy, AckedForOwn, InboxTraced;
    InboxGrows(env, h, ledger, h', ledger', Peer(role), senders, c.inbox);
    forall m | m in c.outbox
      ensures SentBy(env, h', ledger', role, c.session.identity, m)
    {
      SentByGrows(env, h, ledger, h', ledger', role, c.session.identity, m);
    }
  }

  lemma NoticeTraced(env: Env, h: History, ledger: Ledger, partner: Option<Identity>, role: Role, c: Client,
                     senders: seq<Identity>)
    requires ClientTraced(env, h, ledger, partner, role, c, senders) && c.inbox != [] && !c.inbox[0].Relayed?
    requires GoodIdentity(env, c.session.identity) && c.session.role == role
    ensures senders != []
    ensures c.inbox[0] == PeerLeft ==>
      ClientTraced(env, h, ledger, partner, role, Client(OnPeerLeft(c.session), c.outbox, c.inbox[1..]), senders[1..])
    ensures c.inbox[0] == PeerJoined ==>
      var (s, r) := OnPeerJoined(env, c.session);
      ClientTraced(env, h, ledger, partner, role, Client(s, c.outbox + r.outgoing, c.inbox[1..]), senders)
  {
    hide SentBy, AckedForOwn, GoodIdentity, OwnHello;
    OwnHelloSentBy(env, h, ledger, c.session);
    if c.inbox[0] == PeerLeft && partner.Some? {
      assert senders[1..][|senders[1..]| - 1] == senders[|senders| - 1];
    }
  }

  // The author of the line at the head of an inbox.
  lemma HeadSentBy(env: Env, h: History, ledger: Ledger, partner: Option<Identity>, role: Role, c: Client,
                   senders: seq<Identity>)
    requires ClientTraced(env, h, ledger, partner, role, c, senders) && c.inbox != [] && c.inbox[0].Relayed?
    ensures senders != [] && SentBy(env, h, ledger, Peer(role), senders[0], c.inbox[0].m)
    ensures WellFormed(env, c.inbox[0].m)
    ensures c.session.state != NoSession ==>
              OfPartner(Some(senders[0]), c.session.peerEncryption, c.session.peerSigning)
  {
    hide WellFormed, KeyBy, AckBy, HelloBy, AckedForOwn, Name;
  }

  lemma HelloModulus(env: Env, used: set<PublicKey>, partner: Option<Identity>, inbox: seq<Item>)
    requires InboxOk(env, used, partner, inbox) && inbox != [] && inbox[0].Relayed? && inbox[0].m.Hello?
    requires KeysAcceptable(env, used) && (partner.Some? ==> KeysOf(partner.value) <= used)
    ensures var e := ImportPublicKey(env, inbox[0].m.encryptionPublicKey);
            e.Some? && MIN_MODULUS_LENGTH <= env.modulusBits(e.value) <= 8192
  {
    hide ImportPublicKey, ParsePem, WellFormed;
    HelloKeys(env, used, partner, inbox);
    var m := inbox[0].m;
    KeysOkUsed(used, partner, inbox[1..], ImportPublicKey(env, m.encryptionPublicKey),
               ImportPublicKey(env, m.signingPublicKey));
  }

  lemma MessageTraced(env: Env, net: Net, authors: Authors, role: Role, coins: Coins)
    requires NetInv(env, net) && NetTraced(env, net, authors) && Enabled(env, net, Deliver(role, coins))
    requires net.slots[role].inbox[0].Relayed?
    ensures var c := net.slots[role];
            var o := OnMessage(env, net.ledger, c.session, c.inbox[0].m, coins);
            ClientTraced(env, Recorded(net.history, c.session, o, coins), o.ledger, Occupant(net, Peer(role)), role,
                         Client(o.session, c.outbox + o.result.outgoing, c.inbox[1..]), AuthorsOf(authors, role))
  {
    hide OnMessage, WellFormed, Sound, GoodIdentity, Inv, SessionRecorded, HistoryOk, PairOk, InboxOk, SessionKeysOk,
         OutboxOk,
         SentBy, ImportPublicKey, LawfulCoins, AckedForOwn, Recorded;
    PartsOfSlot(env, net, role);
    var c, partner, senders := net.slots[role], Occupant(net, Peer(role)), AuthorsOf(authors, role);
    assert SlotTraced(env, net, authors, role);
    var m := c.inbox[0].m;
    HeadSentBy(env, net.history, net.ledger, partner, role, c, senders);
    var o := OnMessage(env, net.ledger, c.session, m, coins);
    if m.Hello? {
      HelloModulus(env, net.used, partner, c.inbox);
      HeadHello(env, net.history, net.ledger, Peer(role), senders[0], m);
    }
    OutgoingSentBy(env, net.history, net.ledger, c.session, m, coins);
    PeerAfter(env, net.ledger, c.session, m, coins, senders[0]);
    if c.session.state != NoSession {
      PeerKeysAreUsed(net.used, partner, c);
    }
    if role == ClientB {
      AckedAfter(env, net.history, net.ledger, net.used, c.session, m, coins, c.session.identity);
    }
    LedgerGrows(env, net.ledger, c.session, m, coins);
    RecordedGrows(net.history, c.session, o, coins);
    IdentityStays(env, net.ledger, c.session, m, coins);
    MessageAssembles(env, net.history, net.ledger, partner, role, c, senders, o, coins);
  }

  lemma HeadHello(env: Env, h: History, ledger: Ledger, role: Role, id: Identity, m: Msg)
    requires SentBy(env, h, ledger, role, id, m) && m.Hello?
    ensures HelloBy(env, id, m) && m.sender == Name(role)
  {
    hide WellFormed, Name, ParsePem;
  }

  lemma IdentityStays(env: Env, ledger: Ledger, s: Session, m: Msg, coins: Coins)
    ensures OnMessage(env, ledger, s, m, coins).session.role == s.role
    ensures OnMessage(env, ledger, s, m, coins).session.identity == s.identity
  {
    OutgoingHellos(env, ledger, s, m, coins);
  }

  lemma MessageAssembles(env: Env, h: History, ledger: Ledger, partner: Option<Identity>, role: Role, c: Client,
                         senders: seq<Identity>, o: Outcome, coins: Coins)
    requires ClientTraced(env, h, ledger, partner, role, c, senders) && c.inbox != [] && c.inbox[0].Relayed?
    requires var h' := Recorded(h, c.session, o, coins);
             && h.keys <= h'.keys && h.acks <= h'.acks && ledger.signatures <= o.ledger.signatures
             && OutboxTraced(env, h', o.ledger, role, c.session.identity, o.result.outgoing)
             && (role == ClientB ==> AckedForOwn(h', c.session.identity))
    requires o.session.identity == c.session.identity && PeerTraced(o.session, senders)
    ensures ClientTraced(env, Recorded(h, c.session, o, coins), o.ledger, partner, role,
                         Client(o.session, c.outbox + o.result.outgoing, c.inbox[1..]), senders)
  {
    hide SentBy, AckedForOwn, Recorded;
    var h' := Recorded(h, c.session, o, coins);
    InboxGrows(env, h, ledger, h', o.ledger, Peer(role), senders, c.inbox);
    forall m | m in c.outbox
      ensures SentBy(env, h', o.ledger, role, c.session.identity, m)
    {
      SentByGrows(env, h, ledger, h', o.ledger, role, c.session.identity, m);
    }
  }

  lemma DeliverMessageTraced(env: Env, net: Net, authors: Authors, role: Role, coins: Coins)
    requires NetInv(env, net) && NetTraced(env, net, authors) && Enabled(env, net, Deliver(role, coins))
    requires net.slots[role].inbox[0].Relayed?
    ensures NetTraced(env, AfterDeliver(env, net, role, coins), authors)
  {
    hide OnMessage, HandleMessage, WellFormed, Sound, GoodIdentity, Inv, SessionRecorded, HistoryOk, PairOk, InboxOk,
         SessionKeysOk,
         OutboxOk, LawfulCoins, AckedForOwn, Recorded, InboxTraced, OutboxTraced, PeerTraced, SendersOk, ToObject;
    var c, peer := net.slots[role], Peer(role);
    var m := c.inbox[0].m;
    PartsOfSlot(env, net, role);
    HeadIsWellFormed(env, net.used, Occupant(net, peer), c.inbox);
    HandleWellFormed(env, net.ledger, c.session, m, coins);
    MessageTraced(env, net, authors, role, coins);
    var o := OnMessage(env, net.ledger, c.session, m, coins);
    IdentityStays(env, net.ledger, c.session, m, coins);
    var net' := AfterDeliver(env, net, role, coins);
    assert SlotTraced(env, net', authors, role);
    if peer in net.slots {
      assert SlotTraced(env, net, authors, peer);
      LedgerGrows(env, net.ledger, c.session, m, coins);
      RecordedGrows(net.history, c.session, o, coins);
      OtherAcked(env, net, role, coins);
      OtherTraced(env, net.history, net.ledger, net'.history, net'.ledger, Occupant(net, role), peer, net.slots[peer],
                  AuthorsOf(authors, peer));
    }
    assert SlotTraced(env, net', authors, peer);
  }

  // A responder's acknowledgements are not touched by what the initiator does.
  lemma OtherAcked(env: Env, net: Net, role: Role, coins: Coins)
    requires NetInv(env, net) && Enabled(env, net, Deliver(role, coins)) && net.slots[role].inbox[0].Relayed?
    requires role == ClientA && ClientB in net.slots ==> AckedForOwn(net.history, net.slots[ClientB].session.identity)
    ensures role == ClientA && ClientB in net.slots ==>
      var c := net.slots[role];
      AckedForOwn(Recorded(net.history, c.session, OnMessage(env, net.ledger, c.session, c.inbox[0].m, coins), coins),
                  net.slots[ClientB].session.identity)
  {
    hide OnMessage, WellFormed, GoodIdentity, Inv, SessionRecorded, HistoryOk, PairOk, InboxOk, SessionKeysOk,
         OutboxOk, LawfulCoins,
         AckedForOwn, Recorded, Sound;
    PartsOfSlot(env, net, role);
    var c := net.slots[role];
    if role == ClientA && ClientB in net.slots {
      if c.session.state != NoSession {
        PeerKeysAreUsed(net.used, Occupant(net, ClientB), c);
      }
      AckedAfter(env, net.history, net.ledger, net.used, c.session, c.inbox[0].m, coins,
                 net.slots[ClientB].session.identity);
    }
  }

  lemma DeliverNoticeTraced(env: Env, net: Net, authors: Authors, role: Role, coins: Coins)
    requires NetInv(env, net) && NetTraced(env, net, authors) && Enabled(env, net, Deliver(role, coins))
    requires !net.slots[role].inbox[0].Relayed?
    ensures NetTraced(env, AfterDeliver(env, net, role, coins), AuthorsAfter(net, authors, Deliver(role, coins)))
  {
    hide GoodIdentity, Sound, HistoryOk, PairOk, Inv, SessionRecorded, SessionKeysOk, InboxOk, OutboxOk, ClientTraced;
    PartsOfSlot(env, net, role);
    var c, partner := net.slots[role], Occupant(net, Peer(role));
    assert SlotTraced(env, net, authors, role) && SlotTraced(env, net, authors, Peer(role));
    NoticeTraced(env, net.history, net.ledger, partner, role, c, AuthorsOf(authors, role));
    var net' := AfterDeliver(env, net, role, coins);
    var authors' := AuthorsAfter(net, authors, Deliver(role, coins));
    assert net'.slots[role].session.identity == c.session.identity;
    assert SlotTraced(env, net', authors', role);
    assert SlotTraced(env, net', authors', Peer(role));
  }

  lemma StepTraced(env: Env, net: Net, authors: Authors, step: Step)
    requires NetInv(env, net) && NetTraced(env, net, authors) && Enabled(env, net, step)
    ensures NetTraced(env, Next(env, net, step), AuthorsAfter(net, authors, step))
  {
    hide NetInv, NetTraced, LawfulCoins, GoodIdentity;
    match step
    case Connect(role, id) => ConnectTraced(env, net, authors, role, id);
    case Disconnect(role) => DisconnectTraced(env, net, authors, role);
    case Relay(role) => RelayTraced(env, net, authors, role);
    case Deliver(role, coins) =>
      if net.slots[role].inbox[0].Relayed? {
        DeliverMessageTraced(env, net, authors, role, coins);
      } else {
        DeliverNoticeTraced(env, net, authors, role, coins);
      }
  }

  lemma {:induction false} RunTraced(env: Env, from: Net, authors: Authors, steps: seq<Step>,
                                     to: Net) returns (authors': Authors)
    requires NetInv(env, from) && NetTraced(env, from, authors) && Reaches(env, from, steps, to)
    ensures NetInv(env, to) && NetTraced(env, to, authors')
    decreases |steps|
  {
    hide NetInv, NetTraced, Next, Enabled;
    authors' := authors;
    if steps != [] {
      StepKeepsInv(env, from, steps[0]);
      StepTraced(env, from, authors, steps[0]);
      authors' := RunTraced(env, Next(env, from, steps[0]), AuthorsAfter(from, authors, steps[0]), steps[1..], to);
    }
  }

  lemma Reachable(env: Env, steps: seq<Step>, net: Net) returns (authors: Authors)
    requires Reaches(env, INITIAL, steps, net)
    ensures NetInv(env, net) && NetTraced(env, net, authors)
  {
    assert NetInv(env, INITIAL);
    hide NetInv;
    authors := RunTraced(env, INITIAL, Authors([], []), steps, net);
  }

  // ---- When a client fails ---------------------------------------------------------------------------------

  // A signed message the session waits for, but not its own: a key wrapped for another client, or an
  // acknowledgement of another session ID.
  ghost predicate Misdirected(h: History, s: Session, m: Msg) {
    || (s.role == ClientB && s.state == HelloExchanged && m.KeyExchange? && !KeyFor(h, s.identity.encryption, m))
    || (s.role == ClientA && s.state == KeySent && m.KeyExchangeAck? && s.sessionId != Some(m.sessionId))
  }

  // One traced line and one client: it fails exactly on a misdirected line.
  lemma FailsOnMisdirected(env: Env, h: History, ledger: Ledger, used: set<PublicKey>, s: Session, m: Msg,
                           coins: Coins, id: Identity)
    requires Sound(h, ledger, used) && Inv(s) && s.state != Failed && GoodIdentity(env, s.identity)
    requires SentBy(env, h, ledger, Peer(s.role), id, m) && WellFormed(env, m)
    requires s.state != NoSession ==> OfPartner(Some(id), s.peerEncryption, s.peerSigning) && id.signing in used
    requires LawfulCoins(env, h, ledger, s, m, coins) && coins.key.Some? && coins.ackSignature.Some?
    requires m.Hello? ==> MIN_MODULUS_LENGTH <= env.modulusBits(id.encryption) <= 8192
    ensures OnMessage(env, ledger, s, m, coins).session.state == Failed <==> Misdirected(h, s, m)
  {
    hide OnMessage, Sound, GoodIdentity, WellFormed, ImportPublicKey, ParsePem, KeyBy, AckBy, KeyFor, LawfulKeyCoins,
         Name, Hex;
    ModuliOf(env, s.identity);
    match m
    case Hello(_, _, _, _) =>
      HeadHello(env, h, ledger, Peer(s.role), id, m);
      HelloImportsTo(env, id, m);
      if s.state != NoSession {
        HelloIgnored(env, ledger, s, m, coins);
      } else if s.role == ClientA {
        InitiatorGreeted(env, ledger, s, m, coins, id);
      } else {
        ResponderGreeted(env, ledger, s, m, coins, id);
      }
    case KeyExchange(_, _, _, _, _, _) =>
      if s.state == HelloExchanged {
        ResponderKeyed(env, h, ledger, used, s, m, coins, id.signing);
      } else {
        SignedIgnored(env, ledger, s, m, coins);
      }
    case KeyExchangeAck(_, _, _, _, _) =>
      if s.state == KeySent {
        InitiatorAcked(env, h, ledger, s, m, coins, id.signing);
      } else {
        SignedIgnored(env, ledger, s, m, coins);
      }
  }

  lemma HeadModulus(env: Env, net: Net, authors: Authors, role: Role)
    requires NetInv(env, net) && NetTraced(env, net, authors) && role in net.slots
    requires var c := net.slots[role]; c.inbox != [] && c.inbox[0].Relayed?
    ensures net.slots[role].inbox[0].m.Hello? ==>
      && AuthorsOf(authors, role) != []
      && MIN_MODULUS_LENGTH <= env.modulusBits(AuthorsOf(authors, role)[0].encryption) <= 8192
  {
    hide GoodIdentity, Sound, HistoryOk, PairOk, Inv, SessionRecorded, SessionKeysOk, InboxOk, OutboxOk, WellFormed,
         SentBy,
         ImportPublicKey, AckedForOwn, InboxTraced;
    PartsOfSlot(env, net, role);
    var c, partner, senders := net.slots[role], Occupant(net, Peer(role)), AuthorsOf(authors, role);
    assert SlotTraced(env, net, authors, role);
    HeadSentBy(env, net.history, net.ledger, partner, role, c, senders);
    if c.inbox[0].m.Hello? {
      HelloModulus(env, net.used, partner, c.inbox);
      HeadHello(env, net.history, net.ledger, Peer(role), senders[0], c.inbox[0].m);
      HelloImportsTo(env, senders[0], c.inbox[0].m);
    }
  }

  // All that is known when a client handles a line.
  lemma HeadFacts(env: Env, net: Net, authors: Authors, role: Role)
    requires NetInv(env, net) && NetTraced(env, net, authors) && role in net.slots
    requires net.slots[role].inbox != [] && net.slots[role].inbox[0].Relayed?
    ensures var c, senders := net.slots[role], AuthorsOf(authors, role);
            && Sound(net.history, net.ledger, net.used) && Inv(c.session) && c.session.role == role
            && GoodIdentity(env, c.session.identity) && WellFormed(env, c.inbox[0].m) && senders != []
            && SentBy(env, net.history, net.ledger, Peer(role), senders[0], c.inbox[0].m)
            && (c.session.state != NoSession ==>
                  OfPartner(Some(senders[0]), c.session.peerEncryption, c.session.peerSigning) &&
                  senders[0].signing in net.used)
            && (c.inbox[0].m.Hello? ==> MIN_MODULUS_LENGTH <= env.modulusBits(senders[0].encryption) <= 8192)
  {
    hide GoodIdentity, HistoryOk, PairOk, Inv, SessionRecorded, SessionKeysOk, InboxOk, OutboxOk, WellFormed, SentBy,
         AckedForOwn,
         InboxTraced, SignaturesExplained, WrapsRecorded, RecordsValid, IdsUnique, ClientTraced;
    PartsOfSlot(env, net, role);
    var c, partner := net.slots[role], Occupant(net, Peer(role));
    assert SlotTraced(env, net, authors, role);
    HeadSentBy(env, net.history, net.ledger, partner, role, c, AuthorsOf(authors, role));
    HeadModulus(env, net, authors, role);
    if c.session.state != NoSession {
      PeerKeysAreUsed(net.used, partner, c);
    }
  }

  lemma FailsExactlyAt(env: Env, net: Net, authors: Authors, role: Role, coins: Coins)
    requires NetInv(env, net) && NetTraced(env, net, authors) && Enabled(env, net, Deliver(role, coins))
    requires coins.key.Some? && coins.ackSignature.Some? && net.slots[role].inbox[0].Relayed?
    requires net.slots[role].session.state != Failed
    ensures role in AfterDeliver(env, net, role, coins).slots
    ensures AfterDeliver(env, net, role, coins).slots[role].session.state == Failed
       <==> Misdirected(net.history, net.slots[role].session, net.slots[role].inbox[0].m)
  {
    hide NetInv, NetTraced, LawfulCoins, GoodIdentity, Sound, Inv, OnMessage, HandleMessage, ToObject, WellFormed,
         SentBy, Misdirected,
         KeyFor;
    var c := net.slots[role];
    HeadFacts(env, net, authors, role);
    HandleWellFormed(env, net.ledger, c.session, c.inbox[0].m, coins);
    FailsOnMisdirected(env, net.history, net.ledger, net.used, c.session, c.inbox[0].m, coins,
                       AuthorsOf(authors, role)[0]);
  }

  // In every reachable state of the system and for every delivery in which the primitives work: a
  // client becomes FAILED exactly when it is a responder in HELLO_EXCHANGED handling a KEY_EXCHANGE
  // whose recorded key was wrapped for another client, or an initiator in KEY_SENT handling an
  // acknowledgement of another session ID.
  lemma FailsExactly(env: Env, steps: seq<Step>, net: Net, role: Role, coins: Coins)
    requires Reaches(env, INITIAL, steps, net) && Enabled(env, net, Deliver(role, coins))
    requires coins.key.Some? && coins.ackSignature.Some? && net.slots[role].session.state != Failed
    ensures role in AfterDeliver(env, net, role, coins).slots
    ensures AfterDeliver(env, net, role, coins).slots[role].session.state == Failed
      <==> (net.slots[role].inbox[0].Relayed?
            && Misdirected(net.history, net.slots[role].session, net.slots[role].inbox[0].m))
  {
    hide NetInv, NetTraced, Reaches, LawfulCoins, HandleMessage, ToObject, Misdirected;
    var authors := Reachable(env, steps, net);
    if net.slots[role].inbox[0].Relayed? {
      FailsExactlyAt(env, net, authors, role, coins);
    }
  }
}
