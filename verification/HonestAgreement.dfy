// Agreement in the system with an honest relay, whatever clients come and go.
module HonestAgreement {
  import opened Wrappers
  import opened Text
  import opened Crypto
  import opened Messages
  import opened Validation
  import opened Handshake
  import opened Sessions
  import opened Evidence
  import opened HonestNetwork

  // ---- Invariant ----------------------------------------------------------------------------------

  predicate Departed(items: seq<Item>) {
    PeerLeft in items
  }

  // The keys of the client in a slot.
  function Occupant(net: Net, role: Role): Option<Identity> {
    if role in net.slots then Some(net.slots[role].session.identity) else None
  }

  // Keys that belong to the present peer.
  predicate OfPartner(partner: Option<Identity>, enc: Option<PublicKey>, sig: Option<PublicKey>) {
    partner.Some? && enc == Some(partner.value.encryption) && sig == Some(partner.value.signing)
  }

  // Keys that belong to some earlier peer.
  predicate NotOfPartner(used: set<PublicKey>, partner: Option<Identity>, enc: Option<PublicKey>,
                         sig: Option<PublicKey>) {
    && enc.Some? && sig.Some? && enc.value in used && sig.value in used
    && (partner.Some? ==> enc.value != partner.value.encryption && sig.value != partner.value.signing)
  }

  // Keys learned before a departure notice still ahead in the inbox are an earlier peer's; all
  // others are the present peer's.
  predicate KeysOk(used: set<PublicKey>, partner: Option<Identity>, ahead: seq<Item>, enc: Option<PublicKey>,
                   sig: Option<PublicKey>) {
    if Departed(ahead) then NotOfPartner(used, partner, enc, sig) else OfPartner(partner, enc, sig)
  }

  predicate SessionKeysOk(used: set<PublicKey>, partner: Option<Identity>, c: Client) {
    c.session.state != NoSession ==> KeysOk(used, partner, c.inbox, c.session.peerEncryption, c.session.peerSigning)
  }

  predicate InboxOk(env: Env, used: set<PublicKey>, partner: Option<Identity>, inbox: seq<Item>) {
    forall i :: 0 <= i < |inbox| && inbox[i].Relayed? ==>
      && WellFormed(env, inbox[i].m)
      && (inbox[i].m.Hello? ==>
          KeysOk(used, partner, inbox[i + 1..],
                 ParsePem(env, inbox[i].m.encryptionPublicKey), ParsePem(env, inbox[i].m.signingPublicKey)))
  }

  // A client's own HELLOs carry its own keys.
  predicate OutboxOk(env: Env, c: Client) {
    forall m :: m in c.outbox && m.Hello? ==>
      && ParsePem(env, m.encryptionPublicKey) == Some(c.session.identity.encryption)
      && ParsePem(env, m.signingPublicKey) == Some(c.session.identity.signing)
  }

  // What the records say about a session.
  ghost predicate SessionRecorded(h: History, s: Session) {
    && (s.role == ClientA && s.state in {KeySent, Established} ==>
        KeyRecordOf(h, s, s.identity.signing, s.peerEncryption))
    && (s.role == ClientA && s.state == Established ==>
        exists a :: a in h.acks && Some(a.signer) == s.peerSigning && Some(a.sessionId) == s.sessionId)
    && (s.role == ClientB && s.state == Established ==>
        s.peerSigning.Some? && KeyRecordOf(h, s, s.peerSigning.value, Some(s.identity.encryption)))
  }

  // Some recorded key is the session's, with this signer and recipient.
  ghost predicate KeyRecordOf(h: History, s: Session, signer: PublicKey, recipient: Option<PublicKey>) {
    exists r :: RecordMatches(h, r, s, signer, recipient)
  }

  predicate RecordMatches(h: History, r: KeyRecord, s: Session, signer: PublicKey, recipient: Option<PublicKey>) {
    r in h.keys && r.signer == signer && Some(r.recipient) == recipient
    && s.sessionId == Some(r.sessionId) && s.sessionKey == Some(r.sessionKey)
  }

  ghost predicate ClientOk(env: Env, h: History, used: set<PublicKey>, partner: Option<Identity>, role: Role,
                           c: Client) {
    && c.session.role == role && Inv(c.session)
    && GoodIdentity(env, c.session.identity) && KeysOf(c.session.identity) <= used
    && SessionRecorded(h, c.session)
    && SessionKeysOk(used, partner, c)
    && InboxOk(env, used, partner, c.inbox)
    && OutboxOk(env, c)
  }

  ghost predicate SlotOk(env: Env, net: Net, role: Role) {
    role in net.slots ==> ClientOk(env, net.history, net.used, Occupant(net, Peer(role)), role, net.slots[role])
  }

  // A key that the present A wrapped for the present B is the one of A's current session.
  predicate KeyIsCurrent(h: History, a: Client, b: Client) {
    forall r ::
      (r in h.keys && r.signer == a.session.identity.signing && r.recipient == b.session.identity.encryption) ==>
      (!Departed(a.inbox) && a.session.peerEncryption == Some(b.session.identity.encryption)
       && a.session.sessionId == Some(r.sessionId))
  }

  // If the present B acknowledged an ID of the present A, B's session is that one.
  predicate AckIsCurrent(h: History, a: Client, b: Client) {
    forall r, k ::
      (r in h.keys && k in h.acks && r.signer == a.session.identity.signing
       && k.signer == b.session.identity.signing && r.sessionId == k.sessionId) ==>
      (!Departed(b.inbox) && b.session.state == Established && b.session.sessionId == Some(k.sessionId))
  }

  predicate PairOk(h: History, a: Client, b: Client) {
    && KeysOf(a.session.identity) !! KeysOf(b.session.identity)
    && !(Departed(a.inbox) && Departed(b.inbox))
    && KeyIsCurrent(h, a, b)
    && AckIsCurrent(h, a, b)
  }

  // Recorded keys and IDs come from generated keys and created IDs.
  predicate HistoryOk(h: History, used: set<PublicKey>) {
    && (forall r :: r in h.keys ==> r.signer in used && r.recipient in used)
    && (forall k :: k in h.acks ==> k.signer in used && exists r :: r in h.keys && r.sessionId == k.sessionId)
  }

  ghost predicate NetInv(env: Env, net: Net) {
    && (forall s :: s in net.ledger.signatures ==> s.signer in net.used)
    && Sound(net.history, net.ledger, net.used)
    && HistoryOk(net.history, net.used)
    && SlotOk(env, net, ClientA) && SlotOk(env, net, ClientB)
    && (ClientA in net.slots && ClientB in net.slots ==> PairOk(net.history, net.slots[ClientA], net.slots[ClientB]))
  }

  // ---- Agreement follows from the invariant -----------------------------------------------------------

  lemma InvAgreement(env: Env, net: Net)
    requires NetInv(env, net)
    requires ClientA in net.slots && ClientB in net.slots
    requires net.slots[ClientA].session.state == Established && net.slots[ClientB].session.state == Established
    ensures net.slots[ClientA].session.sessionId.Some? && net.slots[ClientA].session.sessionKey.Some?
    ensures net.slots[ClientA].session.sessionId == net.slots[ClientB].session.sessionId
    ensures net.slots[ClientA].session.sessionKey == net.slots[ClientB].session.sessionKey
  {
    hide GoodIdentity, InboxOk, OutboxOk, SignaturesExplained, WrapsRecorded, RecordsValid, HistoryOk;
    var a, b := net.slots[ClientA], net.slots[ClientB];
    assert SlotOk(env, net, ClientA) && SlotOk(env, net, ClientB);
    assert KeyRecordOf(net.history, a.session, a.session.identity.signing, a.session.peerEncryption);
    var ra :| RecordMatches(net.history, ra, a.session, a.session.identity.signing, a.session.peerEncryption);
    var k :| k in net.history.acks && Some(k.signer) == a.session.peerSigning &&
        Some(k.sessionId) == a.session.sessionId;
    var rb :| RecordMatches(net.history, rb, b.session, b.session.peerSigning.value,
                            Some(b.session.identity.encryption));
    assert KeysOk(net.used, Occupant(net, ClientA), b.inbox, b.session.peerEncryption, b.session.peerSigning);
    assert KeysOk(net.used, Occupant(net, ClientB), a.inbox, a.session.peerEncryption, a.session.peerSigning);
    assert !Departed(b.inbox);
    assert rb.signer == a.session.identity.signing;
  }

  // ---- Presence changes ------------------------------------------------------------------------------

  lemma LeaveKeepsKeys(used: set<PublicKey>, partner: Identity, ahead: seq<Item>, enc: Option<PublicKey>,
                       sig: Option<PublicKey>)
    requires KeysOk(used, Some(partner), ahead, enc, sig) && KeysOf(partner) <= used
    ensures KeysOk(used, None, ahead + [PeerLeft], enc, sig)
  {
  }

  lemma JoinKeepsKeys(used: set<PublicKey>, joining: Identity, ahead: seq<Item>, enc: Option<PublicKey>,
                      sig: Option<PublicKey>)
    requires KeysOk(used, None, ahead, enc, sig) && KeysOf(joining) !! used
    ensures KeysOk(used + KeysOf(joining), Some(joining), ahead + [PeerJoined], enc, sig)
  {
  }

  // The peer's new line reaches a client.
  lemma ClientHears(env: Env, h: History, used: set<PublicKey>, partner: Option<Identity>, role: Role, c: Client,
                    item: Item)
    requires ClientOk(env, h, used, partner, role, c) && item != PeerLeft
    requires item.Relayed? ==> WellFormed(env, item.m)
    requires item.Relayed? && item.m.Hello? ==>
      OfPartner(partner, ParsePem(env, item.m.encryptionPublicKey), ParsePem(env, item.m.signingPublicKey))
    ensures ClientOk(env, h, used, partner, role, c.(inbox := c.inbox + [item]))
  {
    hide GoodIdentity, Inv, WellFormed, ParsePem, OfPartner, NotOfPartner, SessionRecorded;
    var inbox := c.inbox + [item];
    forall i | 0 <= i < |inbox| && inbox[i].Relayed?
      ensures WellFormed(env, inbox[i].m)
      ensures inbox[i].m.Hello? ==>
        KeysOk(used, partner, inbox[i + 1..], ParsePem(env, inbox[i].m.encryptionPublicKey),
               ParsePem(env, inbox[i].m.signingPublicKey))
    {
      if i < |c.inbox| {
        assert inbox[i + 1..] == c.inbox[i + 1..] + [item];
      }
    }
  }

  // The peer leaves.
  lemma ClientLosesPeer(env: Env, h: History, used: set<PublicKey>, partner: Identity, role: Role, c: Client)
    requires ClientOk(env, h, used, Some(partner), role, c) && KeysOf(partner) <= used
    ensures ClientOk(env, h, used, None, role, c.(inbox := c.inbox + [PeerLeft]))
  {
    hide GoodIdentity, Inv, WellFormed, ParsePem, SessionRecorded, KeysOk;
    var inbox := c.inbox + [PeerLeft];
    forall i | 0 <= i < |inbox| && inbox[i].Relayed?
      ensures WellFormed(env, inbox[i].m)
      ensures inbox[i].m.Hello? ==>
        KeysOk(used, None, inbox[i + 1..], ParsePem(env, inbox[i].m.encryptionPublicKey),
               ParsePem(env, inbox[i].m.signingPublicKey))
    {
      assert inbox[i + 1..] == c.inbox[i + 1..] + [PeerLeft];
      if c.inbox[i].m.Hello? {
        LeaveKeepsKeys(used, partner, c.inbox[i + 1..], ParsePem(env, inbox[i].m.encryptionPublicKey),
                       ParsePem(env, inbox[i].m.signingPublicKey));
      }
    }
    if c.session.state != NoSession {
      LeaveKeepsKeys(used, partner, c.inbox, c.session.peerEncryption, c.session.peerSigning);
    }
  }

  // A new peer with new keys arrives.
  lemma ClientGainsPeer(env: Env, h: History, used: set<PublicKey>, joining: Identity, role: Role, c: Client)
    requires ClientOk(env, h, used, None, role, c) && KeysOf(joining) !! used
    ensures ClientOk(env, h, used + KeysOf(joining), Some(joining), role, c.(inbox := c.inbox + [PeerJoined]))
  {
    hide GoodIdentity, Inv, WellFormed, ParsePem, SessionRecorded, KeysOk;
    var inbox := c.inbox + [PeerJoined];
    forall i | 0 <= i < |inbox| && inbox[i].Relayed?
      ensures WellFormed(env, inbox[i].m)
      ensures inbox[i].m.Hello? ==>
        KeysOk(used + KeysOf(joining), Some(joining), inbox[i + 1..],
               ParsePem(env, inbox[i].m.encryptionPublicKey), ParsePem(env, inbox[i].m.signingPublicKey))
    {
      assert inbox[i + 1..] == c.inbox[i + 1..] + [PeerJoined];
      if c.inbox[i].m.Hello? {
        JoinKeepsKeys(used, joining, c.inbox[i + 1..], ParsePem(env, inbox[i].m.encryptionPublicKey),
                      ParsePem(env, inbox[i].m.signingPublicKey));
      }
    }
    if c.session.state != NoSession {
      JoinKeepsKeys(used, joining, c.inbox, c.session.peerEncryption, c.session.peerSigning);
    }
  }

  lemma NewClientOk(env: Env, h: History, used: set<PublicKey>, partner: Option<Identity>, role: Role, id: Identity,
                    inbox: seq<Item>)
    requires GoodIdentity(env, id) && KeysOf(id) <= used && inbox in {[], [PeerJoined]}
    ensures ClientOk(env, h, used, partner, role, Client(Fresh(role, id), [], inbox))
  {
  }

  lemma ConnectKeepsInv(env: Env, net: Net, role: Role, id: Identity)
    requires NetInv(env, net) && Enabled(env, net, Connect(role, id))
    ensures NetInv(env, AfterConnect(net, role, id))
  {
    hide GoodIdentity, ClientOk, Explained, WrapsRecorded, RecordsValid, IdsUnique;
    var net' := AfterConnect(net, role, id);
    var peer := Peer(role);
    NewClientOk(env, net.history, net'.used, Occupant(net', peer), role, id, net'.slots[role].inbox);
    if peer in net.slots {
      ClientGainsPeer(env, net.history, net.used, id, peer, net.slots[peer]);
      NewPairOk(env, net, role, id);
    }
    assert forall s :: s in net.ledger.signatures && s.signer in net'.used ==> s.signer in net.used;
  }

  // Nothing is recorded yet about a client that just connected.
  lemma NewPairOk(env: Env, net: Net, role: Role, id: Identity)
    requires NetInv(env, net) && Enabled(env, net, Connect(role, id)) && Peer(role) in net.slots
    ensures var net' := AfterConnect(net, role, id);
            PairOk(net'.history, net'.slots[ClientA], net'.slots[ClientB])
  {
    hide GoodIdentity, Sound, SessionRecorded, SessionKeysOk, InboxOk, OutboxOk, Inv;
    var net' := AfterConnect(net, role, id);
    assert SlotOk(env, net, Peer(role));
    assert net'.slots[role].session.identity == id;
    assert net'.slots[Peer(role)].session.identity == net.slots[Peer(role)].session.identity;
    assert forall r :: r in net.history.keys ==> r.signer !in KeysOf(id) && r.recipient !in KeysOf(id);
    assert forall k :: k in net.history.acks ==> k.signer !in KeysOf(id);
  }

  lemma DisconnectKeepsInv(env: Env, net: Net, role: Role)
    requires NetInv(env, net) && Enabled(env, net, Disconnect(role))
    ensures NetInv(env, AfterDisconnect(net, role))
  {
    hide Sound, HistoryOk, PairOk, GoodIdentity, Inv, SessionRecorded, SessionKeysOk, InboxOk, OutboxOk;
    var peer := Peer(role);
    assert SlotOk(env, net, role) && SlotOk(env, net, peer);
    if peer in net.slots {
      ClientLosesPeer(env, net.history, net.used, net.slots[role].session.identity, peer, net.slots[peer]);
    }
  }

  // ---- Relaying ---------------------------------------------------------------------------------------

  lemma OutboxTail(env: Env, h: History, used: set<PublicKey>, partner: Option<Identity>, role: Role, c: Client)
    requires ClientOk(env, h, used, partner, role, c) && c.outbox != []
    ensures ClientOk(env, h, used, partner, role, c.(outbox := c.outbox[1..]))
  {
    hide GoodIdentity, Inv, InboxOk, ParsePem, KeysOk, SessionRecorded;
  }

  lemma RelayKeepsInv(env: Env, net: Net, role: Role)
    requires NetInv(env, net) && Enabled(env, net, Relay(role))
    ensures NetInv(env, AfterRelay(env, net, role))
  {
    hide Sound, HistoryOk, GoodIdentity, Inv, SessionRecorded, SessionKeysOk, InboxOk, RelayAccepts, WellFormed;
    var peer := Peer(role);
    var c := net.slots[role];
    var m := c.outbox[0];
    assert SlotOk(env, net, role) && SlotOk(env, net, peer);
    OutboxTail(env, net.history, net.used, Occupant(net, peer), role, c);
    if RelayAccepts(env, role, m) && peer in net.slots {
      RelayedIsWellFormed(env, role, m);
      ClientHears(env, net.history, net.used, Occupant(net, role), peer, net.slots[peer], Relayed(m));
    }
    RelayKeepsPair(env, net, role);
  }

  lemma RelayedIsWellFormed(env: Env, role: Role, m: Msg)
    requires RelayAccepts(env, role, m)
    ensures WellFormed(env, m)
  {
    hide WellFormed;
  }

  lemma RelayKeepsPair(env: Env, net: Net, role: Role)
    requires role in net.slots && net.slots[role].outbox != []
    requires ClientA in net.slots && ClientB in net.slots ==>
               PairOk(net.history, net.slots[ClientA], net.slots[ClientB])
    ensures var net' := AfterRelay(env, net, role);
            ClientA in net'.slots && ClientB in net'.slots ==>
              PairOk(net'.history, net'.slots[ClientA], net'.slots[ClientB])
  {
    hide RelayAccepts;
    var net' := AfterRelay(env, net, role);
    forall r: Role | r in net'.slots
      ensures r in net.slots && net'.slots[r].session == net.slots[r].session
      ensures Departed(net'.slots[r].inbox) == Departed(net.slots[r].inbox)
    {
    }
  }

  // ---- Delivery ------------------------------------------------------------------------------------------

  lemma OwnHelloIsWellFormed(env: Env, s: Session)
    requires GoodIdentity(env, s.identity)
    ensures WellFormed(env, OwnHello(env, s))
    ensures ParsePem(env, OwnHello(env, s).encryptionPublicKey) == Some(s.identity.encryption)
    ensures ParsePem(env, OwnHello(env, s).signingPublicKey) == Some(s.identity.signing)
  {
    hide ParsePem, IsIdentity, NoPrivateMark, Name;
    NamesAreParties();
    assert ValidParty(Name(s.role)) by {
      assert s.role == ClientA || s.role == ClientB;
    }
  }

  lemma ClientSeesJoin(env: Env, h: History, used: set<PublicKey>, partner: Option<Identity>, role: Role, c: Client)
    requires ClientOk(env, h, used, partner, role, c) && c.inbox != [] && c.inbox[0] == PeerJoined
    ensures var (s, r) := OnPeerJoined(env, c.session);
            ClientOk(env, h, used, partner, role, Client(s, c.outbox + r.outgoing, c.inbox[1..]))
  {
    OwnHelloIsWellFormed(env, c.session);
    hide GoodIdentity, ParsePem, KeysOk, WellFormed, OwnHello;
    InboxTail(env, used, partner, c.inbox);
    DepartedTail(c.inbox);
    KeysOkTail(used, partner, c);
    var (s, r) := OnPeerJoined(env, c.session);
    RecordedUnchanged(h, c.session, s);
  }

  lemma RecordedUnchanged(h: History, s: Session, s': Session)
    requires SessionRecorded(h, s) && s' == s.(helloSent := s'.helloSent)
    ensures SessionRecorded(h, s')
  {
    if KeyRecordOf(h, s, s.identity.signing, s.peerEncryption) {
      var r :| RecordMatches(h, r, s, s.identity.signing, s.peerEncryption);
      assert RecordMatches(h, r, s', s.identity.signing, s.peerEncryption);
    }
    if s.peerSigning.Some? && KeyRecordOf(h, s, s.peerSigning.value, Some(s.identity.encryption)) {
      var r :| RecordMatches(h, r, s, s.peerSigning.value, Some(s.identity.encryption));
      assert RecordMatches(h, r, s', s.peerSigning.value, Some(s.identity.encryption));
    }
  }

  lemma InboxTail(env: Env, used: set<PublicKey>, partner: Option<Identity>, inbox: seq<Item>)
    requires InboxOk(env, used, partner, inbox) && inbox != []
    ensures InboxOk(env, used, partner, inbox[1..])
  {
    hide ParsePem, KeysOk, WellFormed;
    var rest := inbox[1..];
    forall i | 0 <= i < |rest|
      ensures rest[i] == inbox[i + 1] && rest[i + 1..] == inbox[i + 2..]
    {
    }
  }

  lemma DepartedTail(inbox: seq<Item>)
    requires inbox != []
    ensures inbox[0] != PeerLeft ==> Departed(inbox[1..]) == Departed(inbox)
    ensures inbox[0] == PeerLeft ==> Departed(inbox)
  {
    assert inbox == [inbox[0]] + inbox[1..];
  }

  lemma KeysOkTail(used: set<PublicKey>, partner: Option<Identity>, c: Client)
    requires c.inbox != [] && c.inbox[0] != PeerLeft
    ensures KeysOk(used, partner, c.inbox[1..], c.session.peerEncryption, c.session.peerSigning)
         == KeysOk(used, partner, c.inbox, c.session.peerEncryption, c.session.peerSigning)
  {
    DepartedTail(c.inbox);
  }

  lemma ClientSeesLeave(env: Env, h: History, used: set<PublicKey>, partner: Option<Identity>, role: Role, c: Client)
    requires ClientOk(env, h, used, partner, role, c) && c.inbox != [] && c.inbox[0] == PeerLeft
    ensures ClientOk(env, h, used, partner, role, Client(OnPeerLeft(c.session), c.outbox, c.inbox[1..]))
  {
    hide GoodIdentity, ParsePem, KeysOk, WellFormed;
    InboxTail(env, used, partner, c.inbox);
  }

  // The keys a session holds were generated by some client.
  lemma PeerKeysAreUsed(used: set<PublicKey>, partner: Option<Identity>, c: Client)
    requires SessionKeysOk(used, partner, c) && c.session.state != NoSession
    requires partner.Some? ==> KeysOf(partner.value) <= used
    ensures c.session.peerEncryption.Some? && c.session.peerEncryption.value in used
    ensures c.session.peerSigning.Some? && c.session.peerSigning.value in used
  {
  }

  lemma HelloKeys(env: Env, used: set<PublicKey>, partner: Option<Identity>, inbox: seq<Item>)
    requires InboxOk(env, used, partner, inbox) && inbox != [] && inbox[0].Relayed? && inbox[0].m.Hello?
    ensures var m := inbox[0].m;
            KeysOk(used, partner, inbox[1..], ImportPublicKey(env, m.encryptionPublicKey),
                   ImportPublicKey(env, m.signingPublicKey))
  {
    var m := inbox[0].m;
    assert WellFormed(env, m);
    hide ImportPublicKey, IsIdentity, NoPrivateMark, KeysOk;
  }

  lemma OutgoingHellos(env: Env, ledger: Ledger, s: Session, m: Msg, coins: Coins)
    ensures forall x :: x in OnMessage(env, ledger, s, m, coins).result.outgoing && x.Hello? ==> x == OwnHello(env, s)
    ensures OnMessage(env, ledger, s, m, coins).session.role == s.role
    ensures OnMessage(env, ledger, s, m, coins).session.identity == s.identity
  {
    hide VerifyKeyExchange, VerifyKeyExchangeAck, ImportPublicKey, Hex, Canonical.CanonicalizeHandshake, Name,
         Base64.Encode, OwnHello;
  }

  lemma SessionKeysAfter(env: Env, ledger: Ledger, used: set<PublicKey>, partner: Option<Identity>, c: Client,
                         coins: Coins)
    requires c.inbox != [] && c.inbox[0].Relayed? && Inv(c.session)
    requires InboxOk(env, used, partner, c.inbox) && SessionKeysOk(used, partner, c)
    ensures var o := OnMessage(env, ledger, c.session, c.inbox[0].m, coins);
            SessionKeysOk(used, partner, Client(o.session, c.outbox, c.inbox[1..]))
  {
    var m := c.inbox[0].m;
    assert WellFormed(env, m);
    var o := OnMessage(env, ledger, c.session, m, coins);
    KeysOkTail(used, partner, c);
    if m.Hello? {
      HelloKeys(env, used, partner, c.inbox);
    }
    match o.result.event
    case KeyExchangeSent =>
      KeyExchangeSentCreates(env, History({}, {}), ledger, c.session, m, coins);
    case SessionEstablished =>
      if c.session.role == ClientA { EstablishedAVerifies(env, ledger, c.session, m, coins); }
      else { EstablishedBAccepts(env, ledger, c.session, m, coins); }
    case _ =>
      OtherSteps(env, ledger, c.session, m, coins);
      if c.session.state == NoSession && !m.Hello? {
        NoSessionUntilHello(env, ledger, c.session, m, coins);
      }
    hide KeysOk, OnMessage, WellFormed, ImportPublicKey, ParsePem, Creates, Accepts, VerifyKeyExchangeAck, Inv;
    assert InboxOk(env, used, partner, c.inbox);
  }

  lemma NoSessionUntilHello(env: Env, ledger: Ledger, s: Session, m: Msg, coins: Coins)
    requires s.state == NoSession && !m.Hello?
    ensures OnMessage(env, ledger, s, m, coins).session == s
  {
  }

  lemma RecordsGrow(h: History, h': History, s: Session)
    requires SessionRecorded(h, s) && h.keys <= h'.keys && h.acks <= h'.acks
    ensures SessionRecorded(h', s)
  {
    if KeyRecordOf(h, s, s.identity.signing, s.peerEncryption) {
      var r :| RecordMatches(h, r, s, s.identity.signing, s.peerEncryption);
      assert RecordMatches(h', r, s, s.identity.signing, s.peerEncryption);
    }
    if s.peerSigning.Some? && KeyRecordOf(h, s, s.peerSigning.value, Some(s.identity.encryption)) {
      var r :| RecordMatches(h, r, s, s.peerSigning.value, Some(s.identity.encryption));
      assert RecordMatches(h', r, s, s.peerSigning.value, Some(s.identity.encryption));
    }
  }

  lemma SessionRecordedAfter(env: Env, h: History, ledger: Ledger, used: set<PublicKey>, partner: Option<Identity>,
                             c: Client, coins: Coins)
    requires c.inbox != [] && c.inbox[0].Relayed? && Inv(c.session) && WellFormed(env, c.inbox[0].m)
    requires Sound(h, ledger, used) && SessionRecorded(h, c.session) && SessionKeysOk(used, partner, c)
    requires partner.Some? ==> KeysOf(partner.value) <= used
    ensures var o := OnMessage(env, ledger, c.session, c.inbox[0].m, coins);
            SessionRecorded(Recorded(h, c.session, o, coins), o.session)
  {
    hide OnMessage, WellFormed, Sound, SessionKeysOk, VerifyKeyExchange, VerifyKeyExchangeAck, KeyData, AckData, Hex,
         Name, ImportPublicKey;
    var m, s := c.inbox[0].m, c.session;
    var o := OnMessage(env, ledger, s, m, coins);
    var h' := Recorded(h, s, o, coins);
    OutgoingHellos(env, ledger, s, m, coins);
    match o.result.event
    case KeyExchangeSent =>
      KeyExchangeSentCreates(env, h, ledger, s, m, coins);
      var k := coins.key.value;
      var r := KeyRecord(s.identity.signing, o.session.peerEncryption.value, Hex(k.idBytes), k.ciphertext,
                         k.sessionKey);
      assert RecordMatches(h', r, o.session, s.identity.signing, o.session.peerEncryption);
    case SessionEstablished =>
      if s.role == ClientA {
        EstablishedAVerifies(env, ledger, s, m, coins);
        PeerKeysAreUsed(used, partner, c);
        var a := AcceptedAckIsRecorded(env, h, ledger, used, m, s.peerSigning.value, s.sessionId.value);
        var r :| RecordMatches(h, r, s, s.identity.signing, s.peerEncryption);
        assert RecordMatches(h', r, o.session, s.identity.signing, s.peerEncryption);
      } else {
        EstablishedBAccepts(env, ledger, s, m, coins);
        PeerKeysAreUsed(used, partner, c);
        var r := AcceptedKeyIsRecorded(env, h, ledger, used, m, s.peerSigning.value, s.identity.encryption,
                                       m.sessionId, o.session.sessionKey.value);
        assert RecordMatches(h', r, o.session, s.peerSigning.value, Some(s.identity.encryption));
      }
    case _ =>
      OtherSteps(env, ledger, s, m, coins);
  }

  lemma ClientHandles(env: Env, h: History, ledger: Ledger, used: set<PublicKey>, partner: Option<Identity>,
                      role: Role, c: Client, coins: Coins)
    requires ClientOk(env, h, used, partner, role, c) && c.inbox != [] && c.inbox[0].Relayed?
    requires Sound(h, ledger, used) && (partner.Some? ==> KeysOf(partner.value) <= used)
    ensures var o := OnMessage(env, ledger, c.session, c.inbox[0].m, coins);
            ClientOk(env, Recorded(h, c.session, o, coins), used, partner, role,
                     Client(o.session, c.outbox + o.result.outgoing, c.inbox[1..]))
  {
    assert WellFormed(env, c.inbox[0].m);
    OwnHelloIsWellFormed(env, c.session);
    hide OnMessage, WellFormed, Sound, GoodIdentity, Inv, SessionRecorded, SessionKeysOk, ParsePem, OwnHello,
         Recorded, InboxOk;
    var m := c.inbox[0].m;
    OutgoingHellos(env, ledger, c.session, m, coins);
    OnMessageInv(env, ledger, c.session, m, coins);
    SessionRecordedAfter(env, h, ledger, used, partner, c, coins);
    SessionKeysAfter(env, ledger, used, partner, c, coins);
    SessionKeysIgnoreOutbox(used, partner, c, OnMessage(env, ledger, c.session, m, coins), c.inbox[1..]);
    InboxTail(env, used, partner, c.inbox);
  }

  lemma SessionKeysIgnoreOutbox(used: set<PublicKey>, partner: Option<Identity>, c: Client, o: Outcome, rest: seq<Item>)
    requires SessionKeysOk(used, partner, Client(o.session, c.outbox, rest))
    ensures SessionKeysOk(used, partner, Client(o.session, c.outbox + o.result.outgoing, rest))
  {
  }

  // A created key is the current one of its initiator.
  lemma CreationKeepsPair(h: History, a: Client, b: Client, r: KeyRecord, a': Client)
    requires PairOk(h, a, b) && Inv(a.session) && a.session.state == NoSession
    requires forall k :: k in h.acks ==> k.sessionId != r.sessionId
    requires r.signer == a.session.identity.signing && a'.session.identity == a.session.identity
    requires a'.session.peerEncryption == Some(r.recipient) && a'.session.sessionId == Some(r.sessionId)
    requires Departed(a'.inbox) == Departed(a.inbox)
    requires Departed(a'.inbox) ==> r.recipient != b.session.identity.encryption
    ensures PairOk(h.(keys := h.keys + {r}), a', b)
  {
  }

  // A step that creates nothing keeps the session ID, and the peer's keys once there is one.
  lemma QuietKeepsPair(h: History, a: Client, b: Client, a': Client)
    requires PairOk(h, a, b) && Inv(a.session) && a'.session.identity == a.session.identity
    requires a'.session.sessionId == a.session.sessionId && Departed(a'.inbox) == Departed(a.inbox)
    requires a.session.state != NoSession ==> a'.session.peerEncryption == a.session.peerEncryption
    ensures PairOk(h, a', b)
  {
  }

  // An ID drawn now is not among the acknowledged ones.
  lemma FreshIdIsUnacked(h: History, used: set<PublicKey>, id: string)
    requires HistoryOk(h, used) && forall r :: r in h.keys ==> r.sessionId != id
    ensures forall k :: k in h.acks ==> k.sessionId != id
  {
  }

  // The initiator's step keeps the pair coherent.
  lemma InitiatorKeepsPair(env: Env, h: History, ledger: Ledger, used: set<PublicKey>, a: Client, b: Client,
                           coins: Coins)
    requires PairOk(h, a, b) && HistoryOk(h, used) && Inv(a.session) && a.session.role == ClientA
    requires InboxOk(env, used, Some(b.session.identity), a.inbox)
    requires a.inbox != [] && a.inbox[0].Relayed?
    requires LawfulCoins(env, h, ledger, a.session, a.inbox[0].m, coins)
    ensures var o := OnMessage(env, ledger, a.session, a.inbox[0].m, coins);
            PairOk(Recorded(h, a.session, o, coins), Client(o.session, a.outbox + o.result.outgoing, a.inbox[1..]), b)
  {
    assert WellFormed(env, a.inbox[0].m);
    hide OnMessage, WellFormed, ImportPublicKey, Hex, LawfulKeyCoins, KeyData, VerifyKeyExchangeAck, InboxOk, PairOk,
         HistoryOk, Inv;
    var m, s := a.inbox[0].m, a.session;
    var o := OnMessage(env, ledger, s, m, coins);
    var a' := Client(o.session, a.outbox + o.result.outgoing, a.inbox[1..]);
    DepartedTail(a.inbox);
    OutgoingHellos(env, ledger, s, m, coins);
    match o.result.event
    case KeyExchangeSent =>
      KeyExchangeSentCreates(env, h, ledger, s, m, coins);
      HelloKeys(env, used, Some(b.session.identity), a.inbox);
      var c := coins.key.value;
      FreshIdIsUnacked(h, used, Hex(c.idBytes));
      CreationKeepsPair(h, a, b,
                        KeyRecord(s.identity.signing, o.session.peerEncryption.value, Hex(c.idBytes), c.ciphertext,
                                  c.sessionKey), a');
    case SessionEstablished =>
      EstablishedAVerifies(env, ledger, s, m, coins);
      QuietKeepsPair(h, a, b, a');
    case _ =>
      OtherSteps(env, ledger, s, m, coins);
      QuietKeepsPair(h, a, b, a');
  }

  lemma EstablishedStays(env: Env, ledger: Ledger, s: Session, m: Msg, coins: Coins)
    requires s.state == Established
    ensures OnMessage(env, ledger, s, m, coins).session == s
    ensures OnMessage(env, ledger, s, m, coins).result.event == NoEvent
  {
  }

  // The responder's step keeps the pair coherent.
  lemma ResponderKeepsPair(env: Env, h: History, ledger: Ledger, used: set<PublicKey>, a: Client, b: Client,
                           coins: Coins)
    requires PairOk(h, a, b) && HistoryOk(h, used) && Inv(b.session) && b.session.role == ClientB
    requires SessionKeysOk(used, Some(a.session.identity), b) && KeysOf(a.session.identity) <= used
    requires b.inbox != [] && b.inbox[0].Relayed? && WellFormed(env, b.inbox[0].m)
    requires Sound(h, ledger, used)
    ensures var o := OnMessage(env, ledger, b.session, b.inbox[0].m, coins);
            PairOk(Recorded(h, b.session, o, coins), a, Client(o.session, b.outbox + o.result.outgoing, b.inbox[1..]))
  {
    hide OnMessage, WellFormed, SignaturesExplained, WrapsRecorded, RecordsValid, VerifyKeyExchange, AckData,
         HistoryOk, Inv;
    var m, s := b.inbox[0].m, b.session;
    var o := OnMessage(env, ledger, s, m, coins);
    DepartedTail(b.inbox);
    OutgoingHellos(env, ledger, s, m, coins);
    if s.state == Established {
      EstablishedStays(env, ledger, s, m, coins);
    }
    match o.result.event
    case KeyExchangeSent =>
      KeyExchangeSentCreates(env, h, ledger, s, m, coins);
    case SessionEstablished =>
      EstablishedBAccepts(env, ledger, s, m, coins);
      PeerKeysAreUsed(used, Some(a.session.identity), b);
      var r := AcceptedKeyIsRecorded(env, h, ledger, used, m, s.peerSigning.value, s.identity.encryption,
                                     m.sessionId, o.session.sessionKey.value);
      assert KeysOk(used, Some(a.session.identity), b.inbox, s.peerEncryption, s.peerSigning);
    case _ =>
  }

  lemma PresenceKeepsPair(env: Env, net: Net, role: Role, coins: Coins)
    requires NetInv(env, net) && Enabled(env, net, Deliver(role, coins)) && !net.slots[role].inbox[0].Relayed?
    ensures var net' := AfterDeliver(env, net, role, coins);
            ClientA in net'.slots && ClientB in net'.slots ==>
              PairOk(net'.history, net'.slots[ClientA], net'.slots[ClientB])
  {
    hide Sound, SlotOk, GoodIdentity;
    var c := net.slots[role];
    DepartedTail(c.inbox);
    assert AfterDeliver(env, net, role, coins).slots[role].session.identity == c.session.identity;
  }

  lemma DeliverPresenceKeepsInv(env: Env, net: Net, role: Role, coins: Coins)
    requires NetInv(env, net) && Enabled(env, net, Deliver(role, coins)) && !net.slots[role].inbox[0].Relayed?
    ensures NetInv(env, AfterDeliver(env, net, role, coins))
  {
    hide Sound, HistoryOk, PairOk, ClientOk;
    PresenceKeepsPair(env, net, role, coins);
    var c := net.slots[role];
    var partner := Occupant(net, Peer(role));
    if c.inbox[0] == PeerJoined {
      ClientSeesJoin(env, net.history, net.used, partner, role, c);
    } else {
      ClientSeesLeave(env, net.history, net.used, partner, role, c);
    }
    assert AfterDeliver(env, net, role, coins).slots[role].session.identity == c.session.identity;
    assert SlotOk(env, net, Peer(role));
  }

  lemma OtherClientUnaffected(env: Env, h: History, h': History, used: set<PublicKey>, partner: Option<Identity>,
                              role: Role, c: Client)
    requires ClientOk(env, h, used, partner, role, c) && h.keys <= h'.keys && h.acks <= h'.acks
    ensures ClientOk(env, h', used, partner, role, c)
  {
    hide GoodIdentity, Inv, SessionKeysOk, InboxOk, OutboxOk, SessionRecorded;
    RecordsGrow(h, h', c.session);
  }

  lemma HistoryGainsKey(h: History, used: set<PublicKey>, r: KeyRecord)
    requires HistoryOk(h, used) && r.signer in used && r.recipient in used
    ensures HistoryOk(h.(keys := h.keys + {r}), used)
  {
  }

  lemma HistoryGainsAck(h: History, used: set<PublicKey>, r: KeyRecord, k: AckRecord)
    requires HistoryOk(h, used) && k.signer in used && r in h.keys && r.sessionId == k.sessionId
    ensures HistoryOk(h.(acks := h.acks + {k}), used)
  {
  }

  lemma KeysOkUsed(used: set<PublicKey>, partner: Option<Identity>, ahead: seq<Item>, enc: Option<PublicKey>,
                   sig: Option<PublicKey>)
    requires KeysOk(used, partner, ahead, enc, sig) && (partner.Some? ==> KeysOf(partner.value) <= used)
    ensures enc.Some? && enc.value in used
  {
  }

  lemma CreationKeepsBooks(env: Env, h: History, ledger: Ledger, used: set<PublicKey>, partner: Option<Identity>,
                           c: Client, coins: Coins)
    requires c.inbox != [] && c.inbox[0].Relayed? && Inv(c.session) && WellFormed(env, c.inbox[0].m)
    requires HistoryOk(h, used) && (forall s :: s in ledger.signatures ==> s.signer in used)
    requires SessionKeysOk(used, partner, c) && InboxOk(env, used, partner, c.inbox)
    requires KeysOf(c.session.identity) <= used && (partner.Some? ==> KeysOf(partner.value) <= used)
    requires OnMessage(env, ledger, c.session, c.inbox[0].m, coins).result.event == KeyExchangeSent
    ensures var o := OnMessage(env, ledger, c.session, c.inbox[0].m, coins);
            && HistoryOk(Recorded(h, c.session, o, coins), used)
            && (forall s :: s in o.ledger.signatures ==> s.signer in used)
  {
    hide OnMessage, WellFormed, Sound, Inv, ImportPublicKey, Hex, KeyData, AckData, VerifyKeyExchange,
         VerifyKeyExchangeAck,
         InboxOk, SessionKeysOk, KeysOk, HistoryOk;
    var m, s := c.inbox[0].m, c.session;
    var o := OnMessage(env, ledger, s, m, coins);
    KeyExchangeSentCreates(env, h, ledger, s, m, coins);
    HelloKeys(env, used, partner, c.inbox);
    KeysOkUsed(used, partner, c.inbox[1..], o.session.peerEncryption, o.session.peerSigning);
    var k := coins.key.value;
    HistoryGainsKey(h, used,
                    KeyRecord(s.identity.signing, o.session.peerEncryption.value, Hex(k.idBytes), k.ciphertext,
                              k.sessionKey));
  }

  lemma AcceptanceKeepsBooks(env: Env, h: History, ledger: Ledger, used: set<PublicKey>, partner: Option<Identity>,
                             c: Client, coins: Coins)
    requires c.inbox != [] && c.inbox[0].Relayed? && Inv(c.session) && WellFormed(env, c.inbox[0].m)
    requires HistoryOk(h, used) && (forall s :: s in ledger.signatures ==> s.signer in used)
    requires SessionKeysOk(used, partner, c) && InboxOk(env, used, partner, c.inbox)
    requires KeysOf(c.session.identity) <= used && (partner.Some? ==> KeysOf(partner.value) <= used)
    requires Sound(h, ledger, used) && c.session.role == ClientB
    requires OnMessage(env, ledger, c.session, c.inbox[0].m, coins).result.event == SessionEstablished
    ensures var o := OnMessage(env, ledger, c.session, c.inbox[0].m, coins);
            && HistoryOk(Recorded(h, c.session, o, coins), used)
            && (forall s :: s in o.ledger.signatures ==> s.signer in used)
  {
    hide OnMessage, WellFormed, Sound, Inv, ImportPublicKey, Hex, KeyData, AckData, VerifyKeyExchange,
         VerifyKeyExchangeAck,
         InboxOk, SessionKeysOk, KeysOk, HistoryOk;
    var m, s := c.inbox[0].m, c.session;
    var o := OnMessage(env, ledger, s, m, coins);
    EstablishedBAccepts(env, ledger, s, m, coins);
    PeerKeysAreUsed(used, partner, c);
    var r := AcceptedKeyIsRecorded(env, h, ledger, used, m, s.peerSigning.value, s.identity.encryption,
                                   m.sessionId, o.session.sessionKey.value);
    HistoryGainsAck(h, used, r, AckRecord(s.identity.signing, m.sessionId, o.session.sessionKey.value));
  }

  // Every record names generated keys, and every signature was made with one.
  lemma HandlingKeepsBooks(env: Env, h: History, ledger: Ledger, used: set<PublicKey>, partner: Option<Identity>,
                           c: Client, coins: Coins)
    requires c.inbox != [] && c.inbox[0].Relayed? && Inv(c.session) && WellFormed(env, c.inbox[0].m)
    requires HistoryOk(h, used) && (forall s :: s in ledger.signatures ==> s.signer in used)
    requires SessionKeysOk(used, partner, c) && InboxOk(env, used, partner, c.inbox)
    requires KeysOf(c.session.identity) <= used && (partner.Some? ==> KeysOf(partner.value) <= used)
    requires Sound(h, ledger, used)
    ensures var o := OnMessage(env, ledger, c.session, c.inbox[0].m, coins);
            && HistoryOk(Recorded(h, c.session, o, coins), used)
            && (forall s :: s in o.ledger.signatures ==> s.signer in used)
  {
    hide OnMessage, WellFormed, Sound, Inv, ImportPublicKey, Hex, KeyData, AckData, VerifyKeyExchange,
         VerifyKeyExchangeAck,
         InboxOk, SessionKeysOk, KeysOk, HistoryOk;
    var m, s := c.inbox[0].m, c.session;
    match OnMessage(env, ledger, s, m, coins).result.event
    case KeyExchangeSent =>
      CreationKeepsBooks(env, h, ledger, used, partner, c, coins);
    case SessionEstablished =>
      if s.role == ClientA {
        EstablishedAVerifies(env, ledger, s, m, coins);
      } else {
        AcceptanceKeepsBooks(env, h, ledger, used, partner, c, coins);
      }
    case _ =>
      OtherSteps(env, ledger, s, m, coins);
  }

  // The parts of the invariant that concern one slot.
  lemma PartsOfSlot(env: Env, net: Net, role: Role)
    requires NetInv(env, net) && role in net.slots
    ensures ClientOk(env, net.history, net.used, Occupant(net, Peer(role)), role, net.slots[role])
    ensures Occupant(net, Peer(role)).Some? ==> KeysOf(Occupant(net, Peer(role)).value) <= net.used
  {
    hide Sound, HistoryOk, PairOk, GoodIdentity, Inv, SessionRecorded, SessionKeysOk, InboxOk, OutboxOk;
    assert SlotOk(env, net, role) && SlotOk(env, net, Peer(role));
  }

  lemma HeadIsWellFormed(env: Env, used: set<PublicKey>, partner: Option<Identity>, inbox: seq<Item>)
    requires InboxOk(env, used, partner, inbox) && inbox != [] && inbox[0].Relayed?
    ensures WellFormed(env, inbox[0].m)
  {
    hide WellFormed;
  }

  lemma MessageKeepsPair(env: Env, net: Net, role: Role, coins: Coins)
    requires NetInv(env, net) && Enabled(env, net, Deliver(role, coins)) && net.slots[role].inbox[0].Relayed?
    requires Peer(role) in net.slots
    ensures var c := net.slots[role];
            var o := OnMessage(env, net.ledger, c.session, c.inbox[0].m, coins);
            var c' := Client(o.session, c.outbox + o.result.outgoing, c.inbox[1..]);
            var h' := Recorded(net.history, c.session, o, coins);
            if role == ClientA then PairOk(h', c', net.slots[ClientB]) else PairOk(h', net.slots[ClientA], c')
  {
    hide OnMessage, WellFormed, Sound, GoodIdentity, Inv, SessionRecorded, LawfulCoins, HistoryOk, PairOk,
         SessionKeysOk, OutboxOk, InboxOk, Recorded;
    PartsOfSlot(env, net, role);
    PartsOfSlot(env, net, Peer(role));
    var c, d := net.slots[role], net.slots[Peer(role)];
    HeadIsWellFormed(env, net.used, Some(d.session.identity), c.inbox);
    if role == ClientA {
      InitiatorKeepsPair(env, net.history, net.ledger, net.used, c, d, coins);
    } else {
      ResponderKeepsPair(env, net.history, net.ledger, net.used, d, c, coins);
    }
  }

  lemma DeliverMessageKeepsInv(env: Env, net: Net, role: Role, coins: Coins)
    requires NetInv(env, net) && Enabled(env, net, Deliver(role, coins)) && net.slots[role].inbox[0].Relayed?
    ensures NetInv(env, AfterDeliver(env, net, role, coins))
  {
    var c, peer := net.slots[role], Peer(role);
    var m := c.inbox[0].m;
    hide OnMessage, HandleMessage, WellFormed, Sound, GoodIdentity, Inv, SessionRecorded, LawfulCoins, ToObject,
         HistoryOk, PairOk, SessionKeysOk, OutboxOk, InboxOk;
    PartsOfSlot(env, net, role);
    HeadIsWellFormed(env, net.used, Occupant(net, peer), c.inbox);
    HandleWellFormed(env, net.ledger, c.session, m, coins);
    OutgoingHellos(env, net.ledger, c.session, m, coins);
    StepKeepsSound(env, net.history, net.ledger, net.used, c.session, m, coins);
    HandlingKeepsBooks(env, net.history, net.ledger, net.used, Occupant(net, peer), c, coins);
    ClientHandles(env, net.history, net.ledger, net.used, Occupant(net, peer), role, c, coins);
    if peer in net.slots {
      PartsOfSlot(env, net, peer);
      MessageKeepsPair(env, net, role, coins);
    }
    DeliverAssembles(env, net, role, coins, OnMessage(env, net.ledger, c.session, m, coins));
  }

  // Putting the parts of the invariant together after a message has been handled.
  lemma DeliverAssembles(env: Env, net: Net, role: Role, coins: Coins, o: Outcome)
    requires NetInv(env, net) && Enabled(env, net, Deliver(role, coins)) && net.slots[role].inbox[0].Relayed?
    requires o == HandleMessage(env, net.ledger, net.slots[role].session, Obj(ToObject(net.slots[role].inbox[0].m)),
                                coins)
    requires o.session.role == role && o.session.identity == net.slots[role].session.identity
    requires var c := net.slots[role];
             var h' := Recorded(net.history, c.session, o, coins);
             var c' := Client(o.session, c.outbox + o.result.outgoing, c.inbox[1..]);
             && Sound(h', o.ledger, net.used) && HistoryOk(h', net.used)
             && (forall s :: s in o.ledger.signatures ==> s.signer in net.used)
             && ClientOk(env, h', net.used, Occupant(net, Peer(role)), role, c')
             && (Peer(role) in net.slots ==>
                 if role == ClientA then PairOk(h', c', net.slots[ClientB]) else PairOk(h', net.slots[ClientA], c'))
    ensures NetInv(env, AfterDeliver(env, net, role, coins))
  {
    hide HandleMessage, Sound, ClientOk, LawfulCoins, ToObject, HistoryOk, PairOk;
    var net' := AfterDeliver(env, net, role, coins);
    var peer := Peer(role);
    if peer in net.slots {
      assert SlotOk(env, net, peer);
      RecordedGrows(net.history, net.slots[role].session, o, coins);
      OtherClientUnaffected(env, net.history, net'.history, net.used, Occupant(net, role), peer, net.slots[peer]);
    }
  }

  lemma RecordedGrows(h: History, s: Session, o: Outcome, coins: Coins)
    ensures h.keys <= Recorded(h, s, o, coins).keys && h.acks <= Recorded(h, s, o, coins).acks
  {
  }

  lemma StepKeepsInv(env: Env, net: Net, step: Step)
    requires NetInv(env, net) && Enabled(env, net, step)
    ensures NetInv(env, Next(env, net, step))
  {
    match step
    case Connect(role, id) => ConnectKeepsInv(env, net, role, id);
    case Disconnect(role) => DisconnectKeepsInv(env, net, role);
    case Relay(role) => RelayKeepsInv(env, net, role);
    case Deliver(role, coins) =>
      if net.slots[role].inbox[0].Relayed? {
        DeliverMessageKeepsInv(env, net, role, coins);
      } else {
        DeliverPresenceKeepsInv(env, net, role, coins);
      }
  }

  lemma {:induction false} RunKeepsInv(env: Env, from: Net, steps: seq<Step>, to: Net)
    requires NetInv(env, from) && Reaches(env, from, steps, to)
    ensures NetInv(env, to)
    decreases |steps|
  {
    hide NetInv, Next;
    if steps != [] {
      StepKeepsInv(env, from, steps[0]);
      RunKeepsInv(env, Next(env, from, steps[0]), steps[1..], to);
    }
  }

  // In every state any run can reach, for any number of departures, arrivals and stale lines in
  // flight: when the clients now in the two slots are both ESTABLISHED, they hold the same session
  // ID and the same key.
  lemma AgreementUnderChurn(env: Env, steps: seq<Step>, net: Net)
    requires Reaches(env, INITIAL, steps, net)
    requires ClientA in net.slots && ClientB in net.slots
    requires net.slots[ClientA].session.state == Established && net.slots[ClientB].session.state == Established
    ensures net.slots[ClientA].session.sessionId.Some? && net.slots[ClientA].session.sessionKey.Some?
    ensures net.slots[ClientA].session.sessionId == net.slots[ClientB].session.sessionId
    ensures net.slots[ClientA].session.sessionKey == net.slots[ClientB].session.sessionKey
  {
    assert NetInv(env, INITIAL);
    hide NetInv;
    RunKeepsInv(env, INITIAL, steps, net);
    InvAgreement(env, net);
  }
}
